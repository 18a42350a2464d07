/**
 * The chat screen's controller: the text field, the transcript and the
 * feedback map, changed in place by the screen's handlers. Each handler is
 * proved against the operation of the same name in `Transcript`.
 */
module ChatScreen {
  import opened Wrappers
  import opened ChatText
  import opened ChatMessages
  import opened Transcript

  class ChatController {
    /** The text field's content. */
    var userInput: string
    var messages: seq<Message>
    var feedback: map<nat, Option<bool>>
    /** The slots whose requests have been sent and have not finished yet. */
    ghost var pending: set<nat>

    function State(): Session
      reads this
    {
      Session(messages, feedback)
    }

    /** The transcript invariant, and every pending slot still shows its placeholder under a key. */
    ghost predicate Valid()
      reads this
    {
      Transcript.Valid(State()) &&
      forall p :: p in pending ==> p < |messages| && messages[p] == Placeholder && p in feedback
    }

    constructor ()
      ensures Valid()
      ensures State() == Empty && userInput == "" && pending == {}
    {
      userInput := "";
      messages := [];
      feedback := map[];
      pending := {};
    }

    /** `onUserInputChange`: the field shows what was typed. */
    method EditInput(text: string)
      modifies this`userInput
      ensures userInput == text
    {
      userInput := text;
    }

    /**
     * The bookkeeping part of `sendQuestionToChatbot`, before its request is
     * sent: append the question, capture the next index, append the
     * placeholder, give that index a null opinion. The captured index is
     * the returned `slot`, which the request's `Resolve` later uses.
     */
    method Submit(question: string) returns (slot: nat)
      requires Valid()
      modifies this`messages, this`feedback, this`pending
      ensures Valid()
      ensures State() == Submitted(old(State()), question)
      ensures slot == PlaceholderSlot(old(State())) && slot !in old(pending)
      ensures messages[slot] == Placeholder && messages[slot - 1] == Message(true, question)
      ensures pending == old(pending) + {slot}
    {
      ghost var before := State();
      messages := messages + [Message(true, question)];
      slot := |messages|;
      messages := messages + [Placeholder];
      feedback := feedback[slot := None];
      pending := pending + {slot};
      SubmitAccounting(before, question);
      SubmitKeepsValid(before, question);
    }

    /**
     * The end of `sendQuestionToChatbot`: the request that captured `slot`
     * finished with `outcome`, and its text replaces the placeholder.
     */
    method Resolve(slot: nat, outcome: Outcome)
      requires Valid() && slot in pending
      modifies this`messages, this`pending
      ensures Valid()
      ensures State() == Resolved(old(State()), slot, outcome)
      ensures pending == old(pending) - {slot}
    {
      ghost var before := State();
      messages := messages[slot := Message(false, ResponseText(outcome))];
      pending := pending - {slot};
      ResolveKeepsValid(before, slot, outcome);
    }

    /**
     * `onSendMessage`: blank input is refused and left in the field;
     * otherwise the field's text is captured, the field is cleared and the
     * captured text is submitted.
     */
    method Send() returns (slot: Option<nat>)
      requires Valid()
      modifies this
      ensures Valid()
      ensures IsBlank(old(userInput)) ==>
                slot == None && State() == old(State()) && userInput == old(userInput) &&
                pending == old(pending)
      ensures !IsBlank(old(userInput)) ==>
                slot == Some(PlaceholderSlot(old(State()))) && userInput == "" &&
                State() == Submitted(old(State()), old(userInput)) &&
                pending == old(pending) + {slot.value}
    {
      if !IsBlank(userInput) {
        var question := userInput;
        userInput := "";
        var s := Submit(question);
        slot := Some(s);
      } else {
        slot := None;
      }
    }

    /** The screen opened with a recognised utterance: it is submitted only if present and not blank. */
    method StartWithVoiceInput(initialVoiceInput: Option<string>) returns (slot: Option<nat>)
      requires Valid()
      modifies this`messages, this`feedback, this`pending
      ensures Valid()
      ensures initialVoiceInput.Some? && !IsBlank(initialVoiceInput.value) ==>
                slot == Some(PlaceholderSlot(old(State()))) &&
                State() == Submitted(old(State()), initialVoiceInput.value) &&
                pending == old(pending) + {slot.value}
      ensures initialVoiceInput.None? || IsBlank(initialVoiceInput.value) ==>
                slot == None && State() == old(State()) && pending == old(pending)
    {
      if initialVoiceInput.Some? && !IsBlank(initialVoiceInput.value) {
        var s := Submit(initialVoiceInput.value);
        slot := Some(s);
      } else {
        slot := None;
      }
    }

    /**
     * The speech recogniser returned: when it succeeded with a first result,
     * that result is submitted as it is, blank or not.
     */
    method OnVoiceResult(resultOk: bool, spokenText: Option<string>) returns (slot: Option<nat>)
      requires Valid()
      modifies this`messages, this`feedback, this`pending
      ensures Valid()
      ensures resultOk && spokenText.Some? ==>
                slot == Some(PlaceholderSlot(old(State()))) &&
                State() == Submitted(old(State()), spokenText.value) &&
                pending == old(pending) + {slot.value}
      ensures !(resultOk && spokenText.Some?) ==>
                slot == None && State() == old(State()) && pending == old(pending)
    {
      if resultOk && spokenText.Some? {
        var s := Submit(spokenText.value);
        slot := Some(s);
      } else {
        slot := None;
      }
    }

    /** The file picker returned: a picked file is announced and acknowledged; a cancelled pick does nothing. */
    method OnFilePicked(picked: Option<PickedFile>)
      requires Valid()
      modifies this`messages
      ensures Valid()
      ensures picked.Some? ==> State() == Attached(old(State()), picked.value)
      ensures picked.None? ==> State() == old(State())
    {
      if picked.Some? {
        ghost var before := State();
        var name := FileName(picked.value);
        if IsImageFileName(name) {
          messages := messages + [Message(true, ImageRef(picked.value.uri))];
        } else {
          messages := messages + [Message(true, UploadPrefix + name)];
        }
        messages := messages + [Message(false, FileReceived)];
        AttachAccounting(before, picked.value);
        assert Transcript.Valid(Attached(before, picked.value));
        forall p | p in pending
          ensures p < |messages| && messages[p] == Placeholder
        {
          assert messages[p] == before.messages[p];
        }
      }
    }

    /** `onLike` (`liked`) or `onDislike` (`!liked`) on the bubble of entry `index`. */
    method Rate(index: nat, liked: bool)
      requires Valid() && CanRate(State(), index)
      modifies this`feedback
      ensures Valid()
      ensures State() == Rated(old(State()), index, liked)
    {
      ghost var before := State();
      feedback := feedback[index := Some(liked)];
      RateOnlyKey(before, index, liked);
    }
  }

  /**
   * A caller's view through the handlers: typed blank input is refused, a
   * blank recognition result is still submitted, and an empty 2xx body and
   * a server error both leave error texts that are not read aloud.
   */
  method VoiceAndErrorSession() {
    var c := new ChatController();
    c.EditInput(" ");
    assert IsWhitespace(" "[0]);
    var refused := c.Send();
    assert refused == None && c.messages == [] && c.userInput == " ";

    var voiced := c.OnVoiceResult(true, Some(" "));
    assert voiced == Some(1);
    assert c.messages == [Message(true, " "), Placeholder];
    c.Resolve(1, Completed(204, Some(""), NullBody(None)));
    assert StartsWith(c.messages[1].text, FailurePrefix);

    var cancelled := c.OnVoiceResult(false, None);
    assert cancelled == None && |c.messages| == 2;

    var slot := c.Submit("Hello");
    assert slot == 3;
    c.Resolve(3, Completed(500, None, NullBody(None)));
    assert StartsWith(c.messages[3].text, FailurePrefix);
    assert !IsSpeakable(c.messages[3].text);
  }
}
