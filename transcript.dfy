/**
 * The chat screen's state as a value: the transcript (`messages`) and the
 * feedback map from transcript index to like (true), dislike (false) or no
 * opinion (null). Each operation of the screen is a function from the old
 * state to the new one; the controller class is proved against these.
 */
module Transcript {
  import opened Wrappers
  import opened ChatText
  import opened ChatMessages

  datatype Session = Session(messages: seq<Message>, feedback: map<nat, Option<bool>>)

  const Empty := Session([], map[])

  /** The opinion shown for entry `index` (`feedback[index]`, null when absent). */
  function FeedbackAt(s: Session, index: nat): Option<bool> {
    if index in s.feedback then s.feedback[index] else None
  }

  /** The index captured for the placeholder a submission appends: the size after the question. */
  function PlaceholderSlot(s: Session): nat {
    |s.messages| + 1
  }

  /** Submitting a question: the question, then the placeholder, whose index gets a null opinion. */
  function Submitted(s: Session, question: string): Session {
    Session(s.messages + [Message(true, question), Placeholder],
            s.feedback[PlaceholderSlot(s) := None])
  }

  /** A finished request overwrites the slot it captured with the bot's text. */
  function Resolved(s: Session, slot: nat, o: Outcome): Session
    requires slot < |s.messages|
  {
    s.(messages := s.messages[slot := Message(false, ResponseText(o))])
  }

  /** Attaching a file appends its two entries and records no opinion. */
  function Attached(s: Session, f: PickedFile): Session {
    s.(messages := s.messages + AttachmentMessages(f))
  }

  /** Like (`liked`) or dislike (`!liked`) of entry `index`. */
  function Rated(s: Session, index: nat, liked: bool): Session {
    s.(feedback := s.feedback[index := Some(liked)])
  }

  /** The like and dislike controls are drawn only under bot entries that are not images. */
  predicate CanRate(s: Session, index: nat) {
    index < |s.messages| && !s.messages[index].isFromUser &&
    !IsImageMessage(s.messages[index].text)
  }

  /**
   * The shape every operation keeps: entries come in (user, bot) pairs, and
   * every opinion is keyed by an existing bot entry.
   */
  predicate Valid(s: Session) {
    |s.messages| % 2 == 0 &&
    (forall k :: 0 <= k < |s.messages| ==> (s.messages[k].isFromUser <==> k % 2 == 0)) &&
    (forall k :: k in s.feedback ==> k < |s.messages| && !s.messages[k].isFromUser)
  }

  // ---------------------------------------------------------------------------
  // One operation at a time

  /**
   * Submitting to a transcript of length n: length n + 2, entry n is the
   * question, entry n + 1 the placeholder with a null opinion under the
   * captured index, nothing before n changes and no other opinion changes.
   * On a valid state the placeholder's key is new.
   */
  lemma SubmitAccounting(s: Session, question: string)
    ensures var r, n := Submitted(s, question), |s.messages|;
      && |r.messages| == n + 2
      && r.messages[..n] == s.messages
      && r.messages[n] == Message(true, question)
      && PlaceholderSlot(s) == n + 1
      && r.messages[n + 1] == Placeholder
      && PlaceholderSlot(s) in r.feedback && FeedbackAt(r, n + 1) == None
      && (forall k :: k != n + 1 ==> FeedbackAt(r, k) == FeedbackAt(s, k))
    ensures Valid(s) ==> PlaceholderSlot(s) !in s.feedback
  {
  }

  lemma SubmitKeepsValid(s: Session, question: string)
    requires Valid(s)
    ensures Valid(Submitted(s, question))
  {
  }

  /**
   * Finishing a request changes entry `slot` only, to the bot's text; the
   * length, every other entry and the whole feedback map stay as they were.
   */
  lemma ResolveOnlySlot(s: Session, slot: nat, o: Outcome)
    requires slot < |s.messages|
    ensures var r := Resolved(s, slot, o);
      && |r.messages| == |s.messages|
      && r.messages[slot] == Message(false, ResponseText(o))
      && (forall k :: 0 <= k < |s.messages| && k != slot ==> r.messages[k] == s.messages[k])
      && r.feedback == s.feedback
  {
  }

  lemma ResolveKeepsValid(s: Session, slot: nat, o: Outcome)
    requires Valid(s) && slot < |s.messages| && !s.messages[slot].isFromUser
    ensures Valid(Resolved(s, slot, o))
  {
  }

  /** Two requests for different slots may finish in either order with the same result. */
  lemma ResolveCommutes(s: Session, i: nat, a: Outcome, j: nat, b: Outcome)
    requires i < |s.messages| && j < |s.messages| && i != j
    ensures Resolved(Resolved(s, i, a), j, b) == Resolved(Resolved(s, j, b), i, a)
  {
  }

  /**
   * A request that finishes after a later question was submitted lands in
   * the same slot, with the same result, as if it had finished before.
   */
  lemma ResolveCommutesWithSubmit(s: Session, slot: nat, o: Outcome, question: string)
    requires slot < |s.messages|
    ensures Resolved(Submitted(s, question), slot, o) == Submitted(Resolved(s, slot, o), question)
  {
  }

  /**
   * Attaching a file to a transcript of length n appends exactly two entries,
   * user then bot, leaves entries before n and the feedback map unchanged,
   * and keeps the invariant.
   */
  lemma AttachAccounting(s: Session, f: PickedFile)
    ensures var r, n := Attached(s, f), |s.messages|;
      && |r.messages| == n + 2
      && r.messages[..n] == s.messages
      && r.messages[n].isFromUser && r.messages[n + 1] == Message(false, FileReceived)
      && (IsImageMessage(r.messages[n].text) <==> IsImageFileName(FileName(f)))
      && r.feedback == s.feedback
    ensures Valid(s) ==> Valid(Attached(s, f))
  {
    var r, n := Attached(s, f), |s.messages|;
    AttachmentRendering(f);
    assert r.messages[n] == AttachmentMessages(f)[0];
    if Valid(s) {
      forall k | 0 <= k < |r.messages|
        ensures r.messages[k].isFromUser <==> k % 2 == 0
      {
        if k < n { assert r.messages[k] == s.messages[k]; }
      }
    }
  }

  /**
   * A like or dislike sets the opinion of that entry and of no other, and
   * leaves the transcript alone; on a ratable entry it keeps the invariant.
   */
  lemma RateOnlyKey(s: Session, index: nat, liked: bool)
    ensures var r := Rated(s, index, liked);
      && FeedbackAt(r, index) == Some(liked)
      && (forall k :: k != index ==> FeedbackAt(r, k) == FeedbackAt(s, k))
      && r.messages == s.messages
    ensures Valid(s) && CanRate(s, index) ==> Valid(Rated(s, index, liked))
  {
  }

  /** The last like or dislike of an entry wins; earlier ones leave no trace. */
  lemma RateLastWins(s: Session, index: nat, first: bool, second: bool)
    ensures Rated(Rated(s, index, first), index, second) == Rated(s, index, second)
  {
  }

  // ---------------------------------------------------------------------------
  // Runs of operations

  /**
   * The screen's operations as events. `Resolve` is the end of the request
   * that captured `slot`; `Rate` is a tap on like (`liked`) or dislike.
   */
  datatype Event =
    | Submit(question: string)
    | Resolve(slot: nat, outcome: Outcome)
    | Attach(file: PickedFile)
    | Rate(index: nat, liked: bool)

  /**
   * When an event can happen: a request only ever overwrites a bot entry
   * that exists (its own placeholder), and only bot entries that are not
   * images show the rating controls.
   */
  predicate Enabled(s: Session, e: Event) {
    match e
    case Resolve(slot, _) => slot < |s.messages| && !s.messages[slot].isFromUser
    case Rate(index, _) => CanRate(s, index)
    case _ => true
  }

  function Step(s: Session, e: Event): Session
    requires Enabled(s, e)
  {
    match e
    case Submit(q) => Submitted(s, q)
    case Resolve(slot, o) => Resolved(s, slot, o)
    case Attach(f) => Attached(s, f)
    case Rate(index, liked) => Rated(s, index, liked)
  }

  /** Every event of the run is enabled in the state it happens in. */
  predicate Admissible(s: Session, events: seq<Event>)
    decreases |events|
  {
    events == [] || (Enabled(s, events[0]) && Admissible(Step(s, events[0]), events[1..]))
  }

  function Run(s: Session, events: seq<Event>): Session
    requires Admissible(s, events)
    decreases |events|
  {
    if events == [] then s else Run(Step(s, events[0]), events[1..])
  }

  lemma StepKeepsValid(s: Session, e: Event)
    requires Valid(s) && Enabled(s, e)
    ensures Valid(Step(s, e))
  {
  }

  /** From the empty transcript, or any valid state, every run keeps the invariant. */
  lemma {:induction false} RunKeepsValid(s: Session, events: seq<Event>)
    requires Valid(s) && Admissible(s, events)
    ensures Valid(Run(s, events))
    decreases |events|
  {
    if events != [] {
      StepKeepsValid(s, events[0]);
      RunKeepsValid(Step(s, events[0]), events[1..]);
    }
  }

  /**
   * Nothing is ever removed: a run never shortens the transcript, never
   * rewrites a user entry and never drops a feedback key.
   */
  lemma {:induction false} RunKeepsHistory(s: Session, events: seq<Event>)
    requires Admissible(s, events)
    ensures |Run(s, events).messages| >= |s.messages|
    ensures forall k :: 0 <= k < |s.messages| && s.messages[k].isFromUser ==>
              Run(s, events).messages[k] == s.messages[k]
    ensures forall k :: k in s.feedback ==> k in Run(s, events).feedback
    decreases |events|
  {
    if events != [] {
      var t := Step(s, events[0]);
      assert |t.messages| >= |s.messages|;
      assert forall k :: 0 <= k < |s.messages| && s.messages[k].isFromUser ==>
               t.messages[k] == s.messages[k];
      RunKeepsHistory(t, events[1..]);
    }
  }

  /** Whether some event of the run finishes the request that captured `slot`. */
  predicate ResolvesSlot(events: seq<Event>, slot: nat) {
    exists k :: 0 <= k < |events| && events[k].Resolve? && events[k].slot == slot
  }

  /** A bot entry that no event of the run resolves keeps its text: an unanswered question stays pending. */
  lemma {:induction false} RunKeepsUnresolved(s: Session, events: seq<Event>, slot: nat)
    requires Admissible(s, events)
    requires slot < |s.messages| && !ResolvesSlot(events, slot)
    ensures slot < |Run(s, events).messages|
    ensures Run(s, events).messages[slot] == s.messages[slot]
    decreases |events|
  {
    if events != [] {
      var t := Step(s, events[0]);
      assert !(events[0].Resolve? && events[0].slot == slot);
      assert t.messages[slot] == s.messages[slot];
      assert !ResolvesSlot(events[1..], slot) by {
        forall k | 0 <= k < |events[1..]|
          ensures !(events[1..][k].Resolve? && events[1..][k].slot == slot)
        {
          assert events[1..][k] == events[k + 1];
        }
      }
      RunKeepsUnresolved(t, events[1..], slot);
    }
  }

  /**
   * Index correlation: whatever happens after a question is submitted, the
   * entry just before its captured slot is still that question, and the
   * slot is still a bot entry, so the answer lands right after the question
   * it belongs to, however requests interleave.
   */
  lemma AnswerLandsAfterItsQuestion(s: Session, question: string, events: seq<Event>)
    requires Valid(s)
    requires Admissible(Submitted(s, question), events)
    ensures var slot, r := PlaceholderSlot(s), Run(Submitted(s, question), events);
      && slot < |r.messages|
      && r.messages[slot - 1] == Message(true, question)
      && !r.messages[slot].isFromUser
      && slot in r.feedback
  {
    var t := Submitted(s, question);
    SubmitAccounting(s, question);
    SubmitKeepsValid(s, question);
    RunKeepsHistory(t, events);
    RunKeepsValid(t, events);
  }

  /**
   * A short session worked through: a question and its
   * placeholder, the answer "Hi!" in place, no opinion until a like.
   */
  lemma HelloScenario()
    ensures var hi := Completed(200, Some("{\"answer\":\"Hi!\"}"), JsonObject(Some("Hi!")));
      var s1 := Submitted(Empty, "Hello");
      var s2 := Resolved(s1, 1, hi);
      var s3 := Rated(s2, 1, true);
      && s1.messages == [Message(true, "Hello"), Placeholder]
      && s2.messages == [Message(true, "Hello"), Message(false, "Hi!")]
      && FeedbackAt(s2, 1) == None
      && FeedbackAt(s3, 1) == Some(true)
  {
  }
}
