/**
 * The messages of the chat transcript and the pure decisions made about
 * them: how an attached file is announced, how an image reference is
 * encoded and decoded, which text a finished request leaves in its slot,
 * and which texts may be read aloud.
 */
module ChatMessages {
  import opened Wrappers
  import opened ChatText

  /** One transcript entry: Kotlin's `Pair<Boolean, String>` (is it the user's, the text). */
  datatype Message = Message(isFromUser: bool, text: string)

  const Typing := "Typing..."
  /** The bot entry that stands in for an answer until its request finishes. */
  const Placeholder := Message(false, Typing)

  const ImageScheme := "image://"
  const ImageExtensions := ["jpg", "jpeg", "png", "gif", "webp"]
  const UploadPrefix := "\U{1F4CE} You uploaded: "
  const FileReceived := "\U{2705} File received! (Handled by backend)"
  /** What `getFileNameFromUri` falls back to when the provider gives no display name. */
  const UnknownFile := "Unknown File"

  const ErrorMarker := "Error:"
  const NoAnswerText := ErrorMarker + " No 'answer' field in response"
  const FailurePrefix := ErrorMarker + " Could not get a response. Please try again. ("

  // ---------------------------------------------------------------------------
  // Image references

  /** The text of a user entry that shows an attached image: `"image://$uri"`. */
  function ImageRef(uri: string): string {
    ImageScheme + uri
  }

  /** `ChatBubble` draws a message as an image exactly when its text starts with the scheme. */
  predicate IsImageMessage(text: string) {
    StartsWith(text, ImageScheme)
  }

  /** The URI `ChatBubble` hands to the image loader, if the message is an image. */
  function ImageUri(text: string): (r: Option<string>)
    ensures r.Some? <==> IsImageMessage(text)
  {
    if IsImageMessage(text) then Some(RemovePrefix(text, ImageScheme)) else None
  }

  /** Decoding an encoded reference gives back the URI. */
  lemma ImageUriOfImageRef(uri: string)
    ensures IsImageMessage(ImageRef(uri))
    ensures ImageUri(ImageRef(uri)) == Some(uri)
  {
  }

  /** Every text drawn as an image is the encoding of the URI it is drawn from. */
  lemma ImageRefOfImageUri(text: string)
    requires IsImageMessage(text)
    ensures ImageRef(ImageUri(text).value) == text
  {
  }

  // ---------------------------------------------------------------------------
  // Attachments

  /** A picked document: its URI and the display name the content provider reports, if any. */
  datatype PickedFile = PickedFile(uri: string, displayName: Option<string>)

  function FileName(f: PickedFile): string {
    f.displayName.GetOr(UnknownFile)
  }

  /** The name ends, ignoring case, with jpg, jpeg, png, gif or webp (no dot needed). */
  predicate IsImageFileName(name: string) {
    assert forall k :: 0 <= k < |ImageExtensions| ==> IsLowerAsciiWord(ImageExtensions[k]);
    EndsWithAnyIgnoringCase(name, ImageExtensions)
  }

  /** The two entries the file picker appends: the user's announcement, then the acknowledgement. */
  function AttachmentMessages(f: PickedFile): seq<Message> {
    var name := FileName(f);
    [ if IsImageFileName(name) then Message(true, ImageRef(f.uri))
      else Message(true, UploadPrefix + name),
      Message(false, FileReceived) ]
  }

  /**
   * The user's attachment entry is drawn as an image exactly when the file
   * name was classified as an image, and then it shows the picked URI;
   * otherwise it names the file. The acknowledgement is a bot text entry.
   */
  lemma AttachmentRendering(f: PickedFile)
    ensures |AttachmentMessages(f)| == 2
    ensures AttachmentMessages(f)[0].isFromUser && !AttachmentMessages(f)[1].isFromUser
    ensures IsImageMessage(AttachmentMessages(f)[0].text) <==> IsImageFileName(FileName(f))
    ensures IsImageFileName(FileName(f)) ==> ImageUri(AttachmentMessages(f)[0].text) == Some(f.uri)
    ensures !IsImageFileName(FileName(f)) ==>
              AttachmentMessages(f)[0].text == UploadPrefix + FileName(f)
    ensures !IsImageMessage(AttachmentMessages(f)[1].text)
  {
    var name := FileName(f);
    if IsImageFileName(name) {
      ImageUriOfImageRef(f.uri);
    } else {
      assert (UploadPrefix + name)[0] != ImageScheme[0];
    }
    assert FileReceived[0] != ImageScheme[0];
  }

  /** The classification is a plain suffix test, case-insensitive and with no dot required. */
  lemma ImageFileNamesAccepted()
    ensures IsImageFileName("photo.PNG")
    ensures IsImageFileName("Holiday.JpEg")
    ensures IsImageFileName("scrapbookpng")
    ensures IsImageFileName("\U{131}con.G\U{130}F")
    ensures IsImageFileName("photo.g\U{131}f")
  {
    assert EndsWithIgnoringCase("photo.PNG", ImageExtensions[2]);
    assert EndsWithIgnoringCase("Holiday.JpEg", ImageExtensions[1]);
    assert EndsWithIgnoringCase("scrapbookpng", ImageExtensions[2]);
    assert EndsWithIgnoringCase("\U{131}con.G\U{130}F", ImageExtensions[3]);
    assert EndsWithIgnoringCase("photo.g\U{131}f", ImageExtensions[3]);
  }

  /** Names that end otherwise are generic attachments, the fallback name included. */
  lemma ImageFileNamesRefused()
    ensures !IsImageFileName("notes.docx")
    ensures !IsImageFileName("png.txt")
    ensures !IsImageFileName(UnknownFile)
  {
    NotImageFileName("notes.docx");
    NotImageFileName("png.txt");
    NotImageFileName(UnknownFile);
  }

  /** A name whose last character is none of g, G, f, F, p, P is not an image name. */
  lemma NotImageFileName(name: string)
    requires |name| > 0 && name[|name| - 1] !in {'g', 'G', 'f', 'F', 'p', 'P'}
    ensures !IsImageFileName(name)
  {
    forall k | 0 <= k < |ImageExtensions|
      ensures !EndsWithIgnoringCase(name, ImageExtensions[k])
    {
      var ext := ImageExtensions[k];
      if |ext| <= |name| {
        assert ext[|ext| - 1] in {'g', 'f', 'p'};
        assert !MatchesIgnoringCase(name[|name| - |ext| + (|ext| - 1)], ext[|ext| - 1]);
      }
    }
  }

  // ---------------------------------------------------------------------------
  // Finishing a request

  /**
   * What the JSON library makes of a successful response's body. An absent,
   * empty or blank body, or the literal `null`, is read as null, and looking
   * up `answer` in it then throws a NullPointerException, whose message is
   * `npeMessage` (possibly null). Any other body is an object whose `answer`
   * entry is `answerField` when that entry is a string. A body the library
   * cannot parse at all throws; that request ends as `Thrown`.
   */
  datatype ParsedBody =
    | NullBody(npeMessage: Option<string>)
    | JsonObject(answerField: Option<string>)

  /**
   * What the request for one question ended with. `Completed` is a response
   * that arrived: its status code, its body as text (absent when there is
   * none) and what the body parses to (looked at only when the code is
   * successful). `Thrown` is any exception on the way, with its message
   * (Kotlin's `localizedMessage`, which may be null).
   */
  datatype Outcome =
    | Completed(code: nat, body: Option<string>, parsed: ParsedBody)
    | Thrown(message: Option<string>)

  /** OkHttp's `Response.isSuccessful`. */
  predicate IsSuccessful(code: nat) {
    200 <= code <= 299
  }

  /** Kotlin's string template of a nullable message. */
  function MessageOrNull(m: Option<string>): string {
    m.GetOr("null")
  }

  /** The message of the IOException thrown for a response that is not successful. */
  function HttpErrorMessage(code: nat, body: Option<string>): string {
    "HTTP error: " + Decimal(code) + ", Body: " + body.GetOr("Unknown error")
  }

  function FailureText(detail: string): string {
    FailurePrefix + detail + ")"
  }

  /** The failure an outcome stands for, if any: `Some(detail)` when the request failed. */
  function FailureDetail(o: Outcome): Option<string> {
    match o
    case Thrown(m) => Some(MessageOrNull(m))
    case Completed(code, body, parsed) =>
      if !IsSuccessful(code) then Some(HttpErrorMessage(code, body))
      else if parsed.NullBody? then Some(MessageOrNull(parsed.npeMessage))
      else None
  }

  /** A successful response whose body is an object with a string `answer` entry. */
  predicate IsAnswer(o: Outcome) {
    o.Completed? && IsSuccessful(o.code) && o.parsed.JsonObject? && o.parsed.answerField.Some?
  }

  /** The text that replaces the placeholder once the request for it has finished. */
  function ResponseText(o: Outcome): (r: string)
    ensures IsAnswer(o) ==> r == o.parsed.answerField.value
    ensures !IsAnswer(o) ==> StartsWith(r, ErrorMarker)
    ensures FailureDetail(o).Some? ==> StartsWith(r, FailurePrefix) && r[|r| - 1] == ')'
    ensures o.Completed? && IsSuccessful(o.code) && o.parsed.NullBody? ==>
              StartsWith(r, FailurePrefix)
    ensures o.Completed? && IsSuccessful(o.code) && o.parsed.JsonObject? && o.parsed.answerField.None? ==>
              r == NoAnswerText
    ensures !IsAnswer(o) && FailureDetail(o).None? ==> r == NoAnswerText
  {
    match FailureDetail(o)
    case Some(detail) =>
      assert FailureText(detail) == ErrorMarker + (FailurePrefix[|ErrorMarker|..] + detail + ")");
      FailureText(detail)
    case None => o.parsed.answerField.GetOr(NoAnswerText)
  }

  /** A response that is not successful leaves its status code, in decimal, in the transcript. */
  lemma HttpErrorShowsStatus(code: nat, body: Option<string>, parsed: ParsedBody)
    requires !IsSuccessful(code)
    ensures StartsWith(ResponseText(Completed(code, body, parsed)),
                       FailurePrefix + "HTTP error: " + Decimal(code) + ", Body: ")
  {
  }

  // ---------------------------------------------------------------------------
  // Reading aloud

  /** What `speakMessage` does with a text. */
  datatype SpeechAction = Speak(text: string) | Skip | NotReady

  /** The texts `speakMessage` passes on to the speech engine. */
  predicate IsSpeakable(text: string) {
    !IsBlank(text) && text != Typing && !StartsWith(text, ErrorMarker) &&
    !StartsWith(text, "\U{1F4CE}") && !StartsWith(text, "\U{2705}")
  }

  /**
   * `speakMessage(text)`: `ttsReady` is "the engine exists and finished
   * initialising". Speaking happens only when it is ready and the text is
   * speakable; when it is not ready the user is told so.
   */
  function SpeakMessage(ttsReady: bool, text: string): (r: SpeechAction)
    ensures r.Speak? <==> ttsReady && IsSpeakable(text)
    ensures r.Speak? ==> r.text == text
    ensures r.NotReady? <==> !ttsReady
  {
    if !ttsReady then NotReady
    else if IsSpeakable(text) then Speak(text)
    else Skip
  }

  /**
   * Status entries are never read aloud: the placeholder, every error left
   * by a failed or answerless request, the upload announcement and the
   * acknowledgement of an attachment.
   */
  lemma StatusMessagesAreNotSpoken(o: Outcome, name: string)
    ensures !IsSpeakable(Typing)
    ensures !IsAnswer(o) ==> !IsSpeakable(ResponseText(o))
    ensures !IsSpeakable(UploadPrefix + name)
    ensures !IsSpeakable(FileReceived)
  {
  }

  /** An answer is read aloud exactly when the same text typed by hand would be. */
  lemma AnswerSpokenAsItself(o: Outcome)
    requires IsAnswer(o)
    ensures IsSpeakable(ResponseText(o)) <==> IsSpeakable(o.parsed.answerField.value)
  {
  }
}
