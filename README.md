# Chat transcript controller of the ChildEducation chatbot screen

This project models the one piece of the ChildEducation Android client with
state worth verifying: the transcript controller of the chat screen
(`ChatbotScreen.kt`). The screen keeps two structures:

- an ordered list of messages, each a pair (is it from the user, text);
- a feedback map from a message's index to like (`true`), dislike (`false`)
  or no opinion (`null`).

The screen's handlers change these in place:

- submitting a question appends the question and a `"Typing..."` placeholder,
  and gives the placeholder's index a null opinion;
- when that question's HTTP request finishes, its text overwrites the one
  slot captured at submission;
- the send button refuses blank input and clears the field;
- the file picker appends an announcement and an acknowledgement;
- like and dislike overwrite one feedback key.

Beside these sit pure decisions: the file-name test that tells images from
other files, the `image://` encoding of image messages, the text a finished
request leaves behind, and which texts may be read aloud.

Files:

- `wrappers.dfy`: `Option`, for Kotlin's nullable values.
- `chat_text.dfy`: the Kotlin string operations used, stated exactly:
  `isBlank`, `startsWith`, `removePrefix`, `endsWith(…, ignoreCase = true)`,
  `any`, and the decimal rendering of a status code.
- `chat_messages.dfy`: messages, their constants, the image encoding, the
  attachment entries, the text of a finished request and the speech filter.
- `transcript.dfy`: the screen's state as a value (`Session`), one function per
  operation, the invariant they keep, and runs of operations with lemmas
  proved by induction over the run.
- `chat_controller.dfy`: the class `ChatController`, whose fields are the text
  field, the transcript and the feedback map. Each handler is a method proved
  against the matching function of `Transcript`.

The network call is an input. `Outcome` is either a response that arrived
(status code, body text, and the body's `answer` entry when it is a string)
or a thrown exception with its possibly-null message. A submission is split
into `Submit`, which returns the captured slot, and `Resolve(slot, outcome)`.
The slot is captured before the request is awaited, so concurrent requests
become any interleaving of these sequential steps.

In the run lemmas, a `Resolve` event may hit any existing bot entry. The
screen only ever resolves its own placeholder, once, so these runs include
every real behaviour and more. What holds for all of them holds for the
screen. The class is stricter: `Resolve` needs a slot that `Submit` handed
out and that has not been resolved yet, tracked by the ghost set `pending`.

Three behaviours of the code a reader might not expect:

- An image is recognised by a plain case-insensitive suffix (`"scrapbookpng"`
  counts), not by an extension after a dot.
- Blank input is refused on the typed path and for the screen's initial voice
  input. The speech-recogniser result (`android/ChildEducation/app/src/main/java/com/example/childeducation/ui/screens/ChatbotScreen.kt:170-183`) is submitted with no
  blank check.
- A like given to a `"Typing..."` placeholder stays on that index once the
  answer replaces the placeholder.

## Model

| member | source | states |
|---|---|---|
| `ChatText.RemovePrefix` | android/ChildEducation/app/src/main/java/com/example/childeducation/ui/screens/ChatbotScreen.kt:316 | removing a prefix that is present leaves the rest, which rebuilds the text; otherwise the text is unchanged |
| `ChatText.EndsWithAnyIgnoringCase` | android/ChildEducation/app/src/main/java/com/example/childeducation/ui/screens/ChatbotScreen.kt:196 | `any { endsWith(ext, ignoreCase = true) }` holds exactly when some listed suffix matches at the end, up to the JVM's case folding |
| `ChatText.Decimal` | android/ChildEducation/app/src/main/java/com/example/childeducation/ui/screens/ChatbotScreen.kt:525 | the status code's rendering is a non-empty string of digits with no leading zero |
| `ChatText.DecimalRoundTrip` | android/ChildEducation/app/src/main/java/com/example/childeducation/ui/screens/ChatbotScreen.kt:525 | reading the rendered status code back gives the code |
| `ChatMessages.ImageUri` | android/ChildEducation/app/src/main/java/com/example/childeducation/ui/screens/ChatbotScreen.kt:315-316 | a message yields an image URI exactly when its text starts with `image://` |
| `ChatMessages.ImageUriOfImageRef` | android/ChildEducation/app/src/main/java/com/example/childeducation/ui/screens/ChatbotScreen.kt:199 | decoding `"image://" + uri` gives back `uri` |
| `ChatMessages.ImageRefOfImageUri` | android/ChildEducation/app/src/main/java/com/example/childeducation/ui/screens/ChatbotScreen.kt:315-316 | every text drawn as an image is `"image://"` followed by the URI it is drawn from |
| `ChatMessages.AttachmentRendering` | android/ChildEducation/app/src/main/java/com/example/childeducation/ui/screens/ChatbotScreen.kt:196-203 | an attachment gives a user entry and then a bot acknowledgement; the user entry is drawn as an image of the picked URI exactly when the name is an image name, and otherwise reads "📎 You uploaded: " and the name |
| `ChatMessages.ImageFileNamesAccepted` | android/ChildEducation/app/src/main/java/com/example/childeducation/ui/screens/ChatbotScreen.kt:196 | mixed-case names, names without a dot, and names whose extension spells i as dotted İ or dotless ı count as images |
| `ChatMessages.ImageFileNamesRefused` | android/ChildEducation/app/src/main/java/com/example/childeducation/ui/screens/ChatbotScreen.kt:196 | other endings, including the "Unknown File" fallback, are generic files |
| `ChatMessages.NotImageFileName` | android/ChildEducation/app/src/main/java/com/example/childeducation/ui/screens/ChatbotScreen.kt:196 | a name whose last character cannot end any image extension is not an image name |
| `ChatMessages.ResponseText` | android/ChildEducation/app/src/main/java/com/example/childeducation/ui/screens/ChatbotScreen.kt:521-534 | a 2xx response whose body is an object with a string `answer` leaves that string; a 2xx body that is an object without one leaves exactly "Error: No 'answer' field in response"; a 2xx body read as null (absent, empty, blank or `null`), a non-2xx response or an exception leaves a text that starts with "Error: Could not get a response. Please try again. (" and ends with ")"; only a real answer leaves a text not starting with "Error:" |
| `ChatMessages.HttpErrorShowsStatus` | android/ChildEducation/app/src/main/java/com/example/childeducation/ui/screens/ChatbotScreen.kt:523-534 | a non-2xx response leaves its status code in decimal in the transcript |
| `ChatMessages.SpeakMessage` | android/ChildEducation/app/src/main/java/com/example/childeducation/ui/screens/ChatbotScreen.kt:127-143 | speech happens, of that very text, exactly when the engine is ready and the text is not blank, is not "Typing...", and starts with none of "Error:", "📎", "✅"; a not-ready engine is reported |
| `ChatMessages.StatusMessagesAreNotSpoken` | android/ChildEducation/app/src/main/java/com/example/childeducation/ui/screens/ChatbotScreen.kt:129 | the placeholder, every error left by a failed or answerless request, upload announcements and acknowledgements are never read aloud |
| `ChatMessages.AnswerSpokenAsItself` | android/ChildEducation/app/src/main/java/com/example/childeducation/ui/screens/ChatbotScreen.kt:129 | an answer is read aloud exactly when its own text passes the filter |
| `Transcript.SubmitAccounting` | android/ChildEducation/app/src/main/java/com/example/childeducation/ui/screens/ChatbotScreen.kt:505-508 | submitting to length n gives length n+2, entry n the question, entry n+1 the placeholder; the captured index is n+1 and holds a null opinion; earlier entries and other opinions are unchanged; on a valid state the key is new |
| `Transcript.SubmitKeepsValid` | android/ChildEducation/app/src/main/java/com/example/childeducation/ui/screens/ChatbotScreen.kt:505-508 | submitting keeps entries in (user, bot) pairs and every opinion on a bot entry |
| `Transcript.ResolveOnlySlot` | android/ChildEducation/app/src/main/java/com/example/childeducation/ui/screens/ChatbotScreen.kt:532-534 | a finished request sets only its slot, to a bot entry with the response text; length, other entries and the feedback map are unchanged |
| `Transcript.ResolveKeepsValid` | android/ChildEducation/app/src/main/java/com/example/childeducation/ui/screens/ChatbotScreen.kt:532-534 | overwriting a bot slot keeps the invariant |
| `Transcript.ResolveCommutes` | android/ChildEducation/app/src/main/java/com/example/childeducation/ui/screens/ChatbotScreen.kt:532-534 | two requests for different slots finishing in either order give the same state |
| `Transcript.ResolveCommutesWithSubmit` | android/ChildEducation/app/src/main/java/com/example/childeducation/ui/screens/ChatbotScreen.kt:505-534 | a request that finishes after a later submission gives the same state as if it had finished before |
| `Transcript.AttachAccounting` | android/ChildEducation/app/src/main/java/com/example/childeducation/ui/screens/ChatbotScreen.kt:196-203 | attaching appends exactly two entries, user then acknowledgement, adds no feedback key, changes no earlier entry and keeps the invariant |
| `Transcript.RateOnlyKey` | android/ChildEducation/app/src/main/java/com/example/childeducation/ui/screens/ChatbotScreen.kt:257-258 | like or dislike sets that entry's opinion to true or false, changes no other key and leaves the transcript unchanged; on a ratable entry it keeps the invariant |
| `Transcript.RateLastWins` | android/ChildEducation/app/src/main/java/com/example/childeducation/ui/screens/ChatbotScreen.kt:257-258 | the last like or dislike of an entry wins |
| `Transcript.StepKeepsValid` | android/ChildEducation/app/src/main/java/com/example/childeducation/ui/screens/ChatbotScreen.kt:71-72 | every enabled operation keeps the invariant |
| `Transcript.RunKeepsValid` | android/ChildEducation/app/src/main/java/com/example/childeducation/ui/screens/ChatbotScreen.kt:71-72 | every run of enabled operations from a valid state keeps the invariant |
| `Transcript.RunKeepsHistory` | android/ChildEducation/app/src/main/java/com/example/childeducation/ui/screens/ChatbotScreen.kt:71-72 | no run shortens the transcript, rewrites a user entry or drops a feedback key |
| `Transcript.RunKeepsUnresolved` | android/ChildEducation/app/src/main/java/com/example/childeducation/ui/screens/ChatbotScreen.kt:506-534 | a slot that no event of the run resolves keeps its entry, so an unanswered placeholder stays pending |
| `Transcript.AnswerLandsAfterItsQuestion` | android/ChildEducation/app/src/main/java/com/example/childeducation/ui/screens/ChatbotScreen.kt:505-534 | after any later run, the entry before a submission's captured slot is still its question and the slot is still a bot entry with a feedback key |
| `Transcript.HelloScenario` | android/ChildEducation/app/src/main/java/com/example/childeducation/ui/screens/ChatbotScreen.kt:505-534 | submitting "Hello" and receiving "Hi!" gives [(user, "Hello"), (bot, "Hi!")], with no opinion on entry 1 until a like sets it to true |
| `ChatScreen.ChatController.constructor` | android/ChildEducation/app/src/main/java/com/example/childeducation/ui/screens/ChatbotScreen.kt:70-72 | the screen starts with an empty field, an empty transcript and no feedback |
| `ChatScreen.ChatController.EditInput` | android/ChildEducation/app/src/main/java/com/example/childeducation/ui/screens/ChatbotScreen.kt:269 | typing replaces the field's text |
| `ChatScreen.ChatController.Submit` | android/ChildEducation/app/src/main/java/com/example/childeducation/ui/screens/ChatbotScreen.kt:505-508 | the transcript and feedback map become `Submitted` of the old ones; the returned slot is the placeholder's index, new among pending slots |
| `ChatScreen.ChatController.Resolve` | android/ChildEducation/app/src/main/java/com/example/childeducation/ui/screens/ChatbotScreen.kt:521-534 | the state becomes `Resolved` of the old one at the captured slot, which stops being pending |
| `ChatScreen.ChatController.Send` | android/ChildEducation/app/src/main/java/com/example/childeducation/ui/screens/ChatbotScreen.kt:270-288 | blank input changes nothing and stays in the field; otherwise the exact text is submitted and the field becomes "" |
| `ChatScreen.ChatController.StartWithVoiceInput` | android/ChildEducation/app/src/main/java/com/example/childeducation/ui/screens/ChatbotScreen.kt:151-164 | the initial voice input is submitted exactly when it is present and not blank, and its slot becomes pending |
| `ChatScreen.ChatController.OnVoiceResult` | android/ChildEducation/app/src/main/java/com/example/childeducation/ui/screens/ChatbotScreen.kt:168-185 | a successful recognition with a first result submits that result and its slot becomes pending; otherwise nothing changes |
| `ChatScreen.ChatController.OnFilePicked` | android/ChildEducation/app/src/main/java/com/example/childeducation/ui/screens/ChatbotScreen.kt:193-203 | a picked file gives `Attached` of the old state; a cancelled pick changes nothing |
| `ChatScreen.ChatController.Rate` | android/ChildEducation/app/src/main/java/com/example/childeducation/ui/screens/ChatbotScreen.kt:257-258 | like or dislike on a drawn control gives `Rated` of the old state and keeps the invariant |

## Left out

- The HTTP request itself is not modelled: building the request, OkHttp, its timeouts, Gson and the hop to the I/O dispatcher (`android/ChildEducation/app/src/main/java/com/example/childeducation/ui/screens/ChatbotScreen.kt:76-84`, `android/ChildEducation/app/src/main/java/com/example/childeducation/ui/screens/ChatbotScreen.kt:513-531`). Its result is the `Outcome` input. What Gson reads a body as is part of that input: null, or an object with or without a string `answer`. A body that Gson cannot parse is an exception.
- Scrolling, the `delay(100)` pauses, toasts and logging are UI side effects that do not touch the state.
- The speech engine is not modelled: creating it, choosing its language and disposing of it (`android/ChildEducation/app/src/main/java/com/example/childeducation/ui/screens/ChatbotScreen.kt:91-124`). Its state is the `ttsReady` flag of `SpeakMessage`. `stopSpeaking` (`android/ChildEducation/app/src/main/java/com/example/childeducation/ui/screens/ChatbotScreen.kt:110-115`) only forwards a stop call to the engine.
- The per-bubble speak/stop toggle (`android/ChildEducation/app/src/main/java/com/example/childeducation/ui/screens/ChatbotScreen.kt:385-397`) is UI-local state.
- `getFileNameFromUri` queries the content provider. The model takes the provider's display name as an input and keeps only its fallback, "Unknown File".
- `Uri.parse` in `ChatBubble` is not modelled. The decoded URI is the text after `image://`.
- Concurrency between the coroutines launched per send is left to the sequential `Submit`/`Resolve` steps. `Send` clears the field and submits in one step. In the code, the append happens when the launched coroutine first runs.
- Kotlin strings are UTF-16. The model uses Unicode scalar values, so "📎" (a surrogate pair in the code) is one character; prefix tests agree on well-formed text. U+180E, a space separator only in old Unicode versions, is not whitespace here.
- `ChatText.Decimal` renders non-negative status codes only. OkHttp's codes are three-digit.
- ChatbotListeningScreen.kt is not part of this model. It holds speech intents, animation, text-to-speech and its own HTTP call.
- The authentication, home, profile, history, language, settings, info and placeholder screens, the Firestore, DataStore and preference wrappers, navigation, `MainActivity`, the build script and the Python backend are not part of this model. They are layout or thin wrappers over platform and vendor libraries.
