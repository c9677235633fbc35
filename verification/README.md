# Chat reducer model

A Dafny model of the state logic of a single-page chat application that
streams replies from a hosted text-generation service. Only the logic is
modelled; rendering, browser storage and the remote service are not.

- `types.dfy` (module `Types`): the `Message`, `Role` and `ChatState` records.
- `text.dfy` (module `Text`): JavaScript's `String.prototype.trim` (ECMAScript
  whitespace and line terminators), `startsWith`, and `Concat`, the text that
  repeated `+=` accumulates. `Trim` is proved equal to a reference definition
  (`IsTrimOf`): the unique slice with whitespace-only surroundings and no
  whitespace at either end.
- `ids.dfy` (module `Ids`): message ids are `Date.now().toString()`, that is a
  millisecond count written in decimal. `Decimal` is proved injective through a
  read-back round trip.
- `app.dfy` (module `App`): the application component. The initial list comes
  from saved history or falls back to the welcome message. `Send` is one
  exchange: append the user message, raise `isTyping`, clear `error`, append
  an empty model placeholder, then overwrite the placeholder's text with the
  growing accumulation after each chunk. On failure the placeholder gets the
  apology text and the error banner gets the connection message. Finally
  `isTyping` is lowered. `ClearChat` resets the list to one message with id
  `welcome`.
- `chat_input.dfy` (module `ChatInput`): the input box's submit guard, the
  Enter/Shift+Enter rule and the send button's enabled state.
- `chat_message.dfy` (module `ChatMessage`): a message view's editor (save,
  cancel), which action button each role gets, and the image test for
  attachments.

Modelling choices:
- The generation service's answer is a `Stream`: the chunks that arrived, in
  order, and whether the stream then threw.
- The clock is a parameter. `Clock` holds the four readings one send takes:
  the user id, the user date, the placeholder id before adding one, and the
  placeholder date.
- Ids are strings and may collide. The statement that only the placeholder
  changes is made under the explicit precondition that the placeholder id is
  not yet in the list. `PlaceholderFresh`, `SendKeepsIdsNoLaterThan` and
  `NextPlaceholderFresh` show when that holds: every id in the list was
  minted no later than the clock reading taken for the placeholder.
- The saved history is parsed by a function parameter `parse`. It returns
  `None` when `JSON.parse` throws, when it yields no list, and when the list
  holds `null` or `undefined` (reading `m.timestamp` then throws at
  App.tsx:20 and App.tsx:22 catches it). Stored dates are revived
  by the parameter `toDate`, which stands for `new Date(...)`.
- Asynchronous updates are applied in the order the code issues them.

Behaviour of the code worth noting:
- On a stream failure the placeholder stays in the list (App.tsx:95-101).
  Its text, including any partial response, is replaced by a fixed apology.
- The error banner always shows one fixed connection message. Failures are
  not sorted into categories.
- There is a single message list. There are no threads, no modes and no
  settings.
- Editing emits the new text through a callback. The list is not truncated
  and nothing is regenerated.

## Model

| member | source | states |
|---|---|---|
| Text.Trim | components/ChatInput.tsx:24 | the result is a slice of the input whose cut-off ends are whitespace only and which has no whitespace at either end |
| Text.TrimUnique | components/ChatInput.tsx:24-25 | any string meeting that definition equals `Trim` of the input, so trimming is fully characterised |
| Text.TrimIdempotent | components/ChatInput.tsx:25 | trimming an already trimmed text changes nothing |
| Text.TrimOfTrimmed | services/ChatMessage.tsx:65 | a text with no whitespace at either end is its own trim |
| Text.TrimEmptyIff | components/ChatInput.tsx:24 | the trimmed input is empty exactly when the input is all whitespace |
| Text.ConcatAppend | App.tsx:84-88 | accumulating two runs of chunks gives the first run's text followed by the second's |
| Text.ConcatPrefix | App.tsx:84-88 | the accumulation after k chunks is a prefix of the accumulation after all chunks |
| Ids.DecimalRoundTrip | App.tsx:63 | reading back the decimal rendering of a clock value gives that value |
| Ids.DecimalInjective | App.tsx:73 | two clock values give the same id exactly when they are equal |
| App.ExchangeIdsDistinct | App.tsx:62-73 | if the clock does not run backwards, the user message and the placeholder of one send get different ids |
| App.Restore | App.tsx:18-21 | revived history has the stored messages in order, with the same id, role and text; only the date is converted |
| App.InitialMessages | App.tsx:12-34 | no saved history, an empty stored string, or one that does not parse yields only the welcome message; otherwise the parsed messages in order with dates revived, so a stored `[]` gives an empty list |
| App.InitialState | App.tsx:12-38 | the component starts not typing, with no error and no chat session |
| App.Mount | App.tsx:42-44 | the mount effect creates the chat session and leaves the chat state unchanged |
| App.SetText | App.tsx:89-93 | a chunk update keeps length and order, gives every message with the placeholder id the new text, and leaves every other message unchanged |
| App.Consume | App.tsx:84-94 | streaming keeps length, order and every id, role and date, and leaves messages with other ids unchanged |
| App.BeginSend | App.tsx:62-81 | after the two pre-stream updates the list is the previous list, then the user message with the given text, then an empty model placeholder; typing is on and the error cleared |
| App.FailExchange | App.tsx:95-101 | on failure the error is the connection message, the list keeps its length, the placeholder keeps its id, role and date and gets the apology text, and other messages are unchanged |
| App.Send | App.tsx:59-105 | without a session nothing changes; otherwise typing ends false, the error matches the outcome, two messages are added, older messages with other ids are unchanged, the user message follows them when the clock does not run backwards, and the placeholder ends with the whole response or the apology |
| App.ClearChat | App.tsx:107-119 | clearing leaves exactly one model message with id `welcome`, keeps the typing flag and error, and re-creates the session |
| App.SubmitFromInput | App.tsx:177 | while typing, the input box sends nothing and keeps its text; otherwise a whitespace-only input leaves the app unchanged and any other input performs a send of the trimmed text; the box ends as the submit guard leaves it |
| App.RecordedUserTextIsTrimmed | App.tsx:177 | a message sent through the input box is recorded trimmed and non-empty, followed by the placeholder |
| App.SetTextTwice | App.tsx:87-93 | a later overwrite of the placeholder hides an earlier one |
| App.SetTextAbsent | App.tsx:89-93 | overwriting an id the list does not hold leaves the list unchanged |
| App.StreamEndsWithAccumulation | App.tsx:84-94 | after all chunks the placeholder holds their concatenation in arrival order; with no chunk it is untouched |
| App.StreamProgress | App.tsx:84-94 | after chunks 1..k the placeholder holds their concatenation, and that text is a prefix of the final response |
| App.FailureDiscardsPartial | App.tsx:95-101 | a failure after any number of chunks gives the same state as a failure before the first chunk |
| App.SendShape | App.tsx:59-105 | with a fresh placeholder id, a send appends exactly the user message and the placeholder, which ends with the response or the apology |
| App.SendCompleted | App.tsx:59-105 | a completed send appends the user message and the full response, with typing off and no error |
| App.SendFailed | App.tsx:95-104 | a failed send keeps the user message and the placeholder with the apology, with typing off and the connection error shown |
| App.StreamAfterClear | App.tsx:107-119 | chunk or failure updates that arrive after a clear leave the reset list unchanged |
| App.PlaceholderFresh | App.tsx:73 | if every id was minted no later than the placeholder's clock reading, the placeholder id is not yet in the list |
| App.SendKeepsIdsNoLaterThan | App.tsx:62-81 | a send keeps every id at or before the placeholder's clock value |
| App.NextPlaceholderFresh | App.tsx:73 | after a send, the next send's placeholder id is not in the list once the clock has advanced past the previous placeholder reading |
| App.ClearChatIdsNoLaterThan | App.tsx:107-116 | the reset list meets the freshness invariant for every clock value |
| App.IdsNoLaterThanMono | App.tsx:73 | the freshness invariant for a clock value also holds for every later value, so sends can be chained |
| App.InitialWelcomeIdsNoLaterThan | App.tsx:26-33 | a start from the welcome message meets the freshness invariant for every clock value |
| ChatInput.Submit | components/ChatInput.tsx:22-28 | a send happens exactly when the input is not all whitespace and the box is not disabled; it sends the trimmed input and empties the box, and otherwise the box is unchanged |
| ChatInput.KeyDown | components/ChatInput.tsx:30-35 | Enter without Shift suppresses the newline and submits; Shift+Enter and other keys do neither |
| ChatInput.SendEnabled | components/ChatInput.tsx:55 | the button is enabled exactly when the box is not disabled and its text is not all whitespace |
| ChatInput.EnabledButtonSends | components/ChatInput.tsx:55 | the button is enabled exactly when a submit would send |
| ChatInput.SentTextIsTrimmed | components/ChatInput.tsx:24-25 | the sent text is non-empty and has no whitespace at either end |
| ChatInput.NoDoubleSubmit | components/ChatInput.tsx:24-26 | a submit straight after a send sends nothing, because the box was emptied |
| ChatMessage.Mount | services/ChatMessage.tsx:52-53 | a new message view is not editing and its buffer holds the message text |
| ChatMessage.StartEdit | services/ChatMessage.tsx:146 | the pencil button opens the editor and keeps the buffer as last typed, not the message text |
| ChatMessage.Type | services/ChatMessage.tsx:114 | typing replaces the buffer and leaves the editor's open state as it was |
| ChatMessage.Save | services/ChatMessage.tsx:64-69 | save emits an edit exactly when a callback exists and the trimmed buffer differs from the message text; it emits the trimmed buffer and always closes the editor |
| ChatMessage.Cancel | services/ChatMessage.tsx:119 | cancel closes the editor and resets the buffer to the message text |
| ChatMessage.Actions | services/ChatMessage.tsx:139-150 | edit is offered only for user messages and copy only for other messages, and neither while editing |
| ChatMessage.IsImage | services/ChatMessage.tsx:75 | an attachment is an image exactly when its MIME type starts with `image/`; no attachment is not an image |
| ChatMessage.SaveUnchangedIsSilent | services/ChatMessage.tsx:64-66 | for a trimmed message text, saving the text with only whitespace added around it emits nothing |
| ChatMessage.SaveUntouchedUntrimmed | services/ChatMessage.tsx:64-66 | for a text with whitespace at an end, saving it untouched still emits the trimmed text |
| ChatMessage.EditSession | services/ChatMessage.tsx:64-69 | opening the editor, typing a text and saving emits the trimmed text exactly when a callback exists and it differs from the message text; reopening then shows the text as typed |
| ChatMessage.CancelThenSaveIsSilent | services/ChatMessage.tsx:119 | reopening after a cancel and saving emits nothing for a trimmed text |

## Left out

- The generation service wrapper (`services/gemini.ts`) and its SDK are not part of this model. Their output is the abstract `Stream`.
- A chunk whose text is undefined is not modelled. Chunks are strings, and JavaScript would append the word `undefined` for such a chunk.
- Local storage, `JSON.parse`, `JSON.stringify` and `Date` are browser library calls. Parsing and date revival are function parameters. The effect that writes the list back after every change is not modelled.
- Extra fields that the object spread copies from stored records are ignored, and stored roles are taken to be valid.
- Stored entries that are primitives or lack an id, role or text are not modelled. For `[1]` or `[{}]` the code builds records with undefined fields and throws nothing, and `parse` can represent neither that nor a fallback faithfully.
- The `console.error` logging of a failed parse is output only and is not modelled.
- JavaScript strings are UTF-16. A lone surrogate cannot be held in a Dafny `char`, so such strings are not modelled.
- Asynchronous scheduling and React's batching are not modelled. Updaters are applied in the order the code issues them.
- Scrolling, textarea auto-resize, focus, clipboard copy, the code-block copy button with its timer, Markdown rendering, avatars and the time label are rendering only.
- `components/ChatMessage.tsx` and `components/Sidebar.tsx` are pure rendering and are not part of this model.
- The application has no threads, modes, settings, edit-and-truncate or error categories, and does not remove the placeholder on failure, so none of these is modelled.
- A clock set before 1970 is not modelled. Clock readings are `nat`, so a negative `Date.now()`, which `toString` renders with a leading `-`, cannot occur in the model.
- App.Send: states that older messages are unchanged only for ids other than the placeholder's. Without a fresh id the code also overwrites older messages that share it, and `SendShape` needs the fresh id. The user message is stated only for a clock that does not run backwards; otherwise its id may equal the placeholder's and later updates overwrite it.
