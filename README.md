# BIDV Content AI — session controller and generation service, in Dafny

BIDV Content AI is a small React page. A user types a communication need
and/or attaches a file, picks a goal, platform, audience and tone, and gets
back marketing copy (title, post, hashtags) from Google Gemini. Each success
is recorded in a history log. The log is kept newest first and mirrored in
the browser's local storage.

This project models the two parts of the page that carry logic:

- `types.dfy` (module `Types`) holds the records of `types.ts`. It also holds
  the runtime values the two parts exchange: `Option`, `Result`, `Thrown`
  (what a JavaScript `throw` carries: an `Error` with its message, or any
  other value), and `UploadedFile` (a picked file together with the outcomes
  of the browser reads the service may perform on it).
- `gemini_service.dfy` (module `GeminiService`) models `generateContent` and
  `fileToBase64`. It covers the attachment dispatch on the MIME type (text is
  inlined under a fixed header, image/PDF becomes a binary part, anything
  else is ignored) and the data-URL split. It also covers the choice between
  a prompt-only and a two-part request, the field-by-field check of the
  parsed reply, and the collapse of every failure inside the `try` into one
  generic error. `PrepareInput` and `GenerateContent` are methods that
  update their locals branch by branch, as the source does. They are proved
  equal to the functions `Prepare` and `Generate`, and the properties are
  proved about those functions.
- `app.dfy` (module `AppSession`) models the `App` component as a class
  whose fields are its React state. Each handler is a method. The storage
  entry is the ghost field `stored`. Every call handed to `generateContent`
  is logged in the ghost field `generationCalls`. `handleSubmit` is split at
  its `await`: `BeginSubmit` validates and starts loading, and
  `CompleteSubmit` records the outcome. `Submit` runs both with nothing in
  between. The pure list and form operations beside the class (`WithoutId`,
  `WithField`, `NewHistoryItem`) specify what the methods do.

External inputs are parameters:

- The Gemini reply (`ApiResponse`).
- The outcome of `generateContent` handed to `Submit`.
- The clock reading and the random id of a new history item.
- The outcomes of `file.text()` and `FileReader.readAsDataURL`.
- What `JSON.parse` made of the stored entry (`StoredHistory`).
- Whether a storage write fails (`writeFails`; on mount, `firstWriteFails`
  and `secondWriteFails` for the two writes).

In these places the model follows the code as written:

- A failed submission does not keep the previous result. The result is
  cleared before the call (App.tsx:91), so `Submit` ends with no result.
- Not every failure is collapsed into the generic message. Reading the
  attachment happens before the `try` (services/geminiService.ts:51-64). So
  a failed `file.text()` or a missing base64 payload reaches the page with
  its own message. A `FileReader` error event is not an `Error`, so the page
  shows 'An unknown error occurred.' (App.tsx:109).
- `handleSubmit` has no guard against a second submission while one is
  loading. `BeginSubmit` does not require `!isLoading`.
- An empty `hashtags` array is accepted (`EmptyHashtagsAccepted`).
- Ids and timestamps are neither unique nor ordered by anything in the code.
- On mount, the persist effect first writes the initial empty list, before
  the loaded list has been set. A parsed list is written again on the next
  render. A corrupt entry is removed and then replaced by that empty list.

## Model

| member | source | states |
|---|---|---|
| Types.DropAfterAddFileName | App.tsx:100-103 | removing `fileName` from a recorded input gives back exactly the form it was built from |
| Types.AddAfterDropFileName | types.ts:15-17 | a `HistoryInput` is its `FormData` fields plus the optional `fileName`, and nothing else |
| GeminiService.SplitOn | services/geminiService.ts:15 | `split(',')` yields at least one field, no field contains the separator, and a string without the separator is its own single field |
| GeminiService.JoinSplit | services/geminiService.ts:15 | joining the split fields with the separator gives back the original string: splitting loses nothing |
| GeminiService.SplitJoin | services/geminiService.ts:15 | splitting separator-free fields joined by the separator gives back those fields |
| GeminiService.DataUrlPayload | services/geminiService.ts:15-20 | a resolved payload is non-empty and comma-free; every rejection is the "Failed to convert file to base64" error; a URL without a comma is rejected |
| GeminiService.FileToBase64 | services/geminiService.ts:10-24 | a resolved payload comes only from a successful read and is non-empty and comma-free; a failed read rejects with the reader's own value (line 22); a loaded data URL settles exactly as its payload field does (`DataUrlPayload`), so it can only reject with the base64 error |
| GeminiService.DataUrlPayloadOfFields | services/geminiService.ts:15-17 | a data URL `header,payload` with a comma-free header and a non-empty payload resolves to that payload, whether or not more `,`-separated fields follow |
| GeminiService.DataUrlPayloadEmpty | services/geminiService.ts:15-20 | a data URL whose second field is empty (`header,` alone or followed by another `,`) is rejected with the base64 error |
| GeminiService.Classify | services/geminiService.ts:52-55 | a MIME type is inlined iff it starts with `text/`; it becomes a binary part iff it is not text and has the `image/` prefix or is exactly `application/pdf`; it is ignored iff it is none of these |
| GeminiService.TextAndImageDisjoint | services/geminiService.ts:52-55 | no MIME type has both the `text/` and the `image/` prefix, so the order of the two tests does not matter |
| GeminiService.Prepare | services/geminiService.ts:48-64 | the context is only ever extended; a binary part carries the file's own MIME type and leaves the context unchanged; only a text file changes the context; failures come only from reading a text, image or PDF file, and a failed `file.text()` or a rejected `fileToBase64` always fails the step with that same error; a successful text read is always inlined under its header and a successful `fileToBase64` always yields a binary part carrying exactly its payload, so no attachment of these types is silently dropped |
| GeminiService.PrepareWithoutFile | services/geminiService.ts:48-51 | with no file, the prompt context is `data.context` and there is no binary part |
| GeminiService.PrepareTextFile | services/geminiService.ts:52-54 | a `text/` file makes the context `data.context + "\n\n[Dữ liệu từ tệp đính kèm " + name + "]:\n" + text`, with no binary part |
| GeminiService.PrepareBinaryFile | services/geminiService.ts:55-62 | an `image/` or `application/pdf` file whose data URL is `header,payload`, followed by nothing or by further `,`-fields, leaves the context unchanged and yields a binary part with `mimeType == file.type` and that `payload` |
| GeminiService.PrepareIgnoredFile | services/geminiService.ts:51-64 | any other MIME type leaves the context unchanged and adds no binary part: the attachment is silently ignored |
| GeminiService.PrepareInput | services/geminiService.ts:47-64 | the in-place updates of `promptContext` and `filePart` compute exactly `Prepare`, including its early rejections |
| GeminiService.BuildPrompt | services/geminiService.ts:69-73 | the prompt's context line is never empty: it is the context when there is one and `Không có` otherwise; the four selections are carried unchanged |
| GeminiService.RequestContents | services/geminiService.ts:89 | the request is two-part iff there is a binary part; the prompt and the binary part can be read back from the request unchanged |
| GeminiService.EmptyContextWithBinaryFile | services/geminiService.ts:55-89 | an image or PDF with an empty context gives a two-part request whose context line is `Không có` |
| GeminiService.StringsOf | services/geminiService.ts:109-110 | `every(h => typeof h === 'string')` holds iff every element is a string, and then the strings are the elements in order |
| GeminiService.CheckShape | services/geminiService.ts:103-115 | the reply is accepted iff `title` and `post` are strings and `hashtags` is an array of strings; an accepted result has exactly the reply's three fields; a rejection is the shape error (or the engine's TypeError for `null`), never a partial result |
| GeminiService.CheckShapeOfToJson | services/geminiService.ts:27-45 | every result in the shape the schema declares passes the check unchanged |
| GeminiService.EmptyHashtagsAccepted | services/geminiService.ts:109-110 | an empty `hashtags` array is accepted |
| GeminiService.NonStringHashtagRejected | services/geminiService.ts:109-114 | one non-string hashtag rejects the whole reply with the shape error |
| GeminiService.Collapsed | services/geminiService.ts:116-119 | the `catch` passes a success through unchanged and turns every error into the single generic error |
| GeminiService.Generate | services/geminiService.ts:47-120 | a result is returned iff the attachment step succeeded and the reply parsed and passed the check, and it is that reply's content; after the attachment step every failure is the generic error; attachment failures keep their own error |
| GeminiService.ShapeMismatchNeverSurfaces | services/geminiService.ts:113-119 | once the attachment step succeeded, the shape-mismatch error never reaches the caller |
| GeminiService.GenerateContent | services/geminiService.ts:47-120 | the method settles with `Generate`'s outcome; the model is called iff the attachment step succeeded, and then with the request `RequestContents` builds |
| AppSession.WithField | App.tsx:46-49 | a form change sets the named field to the value and leaves every other field as it was |
| AppSession.WithFieldSameValue | App.tsx:46-49 | writing a field its current value leaves the form unchanged |
| AppSession.WithoutId | App.tsx:66-68 | the filter never grows the list, and an item is kept iff it was in the list and its id differs |
| AppSession.WithoutIdAppend | App.tsx:66-68 | the filter distributes over concatenation, so the kept items keep their original order |
| AppSession.WithoutAbsentId | App.tsx:66-68 | deleting an id that no item has leaves the list unchanged |
| AppSession.WithoutIdShrinks | App.tsx:66-68 | the list shrinks iff some item has the id |
| AppSession.WithoutIdIdempotent | App.tsx:66-68 | deleting the same id twice is the same as deleting it once |
| AppSession.WithoutIdOfPrepended | App.tsx:66-68 | deleting the id of a newly prepended item removes it and leaves the rest as filtered |
| AppSession.ErrorMessage | App.tsx:109 | an `Error` shows its own message; any other thrown value shows "An unknown error occurred." |
| AppSession.ReaderErrorShowsUnknownError | services/geminiService.ts:22-64 | an image or PDF whose `FileReader` fails makes the whole generation reject with that non-`Error` value, unchanged by the `catch`, and the page then shows "An unknown error occurred." |
| AppSession.NewHistoryItem | App.tsx:97-105 | the new item's inputs are the captured form plus the file's name exactly when a file was attached; its result is the generated result; its id and timestamp are the ones supplied |
| AppSession.App.constructor | App.tsx:12-44 | the page starts with the initial form, no file, result or error, not loading, history closed; the history is the parsed stored list or empty; storage ends holding the parsed list if its own write succeeds, else the empty list if the first write succeeds, else what the load left (a corrupt entry removed) |
| AppSession.App.LoadHistory | App.tsx:26-36 | a parsed entry's list is handed on to become the history; an unparsable entry is removed from storage and no list is handed on; a missing entry changes nothing |
| AppSession.App.PersistHistory | App.tsx:38-44 | after a write, the stored value is the whole current list; a failed write leaves storage as it was |
| AppSession.App.HandleFormChange | App.tsx:46-49 | only the named field of the form changes |
| AppSession.App.HandleFileChange | App.tsx:51-56 | a picked file replaces the current one; picking nothing keeps it |
| AppSession.App.HandleFileRemove | App.tsx:58-60 | the file is cleared |
| AppSession.App.HandleToggleHistory | App.tsx:62-64 | the history panel flag is inverted |
| AppSession.App.HandleDeleteHistoryItem | App.tsx:66-68 | the history keeps exactly the items whose id differs, in order, and is written to storage |
| AppSession.App.HandleClearHistory | App.tsx:70-72 | the history is empty and storage holds the empty list |
| AppSession.App.HandleReuseInputs | App.tsx:74-81 | the form is the inputs without `fileName`; file, result and error are cleared and the panel is closed |
| AppSession.App.BeginSubmit | App.tsx:83-91 | refused iff the context is empty and there is no file, and then only the error changes and no call is made; otherwise loading starts, error and result are cleared and one call with the current form and file is made |
| AppSession.App.CompleteSubmit | App.tsx:93-112 | on success the result is shown and exactly one item is prepended and stored; on failure the message is shown and the history is untouched; loading ends either way |
| AppSession.App.Submit | App.tsx:83-113 | a whole submission: refusal changes only the error; success prepends one item at index 0 with the old items after it in order, records the form and file name, and clears the error; failure shows the message, leaves no result and keeps the history |

## Left out

- Rendering: all JSX, including the header badge's `9+` cap and the joined hashtag display.
- Browser I/O: clipboard copying, its timer feedback, `window.confirm` before clearing, and `console.error` logging.
- The Gemini SDK call is not modelled. Its reply is the parameter `ApiResponse`. The `API_KEY` check, the model name, the temperature 0.7 and the schema object handed to the SDK are configuration.
- The schema appears only as the shape `ToJson` produces and `CheckShape` accepts.
- The prompt template's fixed text is left out. `Prompt` keeps only the parts that vary: the context line and the four selections.
- The internals of `JSON.parse`, `JSON.stringify`, `localStorage` and `FileReader` are not modelled. Parse outcomes, read outcomes and write failures are inputs, and storage holds the parsed list.
- `reply.text` missing and reply text that is not JSON both appear as `Malformed`, carrying the error thrown. The `trim()` is not modelled.
- GeminiService.CheckShape: extra keys in the reply are not modelled. The code returns the parsed object itself, so extra keys would reach the page and the history. The model's result holds only the three checked fields. JSON numbers are reals with no arithmetic.
- AppSession.App.LoadHistory: a stored entry that parses to something other than a list (`{}`, `null`) is not modelled. The code would put that value in the history. A stored empty string counts as a missing entry, as the code's truthiness test makes it.
- React's batching and re-rendering are not modelled. Each handler applies its state updates at once. The persist effect runs inside each handler that changes the history.
- Id uniqueness and timestamp order are not proved, because the code guarantees neither. Both are parameters.
- At most one request in flight is not modelled. Only the disabled submit button (components/InputForm.tsx) enforces it, and that is a UI concern. `BeginSubmit` and `CompleteSubmit` let callers interleave submissions as the code allows.
- Submit receives the outcome of `generateContent` as a parameter and does not call `GenerateContent`. The outcomes that can occur are those of `GeminiService.Generate`.
