# Gemini-Chat front end, modelled in Dafny

A model of the client-side logic of a small Next.js chat front end for Google's Gemini models:

- **Upload allow-list** (`src/utils/fileConfig.ts`): the eight-entry MIME table, the `.csv`/`.txt`
  extension list, and the three classifiers `isTextFile`, `isFileSupported` and `getFileIcon`
  (module `FileConfig`, file `file_config.dfy`).
- **Attachment list** (`src/components/FileUpload.tsx`): `handleFileSelect` filters a new selection
  through the allow-list and appends it, and `removeFile` drops one index
  (module `FileUpload`, file `file_upload.dfy`).
- **Model catalog** (`src/utils/modelConfig.ts`): three model configurations, the default, and the
  first-match lookup by id that its users apply (module `ModelRegistry`, file `model_config.dfy`).
- **Model selection hook** (`src/hooks/useModelSelection.ts`): a class holding the selected model
  and the browser's storage as a map. Its methods restore the saved id on mount and change and
  persist the choice (module `ModelSelectionHook`, file `model_selection.dfy`).
- **Model selector** (`src/components/ModelSelector.tsx`): the options list and the change rule
  (module `ModelSelector`, file `model_selector.dfy`).
- **Chat session** (`src/components/ChatInterface.tsx`): a class with the fields `messages`,
  `inputMessage`, `isLoading` and `error`. Its handlers `sendMessage`, `handleKeyPress` and
  `clearChat` update them (module `ChatInterface`, file `chat_interface.dfy`).

The pure files are functions and lemmas. The hook and the chat component update state step by step,
so they are classes whose methods state their whole new state.

The send handler awaits a network request. It is split in two: `BeginSend` runs the guard and the
optimistic append, and `FinishSend` runs what happens once the request settles. `SendMessage` runs
both back to back. The fetch outcome, the message ids and the timestamps (all read from the network
or the clock) are parameters.

## Model

| member | source | states |
|---|---|---|
| `FileConfig.AnyEndsWith` | src/utils/fileConfig.ts:37-39 | `some` over the extension list holds iff some listed extension is a suffix of the name |
| `FileConfig.IsTextFile` | src/utils/fileConfig.ts:27-42 | every text file is supported |
| `FileConfig.IsFileSupported` | src/utils/fileConfig.ts:35-42 | supported iff the type is a key of the MIME table, or the lower-cased name ends in `.csv` or `.txt` (the `some` over the extension list unfolded) |
| `FileConfig.ToLower` | src/utils/fileConfig.ts:31-38 | the lower-cased name has the same length, and each character is folded on its own |
| `FileConfig.TextByType` | src/utils/fileConfig.ts:28-30 | type `text/csv`, `application/vnd.ms-excel` or `text/plain` makes a file text, whatever its name |
| `FileConfig.TextByName` | src/utils/fileConfig.ts:31-32 | a name ending in `.csv` or `.txt`, in any letter case, makes a file text, whatever its type |
| `FileConfig.NotTextOtherwise` | src/utils/fileConfig.ts:27-33 | a file with any other type and neither name ending is not text |
| `FileConfig.PhotoIsNotText` | src/utils/fileConfig.ts:14-33 | `photo.png` of type `image/png` is supported but not text |
| `FileConfig.SupportedIff` | src/utils/fileConfig.ts:13-42 | supported iff the type is one of the eight table keys, or the lower-cased name ends in `.csv` or `.txt` |
| `FileConfig.SupportedButNotText` | src/utils/fileConfig.ts:14-33 | the four image types and `application/pdf` are supported but not text, unless the name ends in `.csv`/`.txt` |
| `FileConfig.TypeIsCaseSensitive` | src/utils/fileConfig.ts:27-42 | the type is matched exactly: `TEXT/PLAIN` under a plain name is neither text nor supported |
| `FileConfig.NameIsCaseInsensitive` | src/utils/fileConfig.ts:31-38 | the name is matched in any letter case: any name ending in `.CSV`, such as `DATA.CSV`, is text and supported, whatever its type |
| `FileConfig.GetFileIcon` | src/utils/fileConfig.ts:44-54 | photo icon iff an image type; table icon iff a CSV type, or a type outside the table with a `.csv` name; document icon otherwise |
| `FileConfig.SpecialIconImpliesSupported` | src/utils/fileConfig.ts:13-54 | a photo or table icon is shown only for a supported file |
| `FileConfig.TxtOfUnknownTypeIsDocument` | src/utils/fileConfig.ts:44-54 | a `.txt` file of a type outside the table gets the document icon, although it is text and supported |
| `FileUpload.SupportedOnly` | src/components/FileUpload.tsx:23 | the filtered selection is no longer than the selection and holds only supported files taken from it |
| `FileUpload.SupportedOnlyAppend` | src/components/FileUpload.tsx:23 | filtering keeps selection order: it distributes over concatenation |
| `FileUpload.SupportedSurvive` | src/components/FileUpload.tsx:23 | every supported selected file survives the filter |
| `FileUpload.SupportedOnlyKeepsLength` | src/components/FileUpload.tsx:23-27 | the filter keeps the length iff every selected file is supported |
| `FileUpload.HandleFileSelect` | src/components/FileUpload.tsx:21-29 | new list = old list unchanged, then the supported selected files in order; length at most old plus selection; rejected files never enter; the "filtered" flag holds iff some selected file is unsupported |
| `FileUpload.KeepOtherIndices` | src/components/FileUpload.tsx:37 | the index filter on a suffix starting at `offset` removes exactly the element at `index`, or nothing if `index` is outside it |
| `FileUpload.RemoveFile` | src/components/FileUpload.tsx:36-39 | an index in range removes exactly that element, keeping the rest in order and shrinking by one; an index out of range changes nothing |
| `FileUpload.RemoveAfterSelect` | src/components/FileUpload.tsx:21-39 | removing an old file after a selection equals removing it first: old files are not re-validated |
| `ModelRegistry.Find` | src/hooks/useModelSelection.ts:12 | `find` returns nothing iff no entry has the id; otherwise an entry with that id before which no entry has it |
| `ModelRegistry.FindOwnId` | src/utils/modelConfig.ts:8-25 | with distinct ids, looking up an entry's id finds that entry |
| `ModelRegistry.CatalogContents` | src/utils/modelConfig.ts:1-25 | three entries, ids `gemini-2.0-flash`, `gemini-2.5-pro`, `gemini-2.5-flash` in order; none sets `maxTokens`; no id is empty |
| `ModelRegistry.CatalogIdsDistinct` | src/utils/modelConfig.ts:8-25 | catalog ids are pairwise distinct |
| `ModelRegistry.DefaultIsFirst` | src/utils/modelConfig.ts:27 | the default is a catalog entry with id `gemini-2.0-flash`, found at index 0 and at no other index |
| `ModelRegistry.CatalogLookup` | src/utils/modelConfig.ts:8-25 | every catalog entry is found by its own id |
| `ModelSelectionHook.SavedModel` | src/hooks/useModelSelection.ts:10-16 | storage restores an entry iff the key is present, its value non-empty and a catalog id; the entry restored has that id |
| `ModelSelectionHook.SavedAfterChange` | src/hooks/useModelSelection.ts:10-22 | after storing a catalog entry's id, the storage restores exactly that entry |
| `ModelSelectionHook.NothingSavedOtherwise` | src/hooks/useModelSelection.ts:10-16 | a missing, empty or unknown stored id restores nothing |
| `ModelSelectionHook.ModelSelection.constructor` | src/hooks/useModelSelection.ts:7 | the selection starts at the default; `availableModels` is the catalog |
| `ModelSelectionHook.ModelSelection.RestoreSaved` | src/hooks/useModelSelection.ts:9-17 | a restorable stored id replaces the selection, anything else leaves it; storage unchanged; a catalog selection stays in the catalog |
| `ModelSelectionHook.ModelSelection.ChangeModel` | src/hooks/useModelSelection.ts:19-22 | selection becomes the model, its id is stored under `selected-model`, other stored entries kept; selection in catalog iff the model is |
| `ModelSelectionHook.MountFresh` | src/hooks/useModelSelection.ts:7-17 | mounting over empty storage selects the default |
| `ModelSelectionHook.RemountAfterChange` | src/hooks/useModelSelection.ts:7-22 | after changing to a catalog entry, mounting again over the same storage selects that entry |
| `ModelSelector.Options` | src/components/ModelSelector.tsx:28-32 | one option per entry, in order, value = id and label = name |
| `ModelSelector.Control` | src/components/ModelSelector.tsx:18-33 | the control shows the selected id with the selected description as tooltip; for a catalog selection that value is one of the options, labelled with the selected name; there is one option per catalog entry, and choosing any option notifies the parent with the entry it was rendered from |
| `ModelSelector.OnChange` | src/components/ModelSelector.tsx:21-24 | the parent is notified iff the chosen id names a catalog entry, and then with that entry |
| `ModelSelector.ChoosingOptionSelectsIt` | src/components/ModelSelector.tsx:21-32 | choosing any rendered option notifies with the entry it was rendered from |
| `ModelSelector.ReselectingCurrentIsStable` | src/components/ModelSelector.tsx:20-24 | choosing the shown value again notifies with the selected model itself |
| `ModelSelector.UnknownIdIgnored` | src/components/ModelSelector.tsx:21-24 | an id outside the catalog notifies nothing |
| `ChatInterface.TrimStart` | src/components/ChatInterface.tsx:34 | the result is a suffix of the input, everything removed is whitespace, and it does not start with whitespace |
| `ChatInterface.TrimEnd` | src/components/ChatInterface.tsx:34 | the result is a prefix of the input, everything removed is whitespace, and it does not end with whitespace |
| `ChatInterface.Trim` | src/components/ChatInterface.tsx:34 | `trim` is no longer than its input and neither starts nor ends with whitespace |
| `ChatInterface.TrimIsSlice` | src/components/ChatInterface.tsx:34 | `trim` returns a contiguous slice of its input, and every character before or after that slice is ECMAScript whitespace |
| `ChatInterface.TrimEmptyIffBlank` | src/components/ChatInterface.tsx:34 | `trim` leaves nothing iff every character is ECMAScript whitespace |
| `ChatInterface.VisibleStartIsNotBlank` | src/components/ChatInterface.tsx:34 | input whose first character is not whitespace passes the blank-input guard |
| `ChatInterface.ErrorText` | src/components/ChatInterface.tsx:59-72 | no error iff answered; a rejection shows the server's non-empty `error`, else the fallback; a thrown `Error` shows its message, anything else the fallback |
| `ChatInterface.Reply` | src/components/ChatInterface.tsx:63-70 | at most one message; a message iff the request was answered; it is never a user message and carries the AI id, the response text and the server timestamp |
| `ChatInterface.ChatSession.SendBlocked` | src/components/ChatInterface.tsx:202 | the send button is disabled iff a request is pending or the input is all whitespace; `BeginSend` returns early under this same predicate (line 34) |
| `ChatInterface.ChatSession.constructor` | src/components/ChatInterface.tsx:19-22 | no messages, empty input, not loading, no error |
| `ChatInterface.ChatSession.UpdateInput` | src/components/ChatInterface.tsx:189 | the input becomes the typed text, nothing else changes |
| `ChatInterface.ChatSession.BeginSend` | src/components/ChatInterface.tsx:33-46 | blank input or loading: nothing changes, nothing sent; otherwise one user message with the untrimmed input is appended, the same text is sent, input cleared, loading set, error cleared |
| `ChatInterface.ChatSession.FinishSend` | src/components/ChatInterface.tsx:48-75 | the reply (if answered) is appended, a failure sets the error text, loading ends false, the input is untouched |
| `ChatInterface.ChatSession.SendMessage` | src/components/ChatInterface.tsx:33-76 | the guard changes nothing; otherwise user message then reply, input empty, loading false, error = the outcome's error text; at most two messages added |
| `ChatInterface.ChatSession.HandleKeyPress` | src/components/ChatInterface.tsx:78-83 | Enter without Shift behaves as `sendMessage`; any other key changes nothing |
| `ChatInterface.ChatSession.ClearChat` | src/components/ChatInterface.tsx:85-88 | messages empty and error cleared; input and loading untouched |
| `ChatInterface.Conversation` | src/components/ChatInterface.tsx:33-88 | after an answered send of `hi` and a rejected send of `again`, the list holds user `hi`, AI `hello` and user `again`, the error is the fallback text and loading is off; the clear then leaves no messages and no error |

## Left out

- `src/app/api/chat/route.ts`: a thin wrapper over the Google SDK, environment variables and HTTP responses. Besides the order of its checks (a missing or empty `message` gets 400 before a missing key gets 500), it answers every thrown error with a 500 and a fixed message (route.ts:45-51), and a GET with 405 (route.ts:55-60). The client sees these only through `FetchOutcome`.
- `formatFileSize` (src/components/FileUpload.tsx:41-47): floating-point logarithms and `toFixed`.
- JSX rendering, CSS, auto-scrolling, the `alert` call, the file-input reset and `preventDefault`. These are UI side effects. The "files were filtered" alert is the `someFiltered` flag.
- The network, JSON parsing, `Date.now()` ids and ISO timestamps are parameters. A non-string `error` field in the server's reply, or a successful reply without `response`, is not modelled.
- `localStorage` is a map field, not persistent storage. Storage that throws, such as a disabled one, is not modelled.
- The icon components are enum tags.
- `SUPPORTED_FILE_TYPES[file.type]` is a map with exactly the eight keys. JavaScript's inherited object keys (`toString` and the like) are not modelled.
- `FileConfig.ToLower` folds only `A`-`Z`. For the suffix comparisons with `.csv` and `.txt` this agrees with `toLowerCase`: the only other characters that lower-case into ASCII are U+212A (to `k`) and U+0130 (to `i` and U+0307), and neither gives `.`, `c`, `s`, `v`, `t` or `x`.
- `ModelSelector.tsx` imports its catalog from `../models/modelConfig`, which does not exist. The model uses the catalog of `src/utils/modelConfig.ts`.
- The React render cycle, batching of state updates, and work interleaved while a request is pending are out of scope. `BeginSend` and `FinishSend` may be called with other handlers in between. `SendMessage` is the uninterrupted run.
- The selected model and the attached files never leave the browser. `ChatInterface.tsx` posts only `message` (line 54), and the route reads only `message` (route.ts:9).
