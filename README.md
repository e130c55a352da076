# Medicine package verifier — a Dafny model

The application takes several photographs of a medicine package. It sends
them, with an instruction text, to a generative model that can search the
web. It reads back a JSON report on:

- the INVIMA sanitary registration;
- the barcode;
- the colours, typography and print quality of the package;
- an overall verdict.

The report is shown next to the photographs, with the web pages the model
cited.

The modules follow the program's own files:

- **`GeminiService`**: the verification pipeline, from
  `services/geminiService.ts`. It covers:
  - the API-key check;
  - the data-URL split of each photograph;
  - the request, with the instruction text first and then the photographs
    in order;
  - the single model call, as a `ModelClient` object that logs every
    request and answers through an oracle;
  - trimming the reply and unwrapping a fenced code block;
  - parsing, through a parser oracle;
  - filtering the grounding chunks;
  - sorting failures into the error kinds.
- **`App`**: the application component, from `App.tsx`. It is a class
  `AppState` with the component's seven state fields, plus:
  - the timer's counter and a flag for a running timer;
  - a generator of fresh object-URL handles;
  - a ghost set of revoked handles.

  Its methods are the event handlers. `RenderContent` chooses the screen.
- **`ReportCard`** and **`ResultDisplay`**: the status-to-presentation
  mappings of the two components. Colours are the tags
  `Green | Yellow | Red | Slate` and icons are the tags
  `CheckIcon | WarningIcon | QuestionIcon`.
- **`Types`**: the enumerations and report records of `types.ts`.
  `JsString` models the JavaScript string built-ins the code relies on:
  - `trim` and the `\s` class, over the ECMAScript white-space and
    line-terminator set;
  - `split`;
  - `includes`;
  - a global one-character `replace`.

The report records keep their status fields as strings. `JSON.parse`
validates nothing, so a status can be any string. The typed views
`VerificationStatusOf` and `OverallAssessmentStatusOf` give every unknown
string its own catch-all arm.

The regular expression `/```(?:json)?\s*([\s\S]*?)\s*```/` is modelled by
`FencedContent`, which works as follows:

1. Find the first fence.
2. Skip an optional `json` tag.
3. Skip white space.
4. Find the first closing fence.
5. Back off the white space before it.

Under the leftmost, lazy matching rules of ECMAScript regular expressions,
this gives the same capture. `FencedContentMatches` proves that the model
finds a capture exactly when the text contains two non-overlapping fences.

## Model

| member | source | states |
|---|---|---|
| GeminiService.DataUrlPayload | services/geminiService.ts:9 | the payload is absent exactly when the data URL has no comma, and it never contains a comma |
| GeminiService.HasApiKey | services/geminiService.ts:22 | the key counts as present exactly when it is set to a non-empty string |
| GeminiService.DataUrlPayloadOf | services/geminiService.ts:8-9 | for `header,payload[,…]` the payload is exactly the text between the first and the second comma |
| GeminiService.EncodeImage | services/geminiService.ts:4-18 | the part is an inline image part with the file's own MIME type; a reader result that is not a string gives the empty payload |
| GeminiService.BuildRequest | services/geminiService.ts:27-79 | one part per photograph plus one: the instruction text is part 0 and photograph k is part k+1; model `gemini-2.5-flash`, search as the only tool, and the passed key |
| GeminiService.BuildRequestImageParts | services/geminiService.ts:27-74 | every part after the first is an image part with its photograph's MIME type, and the instruction text is the only text part |
| GeminiService.ModelClient.GenerateContent | services/geminiService.ts:68-79 | appends the request to the client's log and returns the oracle's outcome for it |
| GeminiService.FirstFence | services/geminiService.ts:82 | the first position at or after `from` where three backticks start, or none when there is no such position |
| GeminiService.FencedContent | services/geminiService.ts:82 | a capture has no surrounding white space and contains no fence |
| GeminiService.FencedContentMatches | services/geminiService.ts:82 | the pattern matches exactly when the text holds two non-overlapping fences |
| GeminiService.FencedContentOfBlock | services/geminiService.ts:82 | for any block matched as written (`BlockAsWritten`: no fence in or straddling the end of the leading text, the `json` tag or none, white space or none on either side of a fence-free unpadded content, except that an untagged fence directly followed by the content needs content that does not start with `json`, and content directly followed by the closing fence must not end in a backtick), the capture is the block's content, whatever follows the block |
| GeminiService.Unwrap | services/geminiService.ts:81-85 | the text passed to the parser has no surrounding white space; it is either the trimmed reply or a non-empty fence-free capture |
| GeminiService.UnwrapEmbedded | services/geminiService.ts:81-85 | for any reply made of white space, leading text, a block matched as written with non-empty content, trailing text and white space, the parser receives exactly the block's content |
| GeminiService.UnwrapRoundTrip | services/geminiService.ts:81-85 | a non-empty, unpadded, fence-free payload reaches the parser unchanged, whether it is sent bare or wrapped in a `json` block |
| GeminiService.UnwrapUnfenced | services/geminiService.ts:81-85 | without two fences the reply is only trimmed |
| GeminiService.UnwrapEmptyCapture | services/geminiService.ts:83 | for every reply whose capture is empty, the empty capture is falsy and the whole trimmed text, fences included, goes to the parser |
| GeminiService.UnwrapEmptyBlock | services/geminiService.ts:83 | an instance of the rule above: an empty `json` block reaches the parser as it is |
| GeminiService.ExtractSources | services/geminiService.ts:96-98 | there are never more sources than chunks, and every source has a non-empty URI |
| GeminiService.IsCitation | services/geminiService.ts:97 | a chunk is kept exactly when it has a web record whose URI is present and non-empty |
| GeminiService.AsSource | services/geminiService.ts:98 | the kept chunk becomes a source with the same non-empty URI, and its title or the empty string when the title is missing |
| GeminiService.ExtractSourcesAppend | services/geminiService.ts:96-98 | the filter distributes over concatenation, so order is kept and duplicates are not removed |
| GeminiService.ExtractSourcesSingle | services/geminiService.ts:97 | one chunk gives one source exactly when it has a web record with a non-empty URI |
| GeminiService.ExtractSourcesAllOrNone | services/geminiService.ts:96-98 | when every chunk is a citation, source k is chunk k; when none is, there are no sources |
| GeminiService.ExtractSourcesDropsMissingUri | services/geminiService.ts:97 | a web record without a URI is dropped and a complete one is kept |
| GeminiService.GroundingChunksOf | services/geminiService.ts:95 | a missing level anywhere along the chain (no candidates, no first candidate, no metadata, no chunk list) gives no chunks; when the first candidate has a chunk list, that list is returned unchanged; and any non-empty result is the first candidate's own list |
| GeminiService.Rethrow | services/geminiService.ts:101-106 | only an `Error` whose message contains `formato inválido` passes through with its message; anything else becomes the communication error; the configuration error never comes from here |
| GeminiService.Settle | services/geminiService.ts:67-106 | everything after the key check: a result needs a reply with text, and an error is never the configuration error |
| GeminiService.ParseFailureIsMalformed | services/geminiService.ts:88-104 | a parse failure surfaces as the format error with its own message |
| GeminiService.SettleSucceedsOnlyOnParse | services/geminiService.ts:81-100 | a result exists exactly when the reply had text and its unwrapped form parsed; it then holds exactly the parsed report and the filtered sources |
| GeminiService.SettleErrorKinds | services/geminiService.ts:101-106 | every failure after the key check is either a format error carrying the marker or the communication error |
| GeminiService.SettleFencedReply | services/geminiService.ts:81-100 | a reply wrapping a well-formed payload in a `json` block yields the report parsed from exactly that payload |
| GeminiService.VerifyMedicinePackage | services/geminiService.ts:21-108 | without a key: the configuration error, and no model call; with a key: exactly one call, with the built request, and the result settled from its outcome |
| JsString.Trim | services/geminiService.ts:81 | the trimmed text is no longer than the input and has no surrounding white space |
| JsString.TrimPadded | services/geminiService.ts:81 | trimming removes exactly the white space around an unpadded text |
| JsString.TrimIdempotent | services/geminiService.ts:81 | trimming twice is trimming once |
| JsString.Split | services/geminiService.ts:9 | at least one field; exactly one when the separator is absent; no field contains the separator |
| JsString.JoinSplit | services/geminiService.ts:9 | joining the fields with the separator gives back the input |
| JsString.IncludesSpliced | services/geminiService.ts:103 | a text contains every piece it was built from |
| JsString.ReplaceChar | components/ReportCard.tsx:61 | same length, the replaced character is gone, and every other character is unchanged |
| Types.AppStatusNamesDistinct | types.ts:1-6 | the four phases have four distinct string values |
| Types.VerificationStatusOf | types.ts:8-14 | every string reads back to itself, and exactly the five declared strings are recognised |
| Types.VerificationStatusNamesRoundTrip | types.ts:8-14 | each declared status is read back from its name, and there are exactly five distinct names |
| Types.OverallAssessmentStatusOf | types.ts:16-20 | every string reads back to itself, and exactly the three declared strings are recognised |
| ReportCard.StatusTone | components/ReportCard.tsx:13-46 | VERIFIED and AUTHENTIC are green, SUSPICIOUS is yellow, NOT_FOUND and UNABLE_TO_VERIFY are red, and every other string is slate |
| ReportCard.StatusLabel | components/ReportCard.tsx:61 | same length, no underscore, each underscore becomes a space, and every other character is unchanged |
| ReportCard.StatusLabelIdempotent | components/ReportCard.tsx:61 | relabelling a label changes nothing, and a status without underscores is its own label |
| ReportCard.ShownDetails | components/ReportCard.tsx:64 | the details line is shown exactly for a non-empty string |
| ReportCard.RenderCard | components/ReportCard.tsx:48-67 | the card's colour and label come from its status, and its details follow the non-empty rule |
| ResultDisplay.OverallStyleOf | components/ResultDisplay.tsx:16-26 | AUTHENTIC is green with a check, POTENTIALLY_COUNTERFEIT is red with a warning, and every other string is yellow with a question mark |
| ResultDisplay.IconFor | components/ResultDisplay.tsx:28-41 | VERIFIED and AUTHENTIC get the check, SUSPICIOUS gets the warning, and every other string gets the question mark |
| ResultDisplay.ToneMatchesIcon | components/ReportCard.tsx:13-46 | a card's colour and icon agree: green goes with the check, yellow with the warning, and red or slate with the question mark |
| ResultDisplay.NumberDetail | components/ResultDisplay.tsx:85-92 | the text starts with `Nº: ` and continues with the number, or `N/A` when the number is empty |
| ResultDisplay.NumberDetailShown | components/ResultDisplay.tsx:85-92 | the numbered cards always show their details line, `Nº: N/A` for an empty number |
| ResultDisplay.EntryCard | components/ResultDisplay.tsx:81-100 | a card takes its title and notes from its entry, its colour, icon and label from the entry's own status, and shows the entry's details only when they are non-empty |
| ResultDisplay.DetailCards | components/ResultDisplay.tsx:81-100 | exactly five cards, one per entry of `Entries` (INVIMA, barcode, colours, typography, print quality, in that order); card k has entry k's title and notes, the colour, icon and label of entry k's own status, and entry k's details line when it is non-empty |
| ResultDisplay.EntriesNumberLines | components/ResultDisplay.tsx:81-100 | the INVIMA and barcode cards always show their number line, and the three visual cards show none |
| ResultDisplay.EntriesOfReport | components/ResultDisplay.tsx:81-100 | five entries with distinct titles, each carrying the status and notes of its own check of the report, and only the two numbered entries carry a details line |
| ResultDisplay.CardForConsistent | components/ResultDisplay.tsx:81-100 | a card built for a status has a colour and an icon that agree |
| ResultDisplay.DetailCardsConsistent | components/ResultDisplay.tsx:81-100 | all five cards of every report have a colour and an icon that agree |
| ResultDisplay.LinkFor | components/ResultDisplay.tsx:113-121 | the link points at the URI; its text is the title, or the URI when the title is empty |
| ResultDisplay.SourceLinks | components/ResultDisplay.tsx:106-127 | the section is absent exactly when there are no sources; otherwise link k belongs to source k |
| ResultDisplay.ExtractedLinksHaveText | components/ResultDisplay.tsx:120 | for sources the pipeline extracted, no link text is empty |
| ResultDisplay.Render | components/ResultDisplay.tsx:44-77 | nothing for a missing report; otherwise one image per preview URL in order, the overall style, the relabelled verdict, the assessment's summary, the five cards and the sources section |
| App.NextIndex | App.tsx:50 | the next index is always a valid message index; it is the following message, or the first after the last |
| App.Rotated | App.tsx:48-52 | after at least one firing the index is a valid message index; with no firing it is unchanged |
| App.RotatedIs | App.tsx:48-52 | n firings of the timer from index i land on (i + n) mod 6 |
| App.RemoveAt | App.tsx:36-37 | an index in range removes exactly that entry and keeps the rest in order; an index out of range changes nothing |
| App.RemoveAtDistinct | App.tsx:36 | removing an entry from a list of distinct handles keeps them distinct and removes only that handle |
| App.AppState.constructor | App.tsx:9-24 | IDLE, with no report, sources, error, files or previews, and the first loading message |
| App.AppState.AddFile | App.tsx:26-30 | the file and one fresh preview handle go on the ends of their lists, which stay aligned; nothing else changes |
| App.AppState.RemoveFile | App.tsx:32-38 | the handle at the index is revoked and the index is dropped from both lists; an index out of range changes nothing |
| App.AppState.Start | App.tsx:41-52 | without files nothing changes; otherwise LOADING, with error, report and sources cleared and the timer started at index 0; the displayed message is kept |
| App.AppState.Tick | App.tsx:49-52 | a running timer advances the index by one modulo six and shows that message; nothing else changes |
| App.AppState.Complete | App.tsx:55-64 | a result is stored with SUCCESS; any failure stores the one fixed message with ERROR; the timer is cleared on both paths |
| App.AppState.RunTimer | App.tsx:48-52 | n firings advance the counter n times and show the message reached; nothing else changes |
| App.AppState.HandleVerificationStart | App.tsx:40-65 | the whole handler: the guard, exactly one service call when there are files and a key and none otherwise, `ticks` timer firings, and the settled status, report, sources and error |
| App.AppState.Reset | App.tsx:67-76 | IDLE, with no report or error, no sources, empty file and preview lists, and every handle of the old preview list revoked |
| App.AppState.RenderContent | App.tsx:86-118 | the screen depends only on the status: LOADING shows progress with the message, SUCCESS shows the result, ERROR shows the error, and IDLE shows the initial screen |

## Left out

- Reading the file and base64 encoding (`FileReader`) are left out. A file is modelled as its MIME type plus the reader's result, when that result is a string.
- The model call and the network are left out. The SDK call is the `respond` oracle of `ModelClient`. The model can stop on a thrown value, or reply with optional text and optional candidates (absence stands in for `undefined`).
- The environment variables are inputs (`Env`). The key is checked on `API_KEY`, but `VITE_API_KEY` is what goes into the request, and the model keeps both as the code does.
- The wording of the instruction text is a parameter, since only its position in the request matters. The request carries no response schema: the JSON shape is described only inside that text, so no schema is modelled.
- `JSON.parse` is an oracle from text to an optional report. The code never checks that the parsed value has the report's shape, and the model assumes it has.
- A grounding chunk that is `null` inside the chunk list is not modelled. The filter would throw on it.
- GeminiService.AsSource: a kept chunk with no title gets the empty string as its title, where the program keeps `undefined`. Both are falsy where the title is read.
- App.AppState.Start: requires that no run is in flight. The model has one timer, and the user interface hides the start button while loading.
- App.AppState.HandleVerificationStart: the timer firings during the call are a `ticks` parameter. Interleavings of timer firings with other handlers are not modelled.
- The asynchronous scheduling of the handlers, React's batching of state updates and stale closures are not modelled.
- The 2500 ms timer period is not modelled.
- The `useEffect` clean-up that revokes preview handles is not modelled. It runs whenever the preview list changes, and it revokes handles that are still shown or already revoked.
- The CSS classes, SVG icons, headings and layout are not modelled; enumeration tags stand in for them.
- `console.error` logging is not modelled.
- The `onReset` button wiring is not modelled.
- The initial screen and the API key prompt are not modelled. The initial screen's only rule, that the verify button is disabled without previews, is the guard in `App.AppState.Start`.
- The loading message is not reset when a later run starts: it stays at the last message of the previous run. The model follows the code here.
