# Scene dialogue and chunk extraction — a Dafny model

This project models the logic core of a small web app for practising spoken
English.

- The user picks a scene, or types one of their own. The app streams a
  generated dialogue from an OpenAI-style chat-completions endpoint and shows
  it as markdown while it arrives, together with a progress bar.
- It then asks the endpoint for the English "chunks" in the finished dialogue.
  It de-fences and parses the reply and normalises it into chunk records.
- A separate converter page sends an uploaded text file to the same endpoint.
  It saves the JSON object found in the reply, from the first `{` to the last
  `}`.

The modules follow the source:

- `JsValues` (`js_values.dfy`) covers the JavaScript value semantics the code
  relies on: values from `JSON.parse` plus `undefined`, property reads that
  throw on `null`/`undefined`, truthiness, `||`, and the `ToString` that
  `+=` applies, including the TypeError it throws for an object with an own
  `toString` key.
  `JSON.parse` is a parameter, `parse: string -> Option<Json>`, where `None`
  is its SyntaxError. An exception is a `Failure`: either `Thrown(m)`, for
  `new Error(m)` raised by the app, or `EngineError`, for one raised by the
  engine or the browser.
- `Text` (`text.dfy`) covers `trim`, `split` on one character, `join` and
  `startsWith`, using ECMAScript's whitespace set.
- `Chat` (`chat.dfy`) covers the reply envelope and the path
  `choices[0]?.<kind>?.content`.
- `StoredSettings` (`stored_settings.dfy`) reads `userSettings.gemini` from
  `localStorage`.
- `AiService` (`ai_service.dfy`) covers `generateDialogue` and
  `generateChunks`:
  - `generateDialogue` is an imperative method with the source's read loop;
    the per-line loop inside it is the method `DecodeLines`. It is proved
    against `DialogueResult` and
    `ProgressReports`, the transcript and the `onProgress` arguments as
    functions of the blocks the reader yields.
  - The fence-stripping regular expressions are modelled as matchers for
    exactly those patterns: the `m` flag, the greedy `\s*`, and leftmost
    match. Two cases are proved: fence-free content is only trimmed, and
    "```json\n…\n```" content cleans to the trimmed body.
- `SceneList` (`scene_list.dfy`) is the component's state as the class
  `Session`, one method per handler. Each method's new state is given by a
  pure function on the snapshot `View`, such as `Generation`, `SceneClicked`
  or `WentBack`. The outcomes, including the asymmetric failure policy, are
  lemmas about those functions. The markdown formatter and the progress
  formula are pure functions.
- `FileConverter` (`file_converter.dfy`) is the converter's state as the class
  `Converter`. `HandleFileUpload` runs the guarded steps in the source's
  order. The greedy `\{[\s\S]*\}` match is `ExtractJsonObject`.

Three behaviours of the code are easy to misread, and the model keeps them
as written:

- The formatter splits a line on every colon and keeps the first two pieces.
  `10:30 Anna: hi` becomes `**10**: 30 Anna`, and text after a second colon
  is lost. `SceneList.SecondColonDropped` states this.
- Field aliases are resolved by the first truthy value, with `meaning` before
  `chinese_meaning` and `scenes` before `suitable_scenes`. A present but
  falsy `meaning` such as `""` gives way to `chinese_meaning`.
- A dialogue stream with no frames gives an empty transcript. The chunk phase
  then still runs on `""`, and a chunk failure leaves an empty dialogue on
  screen.

## Model

| member | source | states |
|---|---|---|
| JsValues.Truthy | src/services/aiService.ts:60 | definition of JavaScript truthiness; its properties are `Or` and `OrAssociative` |
| JsValues.Or | src/services/aiService.ts:60 | `a \|\| b` is one of its operands, and it is truthy exactly when one of them is |
| JsValues.OrAssociative | src/services/aiService.ts:129-131 | a left-nested chain `a \|\| b \|\| c` picks the same value as the right-nested one |
| JsValues.OptGet | src/services/aiService.ts:60 | definition of `v?.key`; its properties are `Chat.ChoiceContent` and `Chat.EnvelopeContent` |
| JsValues.ConversionThrows | src/services/aiService.ts:61 | definition of the values whose conversion to text throws; its property is `ToJsString` |
| JsValues.ToJsString | src/services/aiService.ts:61 | the conversion `+=` applies throws exactly for an object with an own `toString` key or an array holding one at any depth |
| JsValues.Get | src/services/aiService.ts:122 | reading a property throws exactly when the receiver is `null` or `undefined` |
| JsValues.AtZero | src/services/aiService.ts:60 | indexing `[0]` throws exactly when the receiver is `null` or `undefined` |
| Text.StartsWith | src/services/aiService.ts:54 | definition of `startsWith`; its properties are `AiService.NonDataLineIgnored` and `AiService.DataFrameDelta` |
| Text.Trim | src/services/aiService.ts:112 | definition of `trim`; its properties are `TrimIsMiddle`, `TrimEnds`, `TrimIdempotent`, `UnpaddedIsTrimmed` and `TrimIgnoresPadding` |
| Text.TrimStartCuts | src/services/aiService.ts:112 | what `trimStart` keeps is a suffix, everything it cuts is whitespace, and what it keeps does not start with whitespace |
| Text.TrimEndCuts | src/services/aiService.ts:112 | what `trimEnd` keeps is a prefix, everything it cuts is whitespace, and what it keeps does not end with whitespace |
| Text.TrimIsMiddle | src/services/aiService.ts:112 | `trim` returns the middle of the text between two whitespace runs |
| Text.TrimEnds | src/services/aiService.ts:112 | what `trim` returns neither starts nor ends with whitespace |
| Text.TrimIdempotent | src/services/aiService.ts:112 | trimming twice is trimming once |
| Text.UnpaddedIsTrimmed | src/services/aiService.ts:112 | text that neither starts nor ends with whitespace is its own trim |
| Text.TrimStartBeforeNonWhitespace | src/services/aiService.ts:110-112 | trimming the front stops before text that begins with a non-whitespace character |
| Text.TrimIgnoresPadding | src/components/SceneList.tsx:81 | whitespace added on either side does not change what `trim` returns |
| Text.Split | src/services/aiService.ts:51 | `split` gives at least one piece, and a separator in the text gives at least two pieces |
| Text.SplitPiecesFree | src/services/aiService.ts:51 | no piece of `split` holds the separator |
| Text.Join | src/components/SceneList.tsx:86 | definition of `join`; its properties are `JoinSplit`, `SplitJoin` and `JoinAppend` |
| Text.JoinSplit | src/services/aiService.ts:51 | joining the pieces with the separator gives the text back |
| Text.SplitJoin | src/services/aiService.ts:51 | splitting a join of separator-free pieces gives the pieces back |
| Text.SplitAtFirst | src/components/SceneList.tsx:81 | the text before the first separator is the first piece, and splitting goes on after it |
| Text.SplitAround | src/components/SceneList.tsx:78 | a separator between two texts splits them apart: the pieces of the first, then those of the second |
| Text.JoinAppend | src/components/SceneList.tsx:86 | joining two non-empty lists puts one separator between their joins |
| Chat.ChoiceContent | src/services/aiService.ts:102 | `data.choices[0]?.<kind>?.content` throws exactly when `data` or `data.choices` is `null`/`undefined`; truthy content implies a truthy `choices` field |
| Chat.EnvelopeContent | src/services/aiService.ts:60 | the content path reads back what an envelope carries |
| StoredSettings.LoadGemini | src/components/SceneList.tsx:53-62 | the settings count as missing exactly when the entry is absent or empty; the fields are readable exactly when the entry parses and neither it nor its `gemini` member is `null`/`undefined`; then they are `gemini.baseUrl` and `gemini.apiKey` |
| AiService.FrameDelta | src/services/aiService.ts:54-65 | definition of what one line adds; its properties are `NonDataLineIgnored`, `DoneDoesNotStopDecoding`, `BrokenFrameDropped`, `UnconvertibleDeltaDropped`, `EmptyDeltaStillReported` and `DataFrameDelta` |
| AiService.FrameDeltas | src/services/aiService.ts:53-67 | definition of the deltas of a run of lines; its properties are `FrameDeltasAppend`, `IgnoredLineChangesNothing` and `WellFormedFrames` |
| AiService.StreamLines | src/services/aiService.ts:46-51 | definition of the lines of the blocks, each block split on its own; its property is `WellFormedStream` |
| AiService.Concat | src/services/aiService.ts:61 | definition of the transcript of a run of deltas; its properties are `ConcatAppend` and `RunningTextAt` |
| AiService.DialogueResult | src/services/aiService.ts:34-70 | definition of what `generateDialogue` settles with; its properties are `GenerateDialogue`, `WellFormedStream` and `DialogueReportsEndWithTranscript` |
| AiService.ProgressReports | src/services/aiService.ts:34-70 | definition of the `onProgress` arguments; its properties are `GenerateDialogue`, `ReportsArePrefixOrdered`, `WellFormedStream` and `DialogueReportsEndWithTranscript` |
| AiService.RunningTexts | src/services/aiService.ts:61-62 | there is one progress report per accepted frame |
| AiService.RunningTextAt | src/services/aiService.ts:61-62 | the k-th report is the concatenation of the first k+1 deltas |
| AiService.GenerateDialogue | src/services/aiService.ts:8-75 | the resolved transcript and the `onProgress` arguments are those of the decoding functions; a non-ok reply and a missing reader throw their messages before any report |
| AiService.DecodeLines | src/services/aiService.ts:53-67 | the per-line loop extends the transcript and the reports by exactly what the block's lines contribute after the earlier lines |
| AiService.FrameDeltasAppend | src/services/aiService.ts:46-67 | lines are decoded independently and in order: decoding two runs of lines is decoding each |
| AiService.ConcatAppend | src/services/aiService.ts:61 | the transcript of two runs of deltas is the first transcript followed by the second |
| AiService.ReportsArePrefixOrdered | src/services/aiService.ts:61-62 | each progress report is a prefix of every later one, and the last is the whole transcript |
| AiService.IgnoredLineChangesNothing | src/services/aiService.ts:53-65 | a line that contributes no delta leaves the decoding of all other lines unchanged |
| AiService.NonDataLineIgnored | src/services/aiService.ts:54 | a line without the `data: ` prefix contributes nothing |
| AiService.DoneDoesNotStopDecoding | src/services/aiService.ts:56 | `data: [DONE]` contributes nothing, and the lines after it are still decoded |
| AiService.BrokenFrameDropped | src/services/aiService.ts:58-65 | a frame that does not parse, or whose `choices` is `null`/`undefined`, is dropped without disturbing the rest |
| AiService.UnconvertibleDeltaDropped | src/services/aiService.ts:59-65 | a frame whose delta `+=` cannot convert to text throws inside the `try` and is dropped with no report, without disturbing the rest |
| AiService.EmptyDeltaStillReported | src/services/aiService.ts:60-62 | a parsed frame with a falsy delta adds `''` and still produces a report |
| AiService.WellFormedFrames | src/services/aiService.ts:46-67 | frames whose `choices[0].delta.content` is a string, whatever other keys they carry, then `[DONE]`, decode to exactly those strings |
| AiService.DataFrameDelta | src/services/aiService.ts:54-62 | one `data: ` line whose frame has a string at `choices[0].delta.content` contributes that string |
| AiService.WellFormedStream | src/services/aiService.ts:34-70 | a one-block stream of such frames resolves to the concatenated deltas, reported once per frame |
| AiService.DialogueReportsEndWithTranscript | src/services/aiService.ts:61-70 | on success the reports grow by extension; the last is the resolved transcript, or the transcript is `''` when there are none |
| AiService.WhitespaceRunSpan | src/services/aiService.ts:110-111 | a greedy `\s*` takes whitespace only and stops at the end or at a non-whitespace character |
| AiService.FirstOpeningFence | src/services/aiService.ts:110 | finds the leftmost "```json" that starts a line, and none is missed before it |
| AiService.LastLineTerminator | src/services/aiService.ts:111 | finds the last line terminator in a range, or there is none |
| AiService.ClosingFenceEnd | src/services/aiService.ts:111 | a closing-fence match starting here has "```" right after its leading whitespace and ends at a line end |
| AiService.ClosingFenceEndComplete | src/services/aiService.ts:111 | once the backticks follow the leading whitespace, a match is found exactly when a line end or the end of the text lies in the whitespace after them, and it ends at the last such place |
| AiService.FirstClosingFence | src/services/aiService.ts:111 | finds the leftmost closing-fence match, and none starts earlier |
| AiService.StripOpeningFence | src/services/aiService.ts:110 | definition of the first `replace`; its properties are `FirstOpeningFence` and `OpeningFenceAtStart` |
| AiService.StripClosingFence | src/services/aiService.ts:111 | definition of the second `replace`; its properties are `FirstClosingFence` and `ClosingFenceAtEnd` |
| AiService.CleanContent | src/services/aiService.ts:109-112 | definition of the cleaned content; its properties are `FenceFreeContentIsTrimmed` and `FencedContentIsBody` |
| AiService.FenceFreeContentIsTrimmed | src/services/aiService.ts:109-112 | content without "```" is only trimmed |
| AiService.FencedContentIsBody | src/services/aiService.ts:109-112 | "```json\n" + body + "\n```", with no backtick in the body, cleans to the trimmed body |
| AiService.OpeningFenceAtStart | src/services/aiService.ts:110 | a leading "```json" is removed together with the whitespace after it |
| AiService.ClosingFenceAtEnd | src/services/aiService.ts:111 | a trailing "```" after backtick-free text is removed together with the whitespace before it |
| AiService.FenceIsTransparent | src/services/aiService.ts:108-116 | a backtick-free body is extracted the same with or without the fence |
| AiService.ShapeChunks | src/services/aiService.ts:118-124 | the list is accepted exactly when the value is an array, or an object whose `chunks` is an array, and it is that array |
| AiService.Normalize | src/services/aiService.ts:126-133 | normalising an item throws exactly when it is `null`/`undefined` |
| AiService.NormalizeByAliases | src/services/aiService.ts:127-132 | each field is the first truthy value over its ordered aliases (`meaning`, `chinese_meaning`; `scenes`, `suitable_scenes`) or the default, and scenes are kept only when that value is an array |
| AiService.ScenesShadowSuitableScenes | src/services/aiService.ts:130-132 | a truthy non-array `scenes` hides an array `suitable_scenes` and gives `[]` |
| AiService.NormalizeAll | src/services/aiService.ts:126-133 | the map succeeds exactly when no item is `null`/`undefined`, and then it keeps length and order item by item |
| AiService.ExtractChunks | src/services/aiService.ts:108-133 | definition of the inner `try`; its properties are `ExtractionFailuresAreUniform`, `ExtractedChunksFollowItems`, `EmptyChunksAccepted`, `FenceIsTransparent` and `WrongShapeRejected` |
| AiService.GenerateChunks | src/services/aiService.ts:97-106 | a non-ok reply throws 'Failed to generate chunks'; 'No content in response' is thrown exactly for an ok reply whose content is falsy |
| AiService.ChunksComeFromContent | src/services/aiService.ts:101-133 | records come only from an ok reply with non-empty string content, and they are what extraction yields for it |
| AiService.ExtractionFailuresAreUniform | src/services/aiService.ts:108-137 | once the content is truthy, every de-fence, parse, shape or normalisation failure is 'Failed to parse chunks data', and success returns the extraction |
| AiService.ExtractedChunksFollowItems | src/services/aiService.ts:116-133 | a successful extraction has one record per raw item, in order |
| AiService.EmptyChunksAccepted | src/services/aiService.ts:118-124 | an object with `"chunks": []` is accepted and yields no records |
| AiService.WrongShapeRejected | src/services/aiService.ts:122-124 | parsed JSON that is an object without a `chunks` array fails with 'Failed to parse chunks data' |
| SceneList.FormatLine | src/components/SceneList.tsx:79-84 | definition of the formatting of one line; its properties are `SpeakerLineFormatted` and `SecondColonDropped` |
| SceneList.FormatDialogue | src/components/SceneList.tsx:77-86 | definition of the markdown conversion; its properties are `ColonFreeTextKeepsLines`, `FormatSplitsAtLineBreak` and `EmptyTranscriptFormatsEmpty` |
| SceneList.ColonFreeTextKeepsLines | src/components/SceneList.tsx:77-86 | text without a colon keeps every line as it is, joined by blank lines |
| SceneList.SpeakerLineFormatted | src/components/SceneList.tsx:80-82 | `speaker:content` becomes `**speaker**: content`, both trimmed |
| SceneList.SecondColonDropped | src/components/SceneList.tsx:81-82 | everything from a second colon on is dropped from a formatted line |
| SceneList.FormatSplitsAtLineBreak | src/components/SceneList.tsx:77-86 | lines are formatted independently, so already complete lines keep their formatting as the transcript grows |
| SceneList.EmptyTranscriptFormatsEmpty | src/components/SceneList.tsx:77-86 | an empty transcript formats to the empty string |
| SceneList.DialogueProgress | src/components/SceneList.tsx:89 | dialogue-phase progress lies between 0 and 50 |
| SceneList.ProgressGrowsWithText | src/components/SceneList.tsx:89 | longer text never shows less progress, and 500 characters give 50 |
| SceneList.StreamProgressNeverDecreases | src/components/SceneList.tsx:89 | over a stream's reports the progress never decreases |
| SceneList.ReadConfig | src/components/SceneList.tsx:53-66 | missing settings, unreadable settings and a falsy `baseUrl` or `apiKey` each give their own failure; otherwise both fields are truthy |
| SceneList.FindScene | src/components/SceneList.tsx:68 | `find` gives the first catalogue entry with the id, or nothing when no entry has it |
| SceneList.ScenePrompt | src/components/SceneList.tsx:68-73 | generation returns early exactly when the scene is unknown and no custom prompt is given; a custom prompt wins over the scene title |
| SceneList.Report | src/components/SceneList.tsx:75-90 | definition of the state after one progress report; its properties are `LastReportShows`, `ReportsOnlyTouchDialogue` and `Session.ReportProgress` |
| SceneList.Started | src/components/SceneList.tsx:43-49 | definition of the reset at the start of a generation; its properties are `SettingsFailureClearsScene` and `GenerationSettles` |
| SceneList.Failed | src/components/SceneList.tsx:111-117 | definition of the outer `catch` and `finally`; its properties are `SettingsFailureClearsScene` and `DialogueFailureClearsScene` |
| SceneList.ChunkPhase | src/components/SceneList.tsx:94-117 | definition of the chunk phase; its properties are `ChunkFailureKeepsDialogue`, `GenerationSucceeds` and `Session.ChunkStep` |
| SceneList.DialoguePhase | src/components/SceneList.tsx:71-117 | definition of the dialogue phase and what follows it; its properties are `StreamShowsTranscript`, `DialogueFailureClearsScene` and `Session.DialogueStep` |
| SceneList.Generation | src/components/SceneList.tsx:42-119 | definition of what `generateSceneDialogue` leaves; its properties are `GenerationSettles`, `UnknownSceneReturnsEarly` and `Session.GenerateSceneDialogue` |
| SceneList.SceneClicked | src/components/SceneList.tsx:26-33 | definition of `handleSceneClick`'s effect; its properties are `CustomCardOnlySelects` and `Session.SceneClick` |
| SceneList.CustomSubmitted | src/components/SceneList.tsx:35-38 | definition of `handleCustomSceneSubmit`'s effect; its properties are `CustomInputIsPrompt` and `Session.CustomSceneSubmit` |
| SceneList.WentBack | src/components/SceneList.tsx:152-159 | definition of the back button's effect; its property is `Session.Back` |
| SceneList.LastReportShows | src/components/SceneList.tsx:75-90 | after a run of progress reports only the last one shows |
| SceneList.ReportsOnlyTouchDialogue | src/components/SceneList.tsx:75-90 | progress reports change the dialogue and the progress and nothing else |
| SceneList.GenerationSettles | src/components/SceneList.tsx:42-119 | every generation ends with loading off and the custom input untouched, and it ends idle except after the early return |
| SceneList.SettingsFailureClearsScene | src/components/SceneList.tsx:43-66 | a settings failure shows its error, clears the scene, returns to idle and leaves the reset dialogue, chunks and progress |
| SceneList.UnknownSceneReturnsEarly | src/components/SceneList.tsx:68-69 | an unknown scene without a prompt ends with loading off but the step still at `generating-dialogue` |
| SceneList.StreamShowsTranscript | src/components/SceneList.tsx:72-91 | after a completed stream the shown dialogue is the formatted transcript and the progress is the heuristic for it |
| SceneList.DialogueFailureClearsScene | src/components/SceneList.tsx:111-118 | a dialogue-phase failure shows the error, clears the scene and returns to idle with no chunks; the dialogue streamed so far stays |
| SceneList.ChunkFailureKeepsDialogue | src/components/SceneList.tsx:94-110 | a chunk failure keeps the scene and the formatted dialogue, shows the fixed chunk message, and leaves no chunks, progress 60 and idle |
| SceneList.GenerationSucceeds | src/components/SceneList.tsx:94-104 | success shows the extracted chunks and the formatted dialogue collapsed, with no error, progress 100 and idle |
| SceneList.CustomCardOnlySelects | src/components/SceneList.tsx:27-30 | clicking the custom card only selects it |
| SceneList.CustomInputIsPrompt | src/components/SceneList.tsx:35-38 | blank custom input does nothing; otherwise the untrimmed input is the prompt |
| SceneList.Session.constructor | src/components/SceneList.tsx:16-24 | the initial state of every hook |
| SceneList.Session.ReportProgress | src/components/SceneList.tsx:75-90 | the `onProgress` callback shows the formatted transcript and its progress |
| SceneList.Session.GenerateSceneDialogue | src/components/SceneList.tsx:42-119 | the handler leaves exactly the state `Generation` describes |
| SceneList.Session.DialogueStep | src/components/SceneList.tsx:71-115 | after streaming, a failed dialogue leaves the `Failed` state and a transcript goes on to the chunk phase: exactly the state `DialoguePhase` describes |
| SceneList.Session.StreamStep | src/components/SceneList.tsx:72-91 | returns what `generateDialogue` settles with, and the state after every progress report of the stream has been applied in order |
| SceneList.Session.ChunkStep | src/components/SceneList.tsx:94-118 | given the outcome of `generateChunks`, the chunk phase and the `finally` leave exactly the state `ChunkPhase` describes |
| SceneList.Session.SceneClick | src/components/SceneList.tsx:26-33 | the handler leaves exactly the state `SceneClicked` describes |
| SceneList.Session.CustomSceneSubmit | src/components/SceneList.tsx:35-38 | the handler leaves exactly the state `CustomSubmitted` describes |
| SceneList.Session.Back | src/components/SceneList.tsx:152-159 | the back button clears the scene, chunks, dialogue, step, custom input and progress, and keeps the error, the loading flag and the collapse state |
| SceneList.Session.EditCustomScene | src/components/SceneList.tsx:170 | typing replaces the custom input |
| SceneList.Session.ToggleDialogue | src/components/SceneList.tsx:207 | clicking the header flips the collapse state |
| FileConverter.FirstIndexOf | src/components/FileConverter.tsx:65 | finds the first occurrence of a character, or the character is absent |
| FileConverter.LastIndexOf | src/components/FileConverter.tsx:65 | finds the last occurrence of a character, or the character is absent |
| FileConverter.ExtractJsonObject | src/components/FileConverter.tsx:65 | definition of the greedy `/\{[\s\S]*\}/` match; its properties are `ExtractionSpansOutermostBraces` and `ObjectExtractedWhole` |
| FileConverter.ExtractionSpansOutermostBraces | src/components/FileConverter.tsx:65-70 | a match exists exactly when some `{` comes before some `}`, and it runs from the first `{` to the last `}` inclusive |
| FileConverter.ObjectExtractedWhole | src/components/FileConverter.tsx:65-70 | an object with no `{` before it and no `}` after it is extracted whole, inner braces included |
| FileConverter.Convert | src/components/FileConverter.tsx:18-70 | missing settings or a falsy `baseUrl` or `apiKey` give the configure-API message; unreadable settings fail with the engine's error; a non-ok reply gives 'API 调用失败: ' + statusText; a saved payload is the raw substring of string content |
| FileConverter.SettingsCheckedBeforeRequest | src/components/FileConverter.tsx:23-36 | with unusable settings the outcome is a failure and does not depend on the reply |
| FileConverter.ContentErrors | src/components/FileConverter.tsx:57-68 | falsy content gives the data-format error; string content gives the no-JSON error exactly when no `{` precedes a `}` |
| FileConverter.Uploaded | src/components/FileConverter.tsx:11-92 | definition of the state an upload leaves; its properties are `UploadSettles` and `Converter.HandleFileUpload` |
| FileConverter.UploadSettles | src/components/FileConverter.tsx:70-91 | every upload ends with loading off; exactly the successful ones clear the error, save the raw payload and reset the input |
| FileConverter.Converter.constructor | src/components/FileConverter.tsx:7-9 | the initial state |
| FileConverter.Converter.HandleFileUpload | src/components/FileConverter.tsx:11-92 | without a file nothing changes; otherwise the handler leaves exactly the state `Uploaded` describes |
| FileConverter.Converter.Extract | src/components/FileConverter.tsx:23-70 | the guarded steps, in order, give the outcome `Convert` describes |

## Left out

- The network is not modelled: `fetch`, the request headers and bodies, and the prompts. A reply is a `Response` value. `SceneList` receives the replies as functions of the prompt and of the transcript.
- `TextDecoder` is not modelled. A stream body is the sequence of already-decoded text blocks, plus whether a further `read()` rejects. A frame split across two reads stays split, as it does in the source.
- `JSON.parse` is not modelled; it is the `parse` parameter. JSON numbers are integers.
- JsValues.ToJsString: an integer of magnitude 10^21 or more is written out digit by digit, where JavaScript writes it in exponent form (`1e+21`) after rounding it to a double.
- `localStorage` is a parameter: the stored string, or nothing.
- The scene catalogue (`@/data/scenes`) is not part of this model. It is a parameter holding each scene's id and title.
- The 3000 ms pacing delay is a step that changes no state.
- Concurrency is not modelled. The model assumes no handler runs while a generation is waiting: not the back button, which stays on screen once `selectedScene` is set, not the dialogue toggle, and not typing in the custom input. Under that assumption each handler runs to completion, and applying the `onProgress` calls in order after the stream gives the same final state. A Back click during a generation, after which the later `setDialogue` and `setChunks` calls still land, and overlapping generations are out of scope. React renders between the calls read the state but do not change it.
- `SceneList.DialogueProgress`: progress is computed on exact reals, not on IEEE doubles.
- `SceneList.DialogueProgress`: a string's length is counted in code points, not in UTF-16 code units.
- `'生成对话时出错'` and `'处理文件时发生错误'` are not modelled. They are shown only when a thrown value is not an `Error`, which no modelled step throws.
- An `EngineError` does not carry the engine's message text.
- The Blob download is not modelled: the file name with its timestamp, the object URL and the anchor click. Each successful upload appends its payload to `downloads`.
- `console` logging is left out.
- React rendering is left out, including `getLoadingMessage`.
- `src/components/SettingsForm.tsx`, `src/components/Navbar.tsx` and the page files are not part of this model.
