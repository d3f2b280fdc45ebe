# youtine: exercise analysis and workout routines, modelled in Dafny

youtine saves YouTube workout videos, analyses each one for the exercises it
contains, and groups videos into ordered workout routines. This project models
the core of that system and proves properties of the model.

- **The analysis service.** For a stored Video it:
  - extracts the YouTube id from the URL with a regular expression;
  - fetches the captions and formats them as `[<seconds>s] <text>` lines;
  - asks a language model for a JSON array of exercise segments, with the first
    3000 characters of the transcript in the prompt;
  - writes the outcome (`status`, `segments`, `analysisError`) back to the
    Video, racing the whole run against a 60-second timer.
- **The Video and Routine documents.** Their required, trimmed and defaulted
  fields, and `populate('videos')`.
- **The routine endpoints.** Create, list newest first, read with populated
  videos, partial update, and delete.
- **The routine detail view.** Reordering a routine's videos by drag and drop,
  and the total duration shown in its header.

Modules, one per file:

| file | module | models |
|---|---|---|
| `wrappers.dfy` | `Wrappers` | `Option`, `Result` |
| `js_text.dfy` | `JsText` | the JavaScript string built-ins the core uses: `trim`, number formatting, `indexOf`, `join`, `split` |
| `video_schema.dfy` | `VideoSchema` | the Video document |
| `routine_schema.dfy` | `RoutineSchema` | the Routine document and `populate` |
| `youtube_url.dfy` | `YoutubeUrl` | `extractVideoId` |
| `transcript.dfy` | `Transcript` | `fetchTranscript` |
| `llm_adapter.dfy` | `LlmAdapter` | `analyzeWithLLM` |
| `analysis.dfy` | `Analysis` | `analyzeVideo`, `analyzeVideoWithTimeout`, and the Video store (`class VideoStore`) |
| `routine_routes.dfy` | `RoutineRoutes` | the `/api/routines` endpoints over the Routine store (`class RoutineStore`) |
| `routine_detail_view.dfy` | `RoutineDetailView` | `handleDragEnd` and `totalDuration` |

State the source changes in place is modelled imperatively:
- **The stores.** `VideoStore` and `RoutineStore` are classes whose methods
  reassign a map of documents. Each method's `ensures` gives the new store as a
  function of the old one.
- **`handleDragEnd`.** It copies the list into an `array` and splices it in
  place with two loops. Each loop is proved against the sequence functions
  `Removed` and `Inserted`.

The rest is pure: datatypes, functions and lemmas.

The collaborators the service calls enter as inputs of an `Env`:
- the caption provider;
- the chat-completion call;
- `JSON.parse`;
- whether `OPENAI_API_KEY` was configured.

Which side of the timeout race settles first enters as a `Race`.

## Model

| member | source | states |
|---|---|---|
| JsText.Trim | server/services/aiAnalysis.js:101 | `trim` leaves a string with no whitespace at either end. It is a substring of the input with only whitespace around it. |
| JsText.IsWhitespace | server/services/aiAnalysis.js:101 | Definition: the characters ECMAScript's `trim` and `\s` treat as whitespace (WhiteSpace and LineTerminator). Its use is stated by `Trim`, `TrimKeepsTrimmed` and `IdAt`. |
| JsText.IsLineTerminator | server/services/aiAnalysis.js:22 | Definition: the LineTerminator code points, which `.` does not match. `RunEnd` states how far `.*` reaches with it. |
| JsText.Trimmed | server/models/Routine.js:8-17 | Definition: neither end is whitespace, which is what `trim` leaves (`Trim`, `TrimKeepsTrimmed`). |
| JsText.SkipWhitespace | server/services/aiAnalysis.js:101 | Where `trim` starts: the first position from a given one that is not whitespace, with only whitespace skipped. |
| JsText.SkipWhitespaceBack | server/services/aiAnalysis.js:101 | Where `trim` ends: whitespace is dropped only from the back, and the last character kept is not whitespace. |
| JsText.TrimKeepsTrimmed | server/models/Routine.js:8-17 | The `trim` setter leaves a string that is already trimmed unchanged. |
| JsText.TrimIdempotent | server/models/Routine.js:8-17 | Trimming twice is the same as trimming once. |
| JsText.NatToString | server/services/aiAnalysis.js:42-43 | The seconds are written as a non-empty string of decimal digits. It starts with '0' only when the number is 0, which is written `0`. |
| JsText.DecimalRoundTrip | server/services/aiAnalysis.js:42-43 | Reading back the written seconds gives the same number. |
| JsText.DecimalValue | server/services/aiAnalysis.js:43 | Definition: the number a string of decimal digits denotes. `DecimalRoundTrip` states that it reads back what `NatToString` writes. |
| JsText.IndexOf | server/services/aiAnalysis.js:105 | Finds the first occurrence of a character, or none exactly when the character is absent. |
| JsText.LastIndexOf | server/services/aiAnalysis.js:105 | Finds the last occurrence of a character, or none exactly when the character is absent. |
| JsText.Join | server/services/aiAnalysis.js:44 | `join` starts with the first line, followed by the separator when there is a second line. |
| JsText.Split | server/services/aiAnalysis.js:44 | Splitting always gives at least one piece. |
| JsText.SplitJoin | server/services/aiAnalysis.js:44 | Splitting the `join('\n')` result at newlines gives back the lines, when no line holds a newline. |
| VideoSchema.ParseStatus | server/models/Video.js:28-32 | The `status` enum accepts only a stored name, and returns the status with that name. |
| VideoSchema.StatusRoundTrip | server/models/Video.js:28-32 | Every status survives being stored by name and read back. |
| VideoSchema.StatusName | server/models/Video.js:28-32 | Definition: the stored name of each status. `ParseStatus` and `StatusRoundTrip` state that the enum accepts exactly these names and reads each back. |
| VideoSchema.ValidVideo | server/models/Video.js:8-26 | Definition: `url`, `title` and `thumbnail` present and `url` trimmed. `NewVideo` states that new documents meet it, and `UpdateKeepsStoreValid` that analysis writes keep it. |
| VideoSchema.UrlsUnique | server/models/Video.js:12 | Definition: the `unique` index on `url`, with no two documents sharing a URL. It is part of `Analysis.VideoStore.Valid` and is kept by `UpdateKeepsStoreValid`. |
| VideoSchema.NewVideo | server/models/Video.js:8-51 | A new Video is `pending`, with no segments and no error. The URL is stored trimmed. The document is valid when the required fields are present. |
| RoutineSchema.NewRoutine | server/models/Routine.js:7-26 | A new Routine has its name and description trimmed and the description defaulting to `''`. The document passes the schema exactly when the trimmed name is non-empty. |
| RoutineSchema.ValidRoutine | server/models/Routine.js:8-17 | Definition: a non-empty trimmed `name` and a trimmed `description`. `NewRoutine` states exactly when a new document meets it, and `PatchKeepsValid` that accepted updates keep it. |
| RoutineSchema.Populate | server/models/Routine.js:18-21 | `populate('videos')` replaces each reference by the stored Video, in order, and drops missing references. When every reference resolves, the result has the same ids in the same order. |
| RoutineSchema.PopulateOne | server/models/Routine.js:18-21 | A single reference becomes its stored Video, or nothing when no Video has that id. |
| RoutineSchema.PopulateConcat | server/routes/routines.js:52 | Populating a concatenation is populating each part and concatenating: the order of the references is kept, a repeated reference is populated each time, and a missing one is dropped wherever it is. |
| YoutubeUrl.IdAt | server/services/aiAnalysis.js:22 | The captured group `[^"&?\/\s]{11}` at a position: eleven id characters, or none. |
| YoutubeUrl.IsIdChar | server/services/aiAnalysis.js:22 | Definition: the character class `[^"&?\/\s]`. `IdAt` and `ExtractVideoId` state that every captured id is made of eleven of them. |
| YoutubeUrl.IsVideoId | server/services/aiAnalysis.js:22 | Definition: eleven characters of that class, the only results `ExtractVideoId` can give. |
| YoutubeUrl.HostAt | server/services/aiAnalysis.js:22 | Definition: `youtube.com/` or `youtu.be/` at a position. `MatchAt` and `SkipToHost` state that matches start only there. |
| YoutubeUrl.QueryVAt | server/services/aiAnalysis.js:22 | Definition: `[?&]v=` at a position. `QueryFormFinds` states which one the greedy `.*` settles on. |
| YoutubeUrl.RunEnd | server/services/aiAnalysis.js:22 | How far `.*` reaches: up to the first line terminator. |
| YoutubeUrl.LastSlashThenId | server/services/aiAnalysis.js:22 | The tail `.+\/` + id of the first alternative: when found, an eleven-character id occurring in the URL. |
| YoutubeUrl.SlashTail | server/services/aiAnalysis.js:22 | `.+\/` + id from a position, `.+` greedy up to a line terminator: when found, an eleven-character id occurring in the URL. |
| YoutubeUrl.PathForm | server/services/aiAnalysis.js:22 | The alternative `[^\/]+\/.+\/` + id: when it matches, an eleven-character id occurring in the URL. `PathLinkId` gives the URLs it matches. |
| YoutubeUrl.PrefixForm | server/services/aiAnalysis.js:22 | The alternative `(?:v\|e(?:mbed)?)\/` + id: when it matches, an eleven-character id occurring in the URL. |
| YoutubeUrl.LastQueryThenId | server/services/aiAnalysis.js:22 | The tail `[?&]v=` + id of the third alternative: when found, an eleven-character id occurring in the URL. |
| YoutubeUrl.QueryForm | server/services/aiAnalysis.js:22 | The alternative `.*[?&]v=` + id: when it matches, an eleven-character id occurring in the URL. |
| YoutubeUrl.FirstMatchFrom | server/services/aiAnalysis.js:22-23 | The leftmost match at or after a position: when found, an eleven-character id occurring in the URL, with a host prefix at or after that position. |
| YoutubeUrl.MatchAt | server/services/aiAnalysis.js:22 | A match anchored at a position captures an eleven-character id that occurs in the URL, and starts at a host prefix. |
| YoutubeUrl.ExtractVideoId | server/services/aiAnalysis.js:21-25 | `extractVideoId` returns either nothing, or an eleven-character id that occurs in the URL, which contains a host prefix. |
| YoutubeUrl.SkipToHost | server/services/aiAnalysis.js:22-23 | Positions where no host prefix starts cannot start a match. |
| YoutubeUrl.FirstMatchAt | server/services/aiAnalysis.js:22-24 | The match at the leftmost host prefix, when there is one, is the result. |
| YoutubeUrl.ShortFormAt | server/services/aiAnalysis.js:22 | `youtu.be/` followed by an id matches at once, capturing that id. |
| YoutubeUrl.WatchTailHasNoSlash | server/services/aiAnalysis.js:22 | `watch?v=` and an id, with no '/' and no `[?&]v=` after them, hold no '/', and the `?v=` is the last `[?&]v=`. |
| YoutubeUrl.WatchFormAt | server/services/aiAnalysis.js:22 | After `youtube.com/`, `watch?v=` and an id with no later '/' or `[?&]v=` fail the first two alternatives and match the third with that id. |
| YoutubeUrl.EmbedTailSlashes | server/services/aiAnalysis.js:22 | In `embed/` and an id with no '/' after them, the only '/' is the one ending `embed`. |
| YoutubeUrl.EmbedNoPath | server/services/aiAnalysis.js:22 | After `embed/` and an id with no later '/', the first alternative fails. |
| YoutubeUrl.EmbedPrefix | server/services/aiAnalysis.js:22 | `embed/` and an id match the second alternative, `v/` having failed. |
| YoutubeUrl.EmbedFormAt | server/services/aiAnalysis.js:22 | After `youtube.com/`, `embed/` and an id with no later '/' match with that id. |
| YoutubeUrl.ShortLinkId | server/services/aiAnalysis.js:21-25 | `<pre>youtu.be/<id><rest>` yields the id, whatever `rest` is, when `pre` holds no 'y' and so no earlier host prefix. |
| YoutubeUrl.WatchLinkId | server/services/aiAnalysis.js:21-25 | `<pre>youtube.com/watch?v=<id><rest>` yields the id when `pre` holds no 'y' and `rest` holds no '/' and no `?v=` or `&v=`, so further parameters such as `&t=42s` are allowed. |
| YoutubeUrl.EmbedLinkId | server/services/aiAnalysis.js:21-25 | `<pre>youtube.com/embed/<id><rest>` yields the id when `pre` holds no 'y' and `rest` holds no '/'. |
| YoutubeUrl.NoHostNoId | server/services/aiAnalysis.js:21-25 | A URL with neither host prefix yields no id. |
| YoutubeUrl.QueryFormFinds | server/services/aiAnalysis.js:22 | The greedy `.*[?&]v=` settles on a `?v=` or `&v=` followed by an id when no `[?&]v=` starts after it. |
| YoutubeUrl.RunEndReaches | server/services/aiAnalysis.js:22 | `.*` reaches at least past any stretch without line terminators. |
| YoutubeUrl.QuerySkipsBack | server/services/aiAnalysis.js:22 | The greedy `.*[?&]v=` backs off over the positions where no `[?&]v=` starts. |
| YoutubeUrl.NoPathForm | server/services/aiAnalysis.js:22 | Without a '/' after the host, the first alternative fails. |
| YoutubeUrl.NoSlashNoPath | server/services/aiAnalysis.js:22 | With no '/' after the host, the `[^\/]+\/.+\/` alternative cannot match. |
| YoutubeUrl.SlashSkipsBack | server/services/aiAnalysis.js:22 | The greedy `.+\/` backs off over the positions after the last '/'. |
| YoutubeUrl.FirstSlashAt | server/services/aiAnalysis.js:22 | `[^\/]+` ends at the first '/'. |
| YoutubeUrl.LastSlashAt | server/services/aiAnalysis.js:22 | With no line terminator before it, the greedy `.+\/` settles on the last '/', and captures the id after it. |
| YoutubeUrl.PathFormAt | server/services/aiAnalysis.js:22 | The first alternative captures what `.+\/` + id captures after the first '/'. |
| YoutubeUrl.PathFormLayout | server/services/aiAnalysis.js:22 | A segment without '/', a '/', a stretch without line terminators, a last '/' and an id: the first alternative captures that id. |
| YoutubeUrl.PathMatchAt | server/services/aiAnalysis.js:22 | When the first alternative matches after `youtube.com/`, the regex matches there with that id, before the other alternatives are tried. |
| YoutubeUrl.PathUrlMatches | server/services/aiAnalysis.js:21-25 | With no earlier host prefix, a URL laid out as a path URL yields the id after its last '/'. |
| YoutubeUrl.PathLinkId | server/services/aiAnalysis.js:21-25 | `<pre>youtube.com/<seg>/<mid>/<id><rest>` yields the id when `pre` holds no 'y', `seg` is non-empty without '/', `mid` is non-empty without line terminators and `rest` holds no '/'. |
| Transcript.FormatLines | server/services/aiAnalysis.js:41-43 | One formatted line per caption entry, in entry order. |
| Transcript.FormatEntry | server/services/aiAnalysis.js:42-43 | Definition: the line template `[<floor(offset / 1000)>s] <text>`. `FormatEntryReadsBack` states that the line reads back as the entry's whole seconds and its text. |
| Transcript.FormatTranscript | server/services/aiAnalysis.js:41-44 | Definition: `map(...).join('\n')`. `FormattedLines` states that it splits back into exactly one line per entry when no caption holds a newline, and `FetchTranscript` that it is the success value. |
| Transcript.ParseLine | server/services/aiAnalysis.js:43 | Definition: reading a `[<digits>s] <text>` line back. It is the inverse against which `FormatEntryReadsBack` and `ParseFormattedLine` state the template. |
| Transcript.FetchTranscript | server/services/aiAnalysis.js:32-52 | A provider error, or an absent or empty transcript, is an error with the `Failed to fetch transcript: ` prefix. Otherwise the result is the formatted transcript, and that holds in both directions. |
| Transcript.FormatEntryReadsBack | server/services/aiAnalysis.js:42-43 | Every formatted line reads back as the entry's whole seconds and its text. |
| Transcript.ParseFormattedLine | server/services/aiAnalysis.js:43 | A `[<digits>s] <text>` line reads back as the number and the text. |
| Transcript.FormattedLines | server/services/aiAnalysis.js:41-44 | The formatted transcript splits back into exactly one line per entry, when no caption holds a newline. |
| LlmAdapter.Excerpt | server/services/aiAnalysis.js:70 | `substring(0, 3000)` is the first min(3000, length) characters. |
| LlmAdapter.PromptHead | server/services/aiAnalysis.js:65-69 | Definition: the prompt up to the place where the transcript goes. `PromptEmbedsExcerpt` states that the excerpt starts right after it. |
| LlmAdapter.PromptWith | server/services/aiAnalysis.js:65-86 | Definition: the prompt template, with the instructions after the transcript as a parameter. `PromptEmbedsExcerptWith` states its layout for any instructions that do not start with '.'. |
| LlmAdapter.BuildPrompt | server/services/aiAnalysis.js:65-86 | Definition: the prompt with the fixed instructions. `PromptEmbedsExcerpt` states where the excerpt and the truncation marker sit in it. |
| LlmAdapter.InstructionsStart | server/services/aiAnalysis.js:70-72 | The instructions after the transcript start with a line break, so they cannot be read as the truncation marker. |
| LlmAdapter.ExcerptAfterHeadingWith | server/services/aiAnalysis.js:69-70 | The excerpt sits right after the heading, whatever instructions follow. |
| LlmAdapter.MarkerAfterLongExcerptWith | server/services/aiAnalysis.js:70 | A transcript longer than 3000 characters puts `...(truncated)` after its excerpt and a space. |
| LlmAdapter.NoMarkerAfterShortTranscriptWith | server/services/aiAnalysis.js:70 | A transcript of at most 3000 characters puts no `...(truncated)` after itself and the space. |
| LlmAdapter.PromptEmbedsExcerptWith | server/services/aiAnalysis.js:65-86 | The prompt layout for any instructions not starting with '.': the excerpt after the heading, and the marker exactly for long transcripts. |
| LlmAdapter.PromptEmbedsExcerpt | server/services/aiAnalysis.js:65-86 | The prompt holds the first min(3000, length) transcript characters right after the heading. The truncation marker follows them exactly when the transcript is longer than 3000 characters. |
| LlmAdapter.ShortTranscriptWhole | server/services/aiAnalysis.js:70 | A transcript of at most 3000 characters is in the prompt whole. |
| LlmAdapter.ExtractJsonArray | server/services/aiAnalysis.js:105-109 | `/\[[\s\S]*\]/` yields the span from the first '[' to the last ']'. It yields nothing exactly when no ']' follows a '['. |
| LlmAdapter.OuterBrackets | server/services/aiAnalysis.js:105 | Definition: the first '[' and the last ']' of the reply, with the ']' after the '['. `ExtractJsonArray` states that `/\[[\s\S]*\]/` yields exactly the span between them. |
| LlmAdapter.OuterBracketsUnique | server/services/aiAnalysis.js:105 | The span the regex yields is unique. |
| LlmAdapter.ExtractAtOuterBrackets | server/services/aiAnalysis.js:105 | The outer brackets, wherever they are, determine the span. |
| LlmAdapter.TrimKeepsArraySpan | server/services/aiAnalysis.js:101-105 | Trimming the reply before the match does not change the span found. |
| LlmAdapter.BracketsInsideTrim | server/services/aiAnalysis.js:101 | `trim` removes only whitespace, so every bracket of the reply lies in the trimmed part. |
| LlmAdapter.OuterBracketsOfTrim | server/services/aiAnalysis.js:101-105 | The outer brackets of the trimmed reply are the outer brackets of the whole reply. |
| LlmAdapter.NoSpanAfterTrim | server/services/aiAnalysis.js:101-106 | When the trimmed reply has no array span, neither has the whole reply. |
| LlmAdapter.SpanAfterTrim | server/services/aiAnalysis.js:101-105 | The span found in the trimmed reply is the span found in the whole reply. |
| LlmAdapter.AnalyzeWithLlm | server/services/aiAnalysis.js:60-119 | A missing key is its own error, and a failed call propagates its error. A reply without an array gives no segments. Otherwise the span is parsed, and a parse error propagates. |
| Analysis.Apply | server/services/aiAnalysis.js:161-165 | A partial update changes the three analysis fields and nothing else. |
| Analysis.UpdateById | server/services/aiAnalysis.js:173-177 | `findByIdAndUpdate` changes only the document with that id; an absent id changes nothing. |
| Analysis.Failure | server/services/aiAnalysis.js:173-177 | Definition: the catch write, `failed` with no segments and the message. `AnalysisUpdate` states that it is what a run that throws writes, and `TimeoutOutcome` that the timeout handler writes it too. |
| Analysis.RunPipeline | server/services/aiAnalysis.js:128-158 | Definition: the try block for a found video, giving the update it writes or the message it throws. `SuccessfulRun`, `InvalidUrlRun`, `TranscriptFailureRun`, `NoKeyRun`, `CallFailedRun`, `ReplyWithoutArray` and `MalformedReply` state each of its outcomes. |
| Analysis.AnalysisUpdate | server/services/aiAnalysis.js:125-179 | A run ends in `completed` or `failed`, never `pending`. It fails exactly when the pipeline throws, with no segments and the thrown message. A completed run carries an error only in the no-key soft success. |
| Analysis.Analyzed | server/services/aiAnalysis.js:125-179 | Definition: the store after `analyzeVideo`. `RunTouchesOnlyItsVideo` states that only the analysis fields of that one video change, `AnalyzeTwice` that a second run changes nothing more, and `UpdateKeepsStoreValid` that validity is kept. |
| Analysis.AfterRace | server/services/aiAnalysis.js:186-199 | Definition: the store after `analyzeVideoWithTimeout` for each race outcome. `TimeoutOutcome` and `LateWriteOverridesTimeout` state the two timer-first cases. |
| Analysis.SuccessfulRun | server/services/aiAnalysis.js:156-165 | When every step succeeds, the run stores exactly the parsed segments, in order, and clears the error. |
| Analysis.ReplyWithoutArray | server/services/aiAnalysis.js:105-109 | A reply without an array span completes the run with no segments and no error. |
| Analysis.MalformedReply | server/services/aiAnalysis.js:111 | A malformed span fails the run with the parser's message. |
| Analysis.CallFailedRun | server/services/aiAnalysis.js:114-118 | A chat-completion call that throws fails the run with that error's message: `analyzeWithLLM` rethrows it and the catch writes it. |
| Analysis.InvalidUrlRun | server/services/aiAnalysis.js:136-139 | An unmatched URL fails the run with `Invalid YouTube URL`. |
| Analysis.TranscriptFailureRun | server/services/aiAnalysis.js:141-143 | A transcript failure fails the run with the transcript's message, whether or not a key is configured. |
| Analysis.NoKeyRun | server/services/aiAnalysis.js:145-154 | Without a key, a good transcript ends `completed`, with no segments and the fixed hint. |
| Analysis.RunTouchesOnlyItsVideo | server/services/aiAnalysis.js:125-179 | A run changes at most the analysis fields of its own video. |
| Analysis.UpdateDependsOnUrlAndTitle | server/services/aiAnalysis.js:136-158 | Two videos with the same URL and title get the same write: the try block reads nothing else of the video. |
| Analysis.UpdateIgnoresAnalysisFields | server/services/aiAnalysis.js:136-158 | In particular, what a run writes does not depend on the `status`, `segments` or `analysisError` an earlier run left. |
| Analysis.AnalyzeTwice | server/services/aiAnalysis.js:125-179 | Running the analysis twice with the same collaborators leaves the store as one run does. |
| Analysis.UpdateKeepsStoreValid | server/models/Video.js:8-46 | An analysis write keeps every document valid and the URLs unique. Validity covers the Video's own fields, not the `required` fields of each segment. |
| Analysis.TimeoutOutcome | server/services/aiAnalysis.js:186-199 | When the timer wins, the video is `failed`, with no segments and the fixed timeout text, not the timer's rejection reason. |
| Analysis.LateWriteOverridesTimeout | server/services/aiAnalysis.js:186-199 | The run is not cancelled, so its own later write makes the store end as if the run had won. |
| Analysis.VideoStore.Valid | server/models/Video.js:8-26 | Definition: the store invariant, every document valid and no two sharing a URL. Every `VideoStore` method keeps it. |
| Analysis.VideoStore.constructor | server/models/Video.js:8-51 | A store built from valid documents with unique URLs satisfies the invariant and holds exactly those documents. |
| Analysis.VideoStore.FindByIdAndUpdate | server/services/aiAnalysis.js:173-177 | The store becomes `UpdateById` of the old store, and stays valid. |
| Analysis.VideoStore.TryAnalyze | server/services/aiAnalysis.js:128-167 | A missing video throws `Video not found` and writes nothing. Otherwise the method writes the pipeline's update, or throws its message and writes nothing. |
| Analysis.VideoStore.AnalyzeVideo | server/services/aiAnalysis.js:125-179 | The store becomes `Analyzed` of the old store. |
| Analysis.VideoStore.AnalyzeVideoWithTimeout | server/services/aiAnalysis.js:186-200 | The store becomes `AfterRace` of the old store, for the given race outcome. |
| RoutineRoutes.OrEmpty | server/routes/routines.js:19 | `description \|\| ''` is empty for a falsy value, and the value otherwise. |
| RoutineRoutes.Falsy | server/routes/routines.js:13 | Definition: a missing or empty string, what `!name` and `description \|\| ''` test. `OrEmpty` and `RoutineStore.Create` state what happens on it. |
| RoutineRoutes.PatchRejected | server/routes/routines.js:78-82 | Definition: the `runValidators` rejection, a supplied name that trims to empty. `RoutineStore.Update` states that it gives 500 with the store unchanged, and `PatchKeepsValid` that every other patch keeps a Routine valid. |
| RoutineRoutes.NewestFirst | server/routes/routines.js:38 | Definition: `sort({ createdAt: -1 })`, with `createdAt` never increasing along the list. `RoutineStore.List` states that its result has this order. |
| RoutineRoutes.Distinct | server/routes/routines.js:38 | Definition: no routine listed twice. `RoutineStore.List` and `InsertedMembers` state that the list has no repeats. |
| RoutineRoutes.ApplyPatch | server/routes/routines.js:71-82 | Only the supplied fields are overwritten, strings through the trim setters; `createdAt` is kept. |
| RoutineRoutes.EmptyPatch | server/routes/routines.js:73-76 | An update with no fields changes nothing. |
| RoutineRoutes.PatchTwice | server/routes/routines.js:73-82 | Applying the same update twice is the same as applying it once. |
| RoutineRoutes.PatchKeepsValid | server/routes/routines.js:78-82 | An update the validators accept keeps a valid Routine valid. |
| RoutineRoutes.VideosReplaced | server/routes/routines.js:76 | Sending `videos` replaces the whole list and nothing else. |
| RoutineRoutes.InsertedMembers | server/routes/routines.js:38 | Inserting a new key into a list without repeats adds exactly that key, and the list stays without repeats. |
| RoutineRoutes.RoutineStore.Create | server/routes/routines.js:9-30 | A falsy name gives 400. A name that trims to empty fails `save` with 500. In both cases the store is unchanged. Otherwise the new trimmed Routine, with description `\|\| ''` and no videos, is stored under a fresh id. |
| RoutineRoutes.RoutineStore.List | server/routes/routines.js:36-44 | Every routine appears exactly once, newest `createdAt` first. |
| RoutineRoutes.RoutineStore.NewestFirstPosition | server/routes/routines.js:38 | Inserting at the position found keeps the list newest first. |
| RoutineRoutes.RoutineStore.Get | server/routes/routines.js:50-63 | A missing id gives 404. Otherwise the reply is the routine with its videos populated. |
| RoutineRoutes.RoutineStore.Update | server/routes/routines.js:69-93 | A name that trims to empty gives 500 and a missing id gives 404, both with the store unchanged. Otherwise the patched routine is stored and returned populated. |
| RoutineRoutes.RoutineStore.Delete | server/routes/routines.js:99-112 | A missing id gives 404 and leaves the store unchanged. Otherwise exactly that routine is removed. |
| RoutineRoutes.RoutineStore.Valid | server/models/Routine.js:7-26 | Definition: the store invariant, every document a valid Routine under an id already handed out. Every `RoutineStore` method keeps it. |
| RoutineRoutes.RoutineStore.constructor | server/models/Routine.js:7-26 | A new collection is empty and satisfies the invariant. |
| RoutineDetailView.Removed | client/src/components/RoutineDetailView.jsx:28 | `splice(i, 1)` keeps the items before `i` and shifts the ones after it down by one. |
| RoutineDetailView.Inserted | client/src/components/RoutineDetailView.jsx:29 | `splice(i, 0, x)` puts `x` at `i` and shifts the items from `i` on up by one. |
| RoutineDetailView.Reordered | client/src/components/RoutineDetailView.jsx:27-29 | Definition: the two splices of the drag. `ReorderedIsMoved` states that it equals the independent `Moved`; `ReorderedIsPermutation`, `OthersKeepOrder`, `DraggedLandsAtDestination` and `DragBackUndoes` state its properties. |
| RoutineDetailView.Moved | client/src/components/RoutineDetailView.jsx:27-29 | An independent definition of a drag, position by position rather than by splicing. It keeps the length; `ReorderedIsMoved` states that the two splices compute it. |
| RoutineDetailView.Ids | client/src/components/RoutineDetailView.jsx:32 | The ids of the videos, in order. |
| RoutineDetailView.HandleDragEnd | client/src/components/RoutineDetailView.jsx:24-34 | A drop outside the list sends nothing. Otherwise the ids are sent in the order produced by moving the dragged item to the drop position. |
| RoutineDetailView.SpliceOut | client/src/components/RoutineDetailView.jsx:28 | In-place removal from an array: the array's prefix becomes `Removed`, and the removed item is returned. |
| RoutineDetailView.SpliceIn | client/src/components/RoutineDetailView.jsx:29 | In-place insertion into an array: the array becomes `Inserted`. |
| RoutineDetailView.ReorderedIsMoved | client/src/components/RoutineDetailView.jsx:27-29 | The two splices equal the position-by-position move: the item lands at the destination, and the items in between shift one place towards the source. |
| RoutineDetailView.DraggedLandsAtDestination | client/src/components/RoutineDetailView.jsx:27-29 | The dragged item ends up at the drop index, and the length is unchanged. |
| RoutineDetailView.ReorderedIsPermutation | client/src/components/RoutineDetailView.jsx:27-29 | The drag keeps every item, each as often as before. |
| RoutineDetailView.OthersKeepOrder | client/src/components/RoutineDetailView.jsx:27-29 | The items not dragged keep their relative order. |
| RoutineDetailView.DragBackUndoes | client/src/components/RoutineDetailView.jsx:27-29 | Dragging from the destination back to the source restores the list. |
| RoutineDetailView.IdsOfReordered | client/src/components/RoutineDetailView.jsx:27-32 | Moving the items and then taking their ids is the same as moving the ids. |
| RoutineDetailView.DisplayedTotal | client/src/components/RoutineDetailView.jsx:36 | The header total is 0 without a video list, and the sum of durations otherwise. |
| RoutineDetailView.TotalDuration | client/src/components/RoutineDetailView.jsx:36 | Definition: the `reduce` summing the durations. `TotalOfConcat`, `TotalOfRemoved`, `TotalOfInserted` and `TotalUnchangedByDrag` state its properties. |
| RoutineDetailView.TotalOfConcat | client/src/components/RoutineDetailView.jsx:36 | The total of a concatenation is the sum of the parts' totals. |
| RoutineDetailView.TotalOfRemoved | client/src/components/RoutineDetailView.jsx:28 | Splicing an item out takes its duration off the total. |
| RoutineDetailView.TotalOfInserted | client/src/components/RoutineDetailView.jsx:29 | Splicing an item in adds its duration to the total. |
| RoutineDetailView.TotalUnchangedByDrag | client/src/components/RoutineDetailView.jsx:24-36 | A drag never changes the total duration shown. |
| RoutineDetailView.DragThenSave | client/src/components/RoutineDetailView.jsx:32-33 | When every reference resolves, a drag followed by the PUT it triggers stores the references moved the same way, and nothing else changes. |

## Where the intent and the code differ

In both places below the model follows the code.

- **Timeouts.** A timeout is meant to be final: a slow run should not write
  after it. In `analyzeVideoWithTimeout`, `Promise.race` does
  not cancel the run, so the run's own `findByIdAndUpdate` can land after the
  timeout write. `LateWriteOverridesTimeout` states the result: the store then
  ends as if the run had won.
- **Segment order.** Segments are meant to come out in ascending `timestamp`
  order. The code stores the parsed array as it is;
  `SuccessfulRun` stores exactly the parsed segments, in order.

## Left out

- The caption provider, the OpenAI call and `JSON.parse` are opaque inputs (`Env`).
  - The JSON grammar and the shape checks on the parsed segments are not modelled.
  - A reply whose `content` is null, which makes `.trim()` throw, is folded
    into `CallFailed` with the message of the error thrown.
- Logging (`logger.*`, `console.error`) has no effect on state and is left out.
- `Date.now` is a clock; `createdAt` comes in as a `now` parameter.
- Timing and concurrency of the race:
  - the 60-second duration and the interleaving of several runs are not modelled;
  - which side settles first, and whether the abandoned run's write lands
    afterwards, are inputs (`Race`).
- `VideoStore` holds whole Video documents, but the analysis writes only
  `status`, `segments` and `analysisError`.
  - The Video `unique` URL index is assumed as part of the store invariant,
    because the store's insert path is not part of this model.
  - Video documents are only updated, never created, here.
- Store and network errors are not modelled. This covers a database that is
  down and a malformed ObjectId (a CastError on `:id` or in `videos`), which
  give the other 500 replies. The only 500s modelled are the `required`
  validator failures on a name that trims to empty.
- Request bodies hold only strings or nothing. A non-string `name` (a number,
  an object) and Mongoose's casting of it are not modelled.
- RoutineRoutes.RoutineStore.List: the database's `sort({ createdAt: -1 })` is
  modelled as an insertion loop. The contract fixes the order only up to ties
  in `createdAt`; the database's order between equal timestamps is not modelled.
- RoutineRoutes.RoutineStore.Update: when an update is rejected by the
  validators, the model answers 500 before looking the id up, as Mongoose
  validates `runValidators` updates before running the query.
- RoutineDetailView.HandleDragEnd requires both indices to be positions in the
  list, as the drag-and-drop library supplies them. JavaScript's clamping of
  out-of-range `splice` indices is not modelled.
- Caption offsets are whole milliseconds (`TranscriptEntry.offsetMillis` is a
  `nat`). The provider's offsets are JavaScript numbers and may be fractional;
  for a non-negative offset, `Math.floor(offset / 1000)` gives the same
  seconds either way. Negative offsets are not modelled.
- A segment's `timestamp` is an `int`. The `JSON.parse` input (`Env`) yields
  segments with whole-number timestamps, so fractional timestamps from the
  model's reply are not modelled. The analysis stores the value without
  looking at it.
- `duration` is a `nat` (whole seconds). Fractional and negative durations
  are not modelled. Neither is a missing (`undefined`) one: it would make the
  sum `NaN`, which `|| 0` shows as 0 in the header. Other non-numbers are
  ruled out by the schema's `Number` cast (server/models/Video.js:23-26).
- RoutineDetailView.DragThenSave covers only routines whose references all
  resolve. When one does not, `populate` has already dropped it from the list
  the view holds, so the ids a drag sends leave it out, and the PUT removes
  the dangling reference from the stored routine. No lemma states this case.
- `formatDuration`, the rendering of the view and the other UI handlers
  (`onRemoveVideo`, `onPlayVideo`, `onLogWorkout`) are outside this model.
- `client/src/services/api.js`, the HTTP wrapper that carries the PUT from the
  view to the route, is not part of this model. `DragThenSave` connects
  the two directly.
- Analysis.UpdateKeepsStoreValid: the `required` fields of a segment
  (server/models/Video.js:33-43) are not part of validity. `findByIdAndUpdate`
  (server/services/aiAnalysis.js:161-165) runs no validators, so the analysis
  can store a segment without an `exerciseName`; `SuccessfulRun` stores the
  parsed segments as they are.
- Strings are sequences of Unicode code points. JavaScript counts UTF-16 code
  units, so for text outside the Basic Multilingual Plane the lengths differ:
  - the 3000-character cut of the transcript
    (server/services/aiAnalysis.js:70);
  - the `{11}` and `.` of the id regex.

  A cut that falls inside a surrogate pair is not modelled.
