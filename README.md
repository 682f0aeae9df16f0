# Translation Agent front ends — a Dafny model

The system is a desktop and web front end for a three-stage LLM translator
(initial translation, reflection, improvement). It has four parts:

- a Tk batch translator. It scans a folder of chapter files, sorts them
  naturally, runs up to K translations at a time and saves each result under
  a clean, readable file name;
- a Gradio page that translates one document;
- a Gradio batch page ("local" app) with a global task table;
- a patch module for the OpenAI-compatible client. It loads the client for
  an endpoint, spaces calls to a requests-per-minute budget, picks a timeout
  from the prompt length and maps API errors to user messages.

This project models the logic of those four parts as Dafny values,
functions, lemmas and classes, and proves what each part promises.

| file | module | models |
|---|---|---|
| text.dfy | `Text` | the Python `str` operations used everywhere: `isspace`, `strip`, `split('\n')`, `join`, `in`, ASCII `lower` |
| paths.dfy | `Paths` | `os.path.basename` and `os.path.splitext` (POSIX) |
| cleaning.dfy | `Cleaning` | the blank-line regex and `clean_translation_for_novel`; the copy in app/app_local.py:354-417 is the same code |
| names.dfy | `FileNames` | title preprocessing, the file-name sanitiser, the CJK test, `get_smart_filename`, `translate_filename_to_english`, the upload-name rule and the extension dispatch of `read_doc` |
| natsort.dfy | `NaturalSort` | `natural_sort_files` |
| endpoints.dfy | `Endpoints` | the `model_load` client table, CUSTOM URL normalisation, the connection-test URL and verdict, `update_model` (app/app.py:199-229; app/app_local.py:145-171 has the same rule), `cfg`/`load_config` and the performance presets |
| completion.dfy | `Completion` | the patch module's globals as a `Patch` object, `model_load`, the rate-limited `get_completion`, its timeout tiers and its error classifier |
| webapp.dfy | `WebApp` | `huanik` up to the translator call, `read_doc` with its `uploaded_filename` global, `export_txt`, `switch` |
| localbatch.dfy | `LocalBatch` | `read_uploaded_files`, `start_batch_translation`, the task table and counter, the per-task lifecycle, save-only-completed, the progress count, `clear_all_tasks` |
| dispatcher.dfy | `Dispatcher` | the Tk batch run: `start_translation`, `pause_translation`, `stop_translation`, `run_translation` and the worker `translate_single_file` |

The Tk run is a class `Dispatcher.Run`. Its fields are:

- the task list;
- the FIFO queue of task positions;
- the active pool, bounded by the concurrency K;
- the flags `isTranslating` and `isPaused`;
- the success and failure counters;
- the list of saved positions;
- the phase of the manager thread.

Each manager step (`SubmitInitial`, `Poll`, `Refill`, a drain step,
`FinishRun`) and each worker step (`WorkerBegin`, `WorkerLoad`,
`WorkerProgress`, `WorkerFinish`) is a method. The user actions
(`Start`, `Pause`, `Stop`) are methods too. Any interleaving of these calls
is a run of the program, so a stop can land between any two steps. The
invariant `Run.Valid` holds across all of them. It says:

- the pool never holds more than K tasks;
- the queue is exactly the not-yet-submitted suffix of the task list, in
  list order, so every task is submitted at most once;
- a task's worker state is `Queued` exactly when it is still in the queue;
- the counters never exceed what has left the queue.

The drain after the main loop is the method `DrainAllAsWritten`, and its
corrected form `DrainAllCorrected`. Each takes one pool entry per call with
a drain step method, then calls itself on the rest. Each is proved to
compute its drain function (`DrainAsWritten`, `DrainCorrected`)
over the remaining pool. The functions take the 30-second wait as an oracle
`inTime`; the methods pass an oracle read off the workers, so a future is
in time exactly when its worker has returned. The lemmas about the drain
are stated on the functions.

## Model

| member | source | states |
|---|---|---|
| Cleaning.RemoveBlankLinesLines | app/app.py:62 | the lines of the text after the blank-line regex are exactly the input lines that are not whitespace-only (the last line is kept when it is non-blank) in their order, each verbatim |
| Cleaning.NoBlankLineAfterRemoval | app/app.py:273 | after blank-line removal no line before the last one is empty or whitespace-only |
| Cleaning.MatchesAiMarker | app/app.py:322-328 | the marker scan answers true exactly when the stripped line starts with one of the listed AI lead-in phrases |
| Cleaning.CleanTranslationForNovel | app/app.py:289-352 | the loop that builds the kept lines and the three post-passes computes exactly the reference cleaning `CleanSpec`; an empty input gives "" |
| Cleaning.CleanFormat | app/app.py:337-348 | the cleaned text contains no "\n\n\n", does not start with a newline, and no line of it ends in whitespace |
| Cleaning.CleanKeepsSurvivors | app/app.py:306-334 | the non-empty lines of the cleaned text are exactly the surviving input lines (non-blank, and not a marker among the first three lines) in original order, each with only its trailing whitespace removed |
| Cleaning.LineStep | app/app.py:313-334 | one pass of the line loop appends an empty line for a whitespace-only line, nothing for a marker among the first three lines, and the line itself otherwise |
| Cleaning.NextSurvivor | app/app.py:313-334 | the next surviving line at or after i is a survivor (or the end), and no line from i up to it survives |
| Cleaning.CleanLayout | app/app.py:310-348 | the lines of the cleaned text are the independent layout `Layout` of the stripped input: nothing before the first survivor; each survivor once, right-stripped; between two consecutive survivors one empty line when any whitespace-only line lies between them and none otherwise; after the last survivor one empty line per whitespace-only line, two at most; a single empty line when nothing survives |
| Cleaning.ParagraphBreaks | app/app.py:310-348 | for every surviving line with a later survivor, the cleaned text has the first (right-stripped) at some line j and the second at j+2 after one empty line when a whitespace-only line separates them in the input, and at j+1 otherwise |
| Cleaning.CleanStart | app/app.py:310-340 | the cleaned text starts with the first surviving line, right-stripped: leading blank lines and markers leave nothing; when no line survives the result is "" |
| Cleaning.LayoutBlankRun | app/app.py:315-317 | two paragraph lines separated by two whitespace-only lines come out with exactly one empty line between them |
| Cleaning.LayoutAdjacent | app/app.py:331-337 | two paragraph lines with no blank line between them stay on adjacent lines |
| Cleaning.LayoutTrailingMarker | app/app.py:320-348 | a paragraph line, a blank line and a marker on the third line come out as the paragraph line and one trailing empty line |
| Cleaning.TranslationIsMarker | app/app.py:301 | "Translation:" is one of the listed markers |
| FileNames.SafeNameIff | translation_agent_gui.py:2295-2303 | a name is safe exactly when it contains none of the nine characters the sanitiser replaces |
| FileNames.SanitizeIsSafe | translation_agent_gui.py:2295-2303 | the sanitised name contains none of `: / \ ? * " < > \|` |
| FileNames.SanitizeKeepsSafe | translation_agent_gui.py:2295-2303 | a name that is already safe is returned unchanged |
| FileNames.SanitizeIdempotent | translation_agent_gui.py:2295-2303 | sanitising twice gives the same name as sanitising once |
| FileNames.Cap | translation_agent_gui.py:2299-2301 | the length cap keeps a prefix of the name: the whole name when it has at most 100 characters, and exactly its first 100 characters otherwise |
| FileNames.PreprocessKeepsContent | translation_agent_gui.py:2196-2232 | the content is always a suffix of the result; the result equals the content exactly when the first stripped line counts as a title; otherwise it starts with the file name and a blank line |
| FileNames.TranslatedNameShape | translation_agent_gui.py:2313-2360 | the name always ends in ".txt"; a name without a CJK character comes back unchanged before ".txt"; with CJK, an API answer gives a safe stem of at most 100 characters and an API failure gives the sanitised original |
| FileNames.SmartFilenameShape | translation_agent_gui.py:2268-2311 | a chapter-like first line of the translation gives a safe stem of at most 100 characters; otherwise the name is the one `translate_filename_to_english` gives |
| FileNames.ReplaceNonWord | app/app.py:254 | the result has the input's length, keeps word characters and '-' in place and puts '_' everywhere else |
| FileNames.EnglishName | app/app.py:254-257 | the download name is non-empty, starts with an ASCII letter and holds only word characters and '-'; an empty stem or one not starting with an ASCII letter gives "translated"; any other stem gives the stem with every character other than a word character or '-' replaced by '_', element by element; the name equals the stem exactly when the stem already has that shape |
| FileNames.EnglishNameExamples | app/app.py:254-257 | "my file" gives "my_file" and "第一章" gives "translated" |
| FileNames.ChooseExtractorCases | app/app.py:260-275 | a path is accepted exactly when its basename has a dot and its lower-cased extension is whitelisted; pdf goes to the PDF extractor, docx to the Word extractor, the rest to the text extractor; a rejected extension is named in the error |
| FileNames.BareNameRejected | app/app.py:260-261 | a name without extension is always rejected |
| NaturalSort.SplitKeyAlternates | translation_agent_gui.py:1476-1481 | the sort key alternates text parts and integer parts, starting and ending with text |
| NaturalSort.KeysComparable | translation_agent_gui.py:1476-1481 | two keys have parts of the same kind at each common position, so comparing them never mixes text with numbers |
| NaturalSort.KeyLessOrder | translation_agent_gui.py:1483 | the key order is irreflexive, transitive, total on distinct keys and asymmetric |
| NaturalSort.SortByPermutes | translation_agent_gui.py:1483 | sorting returns a permutation of its input |
| NaturalSort.SortBySorted | translation_agent_gui.py:1483 | sorting returns a list ordered by the key |
| NaturalSort.SortByStable | translation_agent_gui.py:1483 | files with equal keys keep their input order |
| NaturalSort.NaturalSortCorrect | translation_agent_gui.py:1472-1483 | `natural_sort_files` is a stable, sorted permutation of its input by the basename key |
| NaturalSort.LeadingZerosTie | translation_agent_gui.py:1479-1481 | "ch02" and "ch2" have the same key |
| NaturalSort.NumbersCompareAsIntegers | translation_agent_gui.py:1479-1481 | "ch2" comes before "ch10" and not the other way round |
| NaturalSort.ChapterSort | translation_agent_gui.py:1472-1483 | sorting ["ch10", "ch2"] gives ["ch2", "ch10"]; "ch02" and "ch2" keep their input order either way |
| Endpoints.NormalizeCustomAsWritten | app/patch.py:58-63 | the CUSTOM base URL as written always ends in "/v1" and starts with the stripped input |
| Endpoints.AsWrittenIdempotent | app/patch.py:58-63 | normalising the normalised URL again changes nothing |
| Endpoints.AsWrittenDoublesVersion | app/patch.py:58-63 | a URL ending in "/v1/" becomes "…/v1/v1", unlike the same URL without the slash (Finding 1) |
| Endpoints.AsWrittenDoublesVersionExample | app/patch.py:58-63 | "https://h/v1/" becomes "https://h/v1/v1" |
| Endpoints.NormalizeCustom | app/patch.py:58-63 | the corrected normalisation always ends in "/v1" |
| Endpoints.NormalizeCustomIgnoresTrailingSlash | app/patch.py:58-63 | with the correction a trailing slash no longer changes the result |
| Endpoints.NormalizeCustomIdempotent | app/patch.py:58-63 | the corrected normalisation is idempotent |
| Endpoints.NormalizationsAgree | app/patch.py:58-63 | the correction differs from the code only for URLs ending in "/" |
| Endpoints.KeyOrEnv | app/patch.py:44 | a supplied key wins; an empty key falls back to the environment variable |
| Endpoints.ClientFor | app/patch.py:40-72 | loading succeeds exactly when the endpoint's own checks pass and the OpenAI constructor accepts the arguments they produce; on success the client is those arguments; on failure the message is the endpoint's ValueError or else the constructor's error |
| Endpoints.KeylessLoadFails | app/patch.py:42-72 | for Groq, TogetherAI or an unknown endpoint with no supplied key and neither the endpoint's variable nor OPENAI_API_KEY set, the constructor (with the openai package's OPENAI_API_KEY fallback) refuses and loading fails with its "api_key must be set" error |
| Endpoints.CustomRequirements | app/patch.py:52-64 | only CUSTOM is refused before the constructor is reached: exactly when its base URL or key is empty, with the base-URL error checked first; the arguments handed to the constructor for CUSTOM are the supplied key and a base URL ending in "/v1" |
| Endpoints.BlankCustomBase | app/patch.py:53-63 | a whitespace-only CUSTOM base URL passes the emptiness check and the constructor is handed the base URL "/v1" |
| Endpoints.FixedBaseUrls | app/patch.py:42-68 | the constructor is handed the fixed base URLs of Groq, TogetherAI and Ollama, and for Ollama the key "ollama" |
| Endpoints.SuppliedKeyWins | app/patch.py:42-72 | for Groq, TogetherAI and unknown endpoints no check of model_load refuses; the constructor is handed the supplied key when there is one and the endpoint's environment variable otherwise |
| Endpoints.OpenAIIgnoresArguments | app/patch.py:40-41 | for OpenAI the constructor's arguments do not depend on the supplied base URL or key, only on OPENAI_API_KEY |
| Endpoints.TestUrlUsesCorrectedBase | translation_agent_gui.py:1595-1603 | the connection test builds its URL from the corrected normalisation plus "/chat/completions" |
| Endpoints.TestAndClientDisagree | translation_agent_gui.py:1595-1603 | for a base ending in "/v1/" the test URL and the base URL handed to the client disagree: the test passes while the client posts to "…/v1/v1" |
| Endpoints.TestUrlEndpoints | translation_agent_gui.py:1595-1613 | a test URL exists exactly for OpenAI, Groq, TogetherAI and a CUSTOM endpoint with a base URL, and it always ends in "/v1/chat/completions" |
| Endpoints.Prefix | translation_agent_gui.py:1713 | `s[:n]` is a prefix of s: the whole string when it has at most n characters, and exactly its first n characters otherwise |
| Endpoints.TestConnectionPasses | translation_agent_gui.py:1644-1714 | the test passes exactly when a URL exists and the reply is HTTP 200 with choices; any other status is reported as "HTTP <status>: …" |
| Endpoints.DeadlineShownAsGenericFailure | translation_agent_gui.py:1661-1663 | when no reply comes within 20 seconds the message holds no "timeout", so it is reported as a generic failure with its first 50 characters |
| Endpoints.UpdateModelDecision | app/app.py:211-229 | the model field is kept exactly while loading config or when it holds a non-blank name other than the endpoint default; otherwise it becomes the default; the base field is visible exactly for CUSTOM |
| Endpoints.UpdateModelStable | app/app.py:211-229 | applying the rule again to its own result keeps that result |
| Endpoints.CustomModelSurvivesSwitch | app/app.py:216-219 | a non-blank custom name that is no endpoint's default survives every endpoint switch |
| Endpoints.Cfg | app/app.py:150-156 | `cfg` returns either the default or the stored value |
| Endpoints.CfgFallback | app/app.py:150-156 | the default is used exactly for a missing key, None or ""; False and 0 are kept |
| Endpoints.LoadConfigDefaults | app/app.py:140-196 | a file whose every value is None or "" loads the same first-endpoint values as no file |
| Endpoints.LoadConfigVisibility | app/app.py:140-196 | the base-URL field is visible exactly when the loaded endpoint is CUSTOM |
| Endpoints.PerformancePreset | translation_agent_gui.py:836-869 | a preset exists exactly for the three modes 快速, 平衡 and 稳定 |
| Endpoints.PresetsOrdered | translation_agent_gui.py:840-866 | from fast to stable, the timeout and retries strictly rise while concurrency and rpm strictly fall |
| Completion.TimeoutFor | app/patch.py:133-139 | the timeout is one of 300, 600 and 900 seconds |
| Completion.TimeoutMonotone | app/patch.py:133-139 | a longer prompt never gets a shorter timeout |
| Completion.TimeoutTiers | app/patch.py:133-139 | 300 exactly below 2000 characters, 900 exactly from 8000, and the minutes shown are 5, 10 or 15 |
| Completion.ClassifyIsFirstMatch | app/patch.py:186-199 | the classifier is the first matching rule of the ordered table (timeout, 404, 401, 429, 5xx, else unexpected) |
| Completion.ClassifyPriority | app/patch.py:188-193 | a timeout wins over every code, and 404 wins over 401 |
| Completion.EmptyReplyIsUnexpected | app/patch.py:183-199 | the empty-choices error raised inside the try matches no rule and is re-wrapped as an unexpected error |
| Completion.ErrorMessageKeepsDetail | app/patch.py:186-199 | every classified message carries the original error text, at its end except for server errors |
| Completion.WaitBeforeCall | app/patch.py:83-89 | the wait is never negative; it is zero or exactly fills the gap to 60/rpm since the last call; with rpm > 0 the call never starts sooner than 60/rpm after the last one ended |
| Completion.BuildRequest | app/patch.py:128-153 | the request uses the model, temperature and JSON mode of the loaded settings, not the call's arguments, and the prompt-length timeout |
| Completion.Answer | app/patch.py:154-156 | a reply is returned exactly when it has at least one choice; an empty choice list becomes the unexpected-error message |
| Completion.NoClientIsUnexpected | app/patch.py:186-199 | calling before any client is loaded is classified as an unexpected error |
| Completion.Patch.constructor | app/patch.py:15-20 | the module starts with RPM 60, empty model and endpoint, temperature 0.3, JSON mode off, no client and no last call |
| Completion.Patch.ModelLoad | app/patch.py:24-72 | the five globals are overwritten on every load, even a failing one; the client is the table's client on success and the previous one on failure |
| Completion.Patch.GetCompletion | app/patch.py:81-199 | the settings are re-read on every call; the wait is the rate limiter's; the stamp moves to the call's end only when the call returns |
| Completion.SpacingHolds | app/patch.py:81-93 | over any sequence of calls, each call starts at least 60/rpm after the end of the last call that returned, with rpm read afresh for each |
| Completion.StampAdvances | app/patch.py:91-92 | the stamp seen by the next call is the end of the call before it when that returned, and unchanged otherwise |
| WebApp.LoadFailureMessage | app/app.py:53-60 | every load-failure message ends with the original error text |
| WebApp.LoadFailureOrder | app/app.py:55-58 | an error naming both 404 and 401 is reported as an endpoint (404) error |
| WebApp.CustomErrorsAreLoadFailures | app/app.py:59-60 | the two CUSTOM errors of `model_load` are reported as plain load failures |
| WebApp.Huanik | app/app.py:46-62 | an empty text or equal languages is rejected before the model is touched; otherwise the settings are set, the client is replaced exactly when loading succeeds, the rate-limit stamp is kept, a load failure is mapped to its message, and the text handed on has its blank lines removed |
| WebApp.ReadDocAccepts | app/app.py:232-275 | a document is read exactly when the path is non-empty, exists, has a dot in its basename and a whitelisted extension; the text has no blank line before its last |
| WebApp.ZeroPad | app/app.py:374 | `{n:06d}`: the result is the digits padded on the left with zeros to at least six characters |
| WebApp.App.constructor | app/app.py:22 | no upload name is recorded at start |
| WebApp.App.ReadDoc | app/app.py:232-275 | the result is the reference `read_doc` outcome; the download name is recorded as soon as the path exists, before the extension check, so a rejected file still renames the next export |
| WebApp.App.ExportTxt | app/app.py:355-384 | an empty translation hides the download box; otherwise a makedirs error propagates and a write error hides the box, so a file is written exactly when the translation is non-empty and neither fails; the text written is the cleaned translation; the name is the upload name plus ".txt", or "translated_" and the zero-padded count of existing .txt files |
| WebApp.Switch | app/app.py:387-401 | the swap exchanges the two languages |
| WebApp.SwitchTwice | app/app.py:387-401 | swapping twice restores the panel when there is an output and a source text; with no output the text stays in the source box |
| LocalBatch.Uploaded | app/app_local.py:174-216 | the accepted-file list is never longer than the upload list |
| LocalBatch.ReadUploadedFiles | app/app_local.py:174-216 | the loop returns exactly the reference accepted list, in upload order |
| LocalBatch.EntryKeptIff | app/app_local.py:181-214 | a file is kept exactly when it exists, has a whitelisted extension, extracts without raising and is non-blank after blank-line removal; its entry is the name without extension and the cleaned text |
| LocalBatch.UploadedTextsClean | app/app_local.py:204-212 | every kept text is non-blank and has no blank line before its last line |
| LocalBatch.UploadedPrefix | app/app_local.py:181-216 | uploading more files only appends entries; earlier entries stay in place |
| LocalBatch.TranslationTask.constructor | app/app_local.py:38-51 | a new task is waiting, at progress 0, with empty outputs and message and no times |
| LocalBatch.TranslateSingleFile | app/app_local.py:221-273 | the task ends Completed exactly when loading and translating both succeed, at 100 with the three outputs; otherwise Failed at 0 with the first error's message and the outputs untouched; both times are set either way; the patch's settings are overwritten, its client is replaced exactly when loading succeeds and its rate-limit stamp is kept |
| LocalBatch.TaskIdInjective | app/app_local.py:308-309 | "task_n" determines n |
| LocalBatch.Validate | app/app_local.py:287-298 | an empty file list is always the first error; passing means a folder name, both languages, and different languages |
| LocalBatch.Batch.AddTask | app/app_local.py:308-312 | the counter rises by one and the new task sits under a key that was free |
| LocalBatch.Batch.AddRecorded | app/app_local.py:308-312 | one more pair becomes a task under the next counter value; the tasks made so far and every earlier task stay in place, and the keys are exactly the earlier keys plus the new ids |
| LocalBatch.Batch.CreateTasks | app/app_local.py:306-312 | one task per entry under consecutive new counter values, in entry order; every earlier task stays in place, and the keys are exactly the earlier keys plus the new ids |
| LocalBatch.Batch.StartBatch | app/app_local.py:276-312 | a failed check creates nothing and returns its message; when the checks pass and nothing was read it creates nothing and returns the no-content message; otherwise one task per readable file under fresh ids and the started message, with the keys exactly the earlier keys plus those ids |
| LocalBatch.Batch.Launch | app/app_local.py:306-350 | creates the tasks for the read files under fresh ids, keeps every earlier task, adds no other key, and reports their number |
| LocalBatch.Batch.ClearAllTasks | app/app_local.py:501-505 | the table empties and the counter stays, so later ids stay new |
| LocalBatch.Batch.ProgressSummary | app/app_local.py:440-463 | no summary exactly for an empty table; otherwise the completed count is the number of tasks whose status is Completed, out of all tasks |
| LocalBatch.Batch.CountCompleted | app/app_local.py:451-463 | the loop counts exactly the tasks whose status is Completed |
| LocalBatch.Batch.OnTaskFinished | app/app_local.py:336-342 | only a Completed task is written, as its name plus "_translated.txt" with the cleaned final translation; a save error sets SaveFailed with "保存文件时出错: " and the error and leaves the task's other fields alone; on every other path the task is unchanged; other tasks are left alone |
| Dispatcher.StartCheck | translation_agent_gui.py:1736-1760 | the start checks run in source order: busy, no scan, no key, no folder, folder creation; the start proceeds exactly when none fails |
| Dispatcher.PreparedTasks | translation_agent_gui.py:1786-1798 | the k-th prepared task has id task_{k+1}, non-empty content, status waiting, progress 0 and is queued |
| Dispatcher.PreparedSnoc | translation_agent_gui.py:1789-1798 | a file with content appends exactly one new task; one without appends nothing |
| Dispatcher.PreparedIdsDistinct | translation_agent_gui.py:1794-1795 | prepared task ids are pairwise distinct |
| Dispatcher.PrepareTasks | translation_agent_gui.py:1786-1804 | the loop builds exactly the prepared task list, every task queued |
| Dispatcher.StoppedCases | translation_agent_gui.py:1845-1848 | after a stop no task is waiting or translating; exactly those become Cancelled with "用户停止翻译"; progress, outputs and every other task are unchanged; a second stop changes nothing |
| Dispatcher.StopAll | translation_agent_gui.py:1845-1848 | every task becomes its stopped form, each at its own position |
| Dispatcher.CallbackProgressBounds | translation_agent_gui.py:2093-2097 | callback progress starts at 20, reaches 100 at the end, stays within 20..100 and never falls as the count rises |
| Dispatcher.WorkerBegins | translation_agent_gui.py:2061-2071 | a worker that starts while translating sets Translating, the start time and progress 10; the text it sends ends with the content, and equals it exactly when the first line counts as a title |
| Dispatcher.WorkerEnds | translation_agent_gui.py:2075-2181 | a started worker ends Completed exactly when loading and translating succeed, with progress 100 and the outputs; otherwise Failed at 0 with the error; the end time is set either way; a stop during the work does not change that status |
| Dispatcher.WorkerCancelled | translation_agent_gui.py:2057-2059 | a worker that starts after a stop returns Cancelled without doing work |
| Dispatcher.CollectOneCases | translation_agent_gui.py:1938-1951 | Completed counts a success and is saved (or becomes SaveFailed with the message); Failed counts a failure; any other status counts as neither; no other task changes |
| Dispatcher.StoppedWorkStillSaved | translation_agent_gui.py:1987-1995 | a task cancelled by a stop whose worker still finishes successfully is counted and saved |
| Dispatcher.CollectAllBounds | translation_agent_gui.py:1938-1958 | collecting a batch never lowers a counter and raises them by at most the batch size; workers are left as they are |
| Dispatcher.DoneOf | translation_agent_gui.py:1927-1930 | the finished futures are the pool members whose worker has returned |
| Dispatcher.RunningOf | translation_agent_gui.py:1939 | the pool left after collection is the members still running |
| Dispatcher.PoolSplit | translation_agent_gui.py:1927-1939 | the finished and the running members partition the pool |
| Dispatcher.PoolSplitSameWorkers | translation_agent_gui.py:1927-1939 | the split depends only on the workers' states |
| Dispatcher.FinalMessage | translation_agent_gui.py:2028-2031 | the final status starts with "✅" exactly when nothing failed |
| Dispatcher.DrainAsWrittenCrashes | translation_agent_gui.py:1987-2010 | the drain as written ends with "❌ 翻译失败: name 'concurrent' is not defined" exactly when some remaining task misses its 30-second wait; otherwise it equals the corrected drain (Finding 2) |
| Dispatcher.DrainTimeoutExample | translation_agent_gui.py:1987-2003 | with a slow task ahead of a finished one, the drain as written crashes without saving the finished task, while the corrected drain saves it and counts one success and one failure |
| Dispatcher.DrainCorrected | translation_agent_gui.py:2000-2003 | the intended drain: a task that misses its wait becomes Failed with "任务最终等待超时" and counts a failure |
| Dispatcher.DrainCorrectedCounts | translation_agent_gui.py:1987-2010 | the corrected drain counts at least one failure per timed-out task and never lowers the success count |
| Dispatcher.Run.constructor | translation_agent_gui.py:35 | a new run is idle, with no tasks and the concurrency MAX_CONCURRENT_TASKS |
| Dispatcher.Run.Start | translation_agent_gui.py:1736-1817 | a failed check changes nothing; otherwise the tasks are the prepared list and the counters reset; with no content the run ends with the source's message, else it is translating, unpaused, with concurrency K |
| Dispatcher.Run.Reset | translation_agent_gui.py:1896-1900 | the task list is replaced by the given queued tasks, the queue lists them all in order, the pool, saves and counters are empty, the flags stay |
| Dispatcher.Run.Pause | translation_agent_gui.py:1819-1830 | the pause flag flips and nothing else changes |
| Dispatcher.Run.Stop | translation_agent_gui.py:1832-1848 | both flags drop and every task becomes its stopped form; queue, pool and counters are unchanged |
| Dispatcher.Run.SubmitNext | translation_agent_gui.py:1966-1969 | the head of the queue moves to the pool and its worker becomes Submitted |
| Dispatcher.Run.SubmitInitial | translation_agent_gui.py:1906-1913 | min(K, n) tasks in queue order move to the pool while translating, none otherwise |
| Dispatcher.Run.SubmitUpTo | translation_agent_gui.py:1906-1913 | n tasks in queue order move to the pool while translating, none after a stop; only their workers change |
| Dispatcher.Run.WorkerBegin | translation_agent_gui.py:2055-2071 | the submitted task takes its begin step: Cancelled after a stop, otherwise Translating at 10 |
| Dispatcher.Run.WorkerLoad | translation_agent_gui.py:2074-2084 | the patch settings are overwritten, the client is replaced exactly when loading succeeds, the rate-limit stamp is kept, and the task fails with the load error or moves to progress 20 |
| Dispatcher.Run.WorkerProgress | translation_agent_gui.py:2088-2097 | while translating the task's progress is the callback value; after a stop it is unchanged |
| Dispatcher.Run.WorkerFinish | translation_agent_gui.py:2131-2181 | the task takes its finished form from the translator's outcome |
| Dispatcher.Run.Poll | translation_agent_gui.py:1916-1958 | with an empty pool or after a stop the loop exits to the drain; while paused nothing changes; otherwise the returned tasks are collected in pool order and leave the pool; the concurrency, the submitted count and the drain position never change |
| Dispatcher.Run.PollCorrected | translation_agent_gui.py:1916-1958 | the corrected loop test: the loop goes on while translating and either the pool or the queue holds tasks; an empty pool with a waiting queue goes to the refill instead of the drain; it exits to the drain only after a stop or with both pool and queue empty (Finding 3) |
| Dispatcher.Run.Refill | translation_agent_gui.py:1962-1977 | while translating and not paused, queue tasks move to the pool until it holds K or the queue is empty; the status line reports processed, successes, failures and the rest |
| Dispatcher.Run.FillPool | translation_agent_gui.py:1962-1969 | queue tasks move to the pool, in order, until it is full, the queue is empty, the run is paused or stopped |
| Dispatcher.Run.DrainStepAsWritten | translation_agent_gui.py:1987-2000 | a returned task is collected; a task still running makes the run end with the NameError message and both flags down |
| Dispatcher.Run.DrainStepCorrected | translation_agent_gui.py:1987-2003 | a returned task is collected; a task still running becomes a timed-out failure |
| Dispatcher.Run.DrainAllAsWritten | translation_agent_gui.py:1987-2010 | the drain loop as written computes exactly the as-written drain function over the remaining pool, with the timeout read off the workers: its tasks and counts, and the NameError end when it crashes |
| Dispatcher.Run.DrainAllCorrected | translation_agent_gui.py:1987-2003 | the drain loop as intended computes exactly the corrected drain function over the remaining pool, with the timeout read off the workers |
| Dispatcher.Run.FinishRun | translation_agent_gui.py:2012-2031 | both flags drop and the final statistics message is shown |
| Dispatcher.PausedRefillEndsRun | translation_agent_gui.py:1915-1977 | as written, a pause that lands after a poll empties the pool and before the refill ends the run with the success message while every queued task is still waiting (Finding 3) |
| Dispatcher.PausedRefillResumes | translation_agent_gui.py:1915-1977 | with the corrected loop test the same pause keeps the loop alive, and after resuming the refill submits the head of the queue (Finding 3) |

## Left out

- Tk and Gradio widgets, bindings, HTML/CSS/JS, message boxes and clipboard are user interface. The yes/no dialog and the tree selection of `start_translation` are modelled as the already-chosen list of (path, content) pairs; the scanned-file count is a parameter.
- `read_file_content` and the extractors (`extract_pdf`, `extract_docx`, `extract_text`) live in the unseen `process` module. Their output is a parameter; a raising extractor is `None`.
- The translator (`translator`, `translator_sec`, the chunking and the three prompts in `translation_agent.utils`) is not part of this model. Its outcome is a parameter.
- Thread pools, futures, locks, `threading.Thread` and `time.sleep` polling are concurrency. Completion is an event (a worker step), and the manager's steps are atomic. Clock readings are `real` parameters.
- The network (`requests.post`, the OpenAI client) is foreign code. Replies and errors are parameters. The outcome of the `openai.OpenAI` constructor is the `construct` parameter of `Endpoints.ClientFor`: it maps the arguments model_load hands over to an optional error. `Endpoints.KeyFallback` renders the package's documented fallback on OPENAI_API_KEY and its error when no key is found; the constructor's other checks are not modelled.
- Files, folders, the JSON config file, `glob`, `os.makedirs` and environment variables are I/O, modelled as parameters and results. A makedirs failure is an optional error text, a save failure an optional error per task, the environment a map. `save_config`, `save_as_docx` and `open_output_folder` are not modelled.
- The monkey-patching of `process.progress` and `utils.get_completion` is global module mutation. The progress callback is modelled directly as a worker step.
- Elapsed-time strings, the HTML of the progress views and float formatting are display only.
- Dispatcher.CallbackProgress: the source computes `int((current / total) * 80)` in floating point. The model uses the integer floor `current * 80 / total`, which may differ by one where the float product rounds below an integer.
- Dispatcher.Run.WorkerProgress: requires total > 0. A zero total would make the source raise ZeroDivisionError inside the worker; that path is not modelled.
- Dispatcher.Run.Start: requires that a stopped run has wound down (translating, idle or ended). In the source a new run may start while the old manager thread is still draining; two interleaved runs are not modelled.
- Dispatcher.Run.Start: requires a concurrency of at least 1. ThreadPoolExecutor raises ValueError for 0, and that path is not modelled.
- The `except Exception` branches of the main loop (translation_agent_gui.py:1953-1958, 1979-1983) and of the drain (2006-2010) are not modelled. Nothing inside them can raise in the model, and as written the drain's handler list itself raises NameError before reaching them.
- The outer handler of `run_translation` (2033-2051) is modelled only for the NameError the drain raises (`AbortMessage`); no other exception arises in the model.
- The Tk save (`save_as_txt` with `get_smart_filename`) is modelled on its own in `FileNames`. `Dispatcher.Run` records only which task positions were saved.
- The tasks of `Dispatcher.Run` are values in a sequence. The source shares task objects between the table, the queue and the futures; here a position in the list stands for that shared object.
- `LocalBatch`: the intermediate statuses of app_local's worker (translating at 10 and 20) are not separate steps; `TranslateSingleFile` runs the whole worker at once, so the progress view never sees a task mid-translation.
- `start_batch_translation` starts a background thread. Launching the workers is left to the caller of `Batch.StartBatch`; `Batch.OnTaskFinished` is the per-result step of `run_translations`, and the `except` at app/app_local.py:343-345 is not reachable in the model.
- `save_config` in both Gradio apps is I/O and is not modelled; the `top_p=1` request field is constant and not modelled.
- NaturalSort.SplitKey: the regex `\d` and `int()` are modelled for the ASCII digits 0-9 only (`IsDigit`). Python also counts other Unicode decimal digits, such as full-width '１', so a name with those digits sorts its digits as text here and as a number in the source.
- Python's `str.lower()` is modelled for ASCII only, and the regex class `\w` as ASCII letters, digits, '_' and the CJK block U+4E00–U+9FFF. Names with other non-ASCII letters may be treated differently from the source.
- `os.path` is modelled as POSIX: the basename splits on '/' only.
- The performance mode handler ends with an UnboundLocalError for an unknown mode. `Endpoints.PerformancePreset` returns `None` for it instead.
- The connection test's checks for an empty key or model (translation_agent_gui.py:1556-1562), its progress texts and the 15-second request timeout are user interface or network and are not modelled.
- Completion.Answer: the re-raised message of a `gr.Error` caught by the same handler is taken to be its text, `str(gr.Error(m)) == m`. `EmptyReplyIsUnexpected` and `NoClientReport` rest on the same reading. Gradio's `Error` is not part of this model; if `str()` gave a quoted form instead, the message would change but not which branch classifies it.
- `process.model_load` (translation_agent_gui.py:25-27 and 2076, app/app.py:8-13 and 52, app/app_local.py:18-23 and 235) lives in the unseen `process` module, which is not part of this model. The model assumes that `process` hands on app/patch.py's `model_load` unchanged, so `WebApp.Huanik`, `Dispatcher.Run.WorkerLoad` and `LocalBatch.TranslateSingleFile` call `Completion.Patch.ModelLoad` where the source calls `process.model_load`.

## Findings

| source | as written | input that shows it | evidently intended | confidence | as-written member | corrected member |
|---|---|---|---|---|---|---|
| app/patch.py:58-63 | a CUSTOM base URL ending in "/" gets "v1" appended even when it already ends in "/v1/" | "https://h/v1/" becomes "https://h/v1/v1"; the connection test (translation_agent_gui.py:1600) strips the slash first and tests "https://h/v1/chat/completions", so the test passes while translation posts to the wrong path | drop trailing slashes first, then add "/v1" unless the URL already ends with it, as the connection test does | high, not executed | Endpoints.AsWrittenDoublesVersion | Endpoints.NormalizeCustomIgnoresTrailingSlash |
| translation_agent_gui.py:2000 | the drain catches `concurrent.futures.TimeoutError`, but the module imports only `ThreadPoolExecutor` and `as_completed` from `concurrent.futures`, so the name `concurrent` is unbound there | any run where a task is still working 30 seconds after the main loop ends (for example because the user pressed stop) raises NameError: the run ends with "❌ 翻译失败: name 'concurrent' is not defined" and the remaining finished tasks are never counted or saved | count the task as failed with "任务最终等待超时" and go on draining | high, not executed | Dispatcher.DrainAsWrittenCrashes | Dispatcher.DrainCorrectedCounts |
| translation_agent_gui.py:1915-1977 | the main loop runs only while the pool holds futures, and the refill stops at a pause | a pause that lands after a poll has collected the last running task and before the refill: the refill submits nothing, the loop test finds the pool empty, the drain has nothing to wait for, and the run ends with its normal "翻译完成" message (starting with "✅" when nothing failed) while every queued task is still waiting (等待中) and was never translated | keep the loop going while translating and either the pool or the queue holds tasks, so the refill runs again once the pause is over | medium, not executed | Dispatcher.PausedRefillEndsRun | Dispatcher.PausedRefillResumes |
