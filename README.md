# ExhaleGUIApp conversion core, in Dafny

ExhaleGUIApp is a macOS front end for the `exhale` xHE-AAC encoder. It keeps a
queue of audio files, `ConversionItem`s, in an `AudioConverter`. When a batch
starts, it runs the pending items through a bounded sliding window of
concurrent tasks. Each task encodes its item with `exhale`, after a conversion
to WAV by a bundled `ffmpeg` for compressed inputs. This project models that
core and proves properties of the model:

- `Base`: the Swift standard-library behaviour the core relies on.
  - `Optional` and `??`.
  - ASCII `lowercased()`.
  - `String.contains`, as a scan proved equivalent to "occurs somewhere".
  - The decimal rendering of an integer in string interpolation.
- `Urls`: a file URL as (path without extension, optional extension).
  - The drop zone's extension filter.
  - `isWAVFile`, `outputM4AURL` and the `.temp.wav` path.
- `Models`: `ConversionStatus` and its display names.
  - `ConversionError` and its `errorDescription`.
  - `ConversionItem`, a class whose mutable fields are those of the source.
- `Invocation`: how the two tools are invoked.
  - The settings read: exhale path, quality token (default `"5"`) and concurrency limit.
  - The pre-spawn checks, in order, with the error each raises.
  - The exact argument lists.
  - The mapping from exit status and standard error to success or a message.
  - `parseExhaleError`, a first-match-wins chain of case-insensitive substring tests.
  - The simulated progress ticker, as a loop in integer tenths.
- `Pipeline`: `convertItem`.
  - The route chosen by the lowercased extension: one stage, or two through `<input>.temp.wav`.
  - The progress checkpoints 0.1 and 0.5 and the rescaling of exhale's progress.
  - The terminal `completed`/`failed` state, temp-file clean-up, metadata copy and source deletion.
  - `Conversion` is the reference definition of one item's run. `BeginConversion` and `FinishConversion` are the imperative steps that write it into a `ConversionItem`.
- `Schedule`: the sliding window of `startConversion` as a trace of admissions and completions.
  - `Legal` states which steps the two loops can take.
  - The lemmas prove the bound on running tasks, in-order exactly-once admission, and a complete trace at the end.
- `Queue`: the `AudioConverter` class.
  - `addFiles`, `removeItems`, `clearAll`, `cancelConversion` and `startConversion`.
  - The batch's two loops keep `activeCount`, `itemIndex` and the set of running snapshot items. Their invariant ties those counters to a legal trace.
  - The completion of "some running task" is a nondeterministic choice among the running ones.

Progress is in hundredths on items (0 is 0.0, 100 is 1.0) and in tenths in the
ticker. The outside world of one item is an `Env` value:

- the paths that exist or are executable;
- the bundle's ffmpeg path;
- what `safeOutputM4AURL` returns;
- how each of the two processes ended (launch error, or exit status, standard error text and how many liveness polls saw it running).

`StartConversion` takes one `Env` per item and the settings as a `Config` record.

The model follows the code, including these behaviours of it:

- `removeItems` has no guard while a batch runs.
- The temporary WAV file is removed only after a successful encode, not after a failure.
- Progress 1.0 is reported only if the second liveness check after the ticker's last tick sees the process ended. For a process still running then, the last report is 0.9: item progress 0.9 on the direct route, 0.95 on the two-stage route.
- With no exhale path set, a two-stage item still runs ffmpeg before failing.
- Cancel terminates only the most recently launched exhale process.
- A two-stage item writes 0.1 before ffmpeg and 0.5 before exhale, then 0.5 plus half of each exhale report.
- `UserDefaults.bool(forKey:)` reads an unset preserve-metadata flag as false, although the settings screen shows it as on by default.
- Any positive concurrency setting is used as given; 1–8 is only the slider's range.
- A non-executable exhale file is not rejected.

## Model

| member | source | states |
|---|---|---|
| Base.Lower | ExhaleGUIApp/AudioConverter.swift:331 | lowercasing keeps the length and maps each character to its ASCII lower-case form |
| Base.LowerIdempotent | ExhaleGUIApp/AudioConverter.swift:331 | lowercasing twice is lowercasing once |
| Base.Contains | ExhaleGUIApp/AudioConverter.swift:333-383 | reference definition of `String.contains` as a left-to-right scan (properties in `ContainsIffOccurs` and `ContainsInfix`) |
| Base.ContainsIffOccurs | ExhaleGUIApp/AudioConverter.swift:333 | the `contains` scan is true exactly when the pattern occurs at some index |
| Base.ContainsInfix | ExhaleGUIApp/AudioConverter.swift:386-396 | a text built around a part contains that part |
| Base.IntToString | ExhaleGUIApp/AudioConverter.swift:297 | the `\(terminationStatus)` text, never empty (sign in `IntToStringSign`, injectivity in `IntToStringInjective`) |
| Base.IntToStringSign | ExhaleGUIApp/AudioConverter.swift:297 | the text starts with a minus sign exactly for a negative number |
| Base.NatToStringInjective | ExhaleGUIApp/AudioConverter.swift:297 | different non-negative numbers have different decimal digits |
| Base.IntToStringInjective | ExhaleGUIApp/AudioConverter.swift:456 | different exit statuses give different texts, so the exit-code messages identify the status |
| Urls.TempWAVURL | ExhaleGUIApp/AudioConverter.swift:118 | the temp path is the input path followed by ".temp.wav", has extension "wav" and differs from the input path |
| Urls.DropAccepts | ExhaleGUIApp/DropZoneView.swift:61-64 | reference definition of the whitelist test; a URL without an extension is never accepted (filter properties in the `FilterDropped` rows) |
| Urls.FilterDropped | ExhaleGUIApp/DropZoneView.swift:61-64 | a URL is kept exactly when it was dropped and its lowercased extension is one of wav, wave, mp3, flac, m4a, aac |
| Urls.FilterDroppedConcat | ExhaleGUIApp/DropZoneView.swift:61-64 | filtering distributes over concatenation, so accepted URLs keep their order |
| Urls.FilterDroppedKeepsAccepted | ExhaleGUIApp/DropZoneView.swift:61-64 | a list of accepted URLs passes unchanged |
| Urls.FilterDroppedIdempotent | ExhaleGUIApp/DropZoneView.swift:61-64 | filtering twice is filtering once |
| Urls.IsWAVFileCaseInsensitive | ExhaleGUIApp/DropZoneView.swift:72-75 | "WAV" and "Wave" are WAV extensions; no extension is not |
| Urls.IsWAVFile | ExhaleGUIApp/DropZoneView.swift:72-75 | reference definition of `isWAVFile`; every WAV file passes the drop filter |
| Urls.IsWAVFileIgnoresCase | ExhaleGUIApp/DropZoneView.swift:72-75 | for all URLs, whether a URL is a WAV file depends only on its lowercased extension |
| Urls.OutputM4AURL | ExhaleGUIApp/DropZoneView.swift:77-79 | the result has extension "m4a" and the input's path without extension |
| Urls.OutputM4AURLFixedPoints | ExhaleGUIApp/DropZoneView.swift:77-79 | idempotent; the result equals the input (same path) exactly when the input's extension is already "m4a" |
| Models.AllStatusesEnumerates | ExhaleGUIApp/Models.swift:30-35 | `allCases` has exactly four distinct cases and every status is among them |
| Models.DisplayName | ExhaleGUIApp/Models.swift:36-43 | reference definition of `displayName`; never empty (distinctness in `DisplayNameInjective`) |
| Models.DisplayNameInjective | ExhaleGUIApp/Models.swift:36-43 | no two statuses share a display name |
| Models.ErrorDescription | ExhaleGUIApp/Models.swift:62-73 | never nil, and exactly the message the error carries |
| Models.InitialState | ExhaleGUIApp/Models.swift:14-26 | a new item is pending, at progress 0, with no output URL and no error message, and is consistent |
| Models.ConversionItem.constructor | ExhaleGUIApp/Models.swift:24-26 | a new item's fields are the initial state for its input URL (the input URL is a constant) |
| Invocation.Quality | ExhaleGUIApp/AudioConverter.swift:191 | the stored quality token, or "5" when none is stored |
| Invocation.QualityIsPickerToken | ExhaleGUIApp/SettingsView.swift:44-62 | with no token or a picker token stored, exhale gets a picker token |
| Invocation.ExhalePath | ExhaleGUIApp/AudioConverter.swift:190 | the stored exhale path, or "" when none is stored |
| Invocation.ConcurrencyLimit | ExhaleGUIApp/AudioConverter.swift:44-45 | the setting when positive, else 2; always at least 1 |
| Invocation.Describe | ExhaleGUIApp/AudioConverter.swift:172 | a converter error is described by its message, a launch error by its own description |
| Invocation.BundledFFmpegPath | ExhaleGUIApp/AudioConverter.swift:402-418 | the bundle's ffmpeg path exactly when it exists and is executable, else none |
| Invocation.FFmpegArguments | ExhaleGUIApp/AudioConverter.swift:430-437 | exactly `-i in -ar 44100 -ac 2 -f wav -y out` |
| Invocation.FFmpegExit | ExhaleGUIApp/AudioConverter.swift:452-458 | success exactly on status 0, else "FFmpeg failed with exit code N" |
| Invocation.WAVStage | ExhaleGUIApp/AudioConverter.swift:421-467 | no ffmpeg in the bundle fails with ffmpegNotFound before spawning; otherwise ffmpeg is spawned with those arguments; no progress is reported (its error after the spawn in `WAVStageSucceedsIff`) |
| Invocation.WAVStageSucceedsIff | ExhaleGUIApp/AudioConverter.swift:446-465 | the ffmpeg stage succeeds exactly when ffmpeg is bundled, launches and exits 0; an exit gives the exit-code error of its status; a launch failure is thrown with its description |
| Invocation.ExhaleArguments | ExhaleGUIApp/AudioConverter.swift:258-262 | exactly [quality, input path, output path] |
| Invocation.ExhaleChecks | ExhaleGUIApp/AudioConverter.swift:199-250 | in order: empty path, then missing executable file (both exhaleNotFound), then missing input (inputFileNotFound), each with its message; passes exactly when all three hold, whether or not the file is executable |
| Invocation.ExhaleExit | ExhaleGUIApp/AudioConverter.swift:283-299 | success exactly on status 0 whatever stderr says; non-zero with stderr gives the classified message; non-zero without stderr gives "Exhale failed with exit code N" |
| Invocation.ExhaleStage | ExhaleGUIApp/AudioConverter.swift:176-328 | reference definition of `runExhaleConversion` (properties in `ExhaleStageSpawnsAfterChecks`, `ExhaleStageReports` and `ExhaleStageSucceedsIff`) |
| Invocation.ExhaleStageSpawnsAfterChecks | ExhaleGUIApp/AudioConverter.swift:199-272 | exhale is spawned exactly when the checks pass, with path and arguments as above; a failed check spawns nothing, reports nothing and throws its error |
| Invocation.ExhaleStageReports | ExhaleGUIApp/AudioConverter.swift:302-321 | exhale's progress reports are the ticker's for the process's polls, or none |
| Invocation.ExhaleStageSucceedsIff | ExhaleGUIApp/AudioConverter.swift:274-326 | the stage succeeds exactly when the checks pass, the launch works and the status is 0 |
| Invocation.ParseExhaleError | ExhaleGUIApp/AudioConverter.swift:330-397 | reference definition of `parseExhaleError` (properties in `ParseExhaleErrorFirstMatch`, `ParseExhaleErrorCaseInsensitive`, `ParseExhaleErrorOfLowered` and `DefaultMessageQuotesRaw`) |
| Invocation.ParseExhaleErrorFirstMatch | ExhaleGUIApp/AudioConverter.swift:330-397 | sample rate, then invalid input, then output/permission, then channels, on the lowercased text; the first found chooses the message; none found gives the default message |
| Invocation.ParseExhaleErrorCaseInsensitive | ExhaleGUIApp/AudioConverter.swift:330-383 | texts equal once lowercased get the same recognised message; unrecognised ones each get the default message quoting their own text |
| Invocation.ParseExhaleErrorOfLowered | ExhaleGUIApp/AudioConverter.swift:331 | for recognised text, classifying the lowercased text gives the same message |
| Invocation.SampleRateMessageNamesPreset | ExhaleGUIApp/AudioConverter.swift:333-345 | the sample-rate message contains the quality token |
| Invocation.DefaultMessageQuotesRaw | ExhaleGUIApp/AudioConverter.swift:385-396 | the default message contains the original, un-lowercased text |
| Invocation.TickerReports | ExhaleGUIApp/AudioConverter.swift:307-321 | reference definition of the ticker's reports; at least one and at most eleven (shape in `TickerReportsShape`) |
| Invocation.SimulateProgress | ExhaleGUIApp/AudioConverter.swift:307-321 | the ticker loop reports exactly `TickerReports` of the number of polls that saw the process running |
| Invocation.TickerReportsShape | ExhaleGUIApp/AudioConverter.swift:307-321 | reports never go down, lie in [0.1, 1.0], are at most 0.9 except the last; 1.0 is reported, last, exactly when a poll saw the process ended |
| Invocation.RunExhaleConversion | ExhaleGUIApp/AudioConverter.swift:176-328 | checks, spawn, ticker and exit handling give exactly the reference `ExhaleStage` |
| Pipeline.RouteFor | ExhaleGUIApp/AudioConverter.swift:112-114 | reference definition of the route (properties in `WAVFilesAcceptedAndDirect` and `DroppedFilesRoute`) |
| Pipeline.WAVFilesAcceptedAndDirect | ExhaleGUIApp/AudioConverter.swift:112-114 | for all URLs, a WAV file is accepted at the drop and encoded directly |
| Pipeline.DroppedFilesRoute | ExhaleGUIApp/AudioConverter.swift:112-114 | a dropped file is encoded directly exactly when it is a WAV file |
| Pipeline.Mp4RoutedButNotDroppable | ExhaleGUIApp/AudioConverter.swift:114 | an mp4 file would go through ffmpeg, but the drop filter rejects it |
| Pipeline.WeightedReports | ExhaleGUIApp/AudioConverter.swift:129-148 | each exhale report t becomes progress t (direct) or 0.5 + 0.5·t (two stages), one write per report |
| Pipeline.Stages | ExhaleGUIApp/AudioConverter.swift:112-150 | reference definition of the one or two stages (properties in `StagesShape`, `StagesOnlySpawn` and the spawn and progress rows) |
| Pipeline.StagesShape | ExhaleGUIApp/AudioConverter.swift:118-122 | a two-stage item first writes 0.1; stages that all succeeded ran at least one process |
| Pipeline.Conversion | ExhaleGUIApp/AudioConverter.swift:103-175 | reference definition of `convertItem` after its first two writes (properties in `ConversionSpawnsStages`, `ConversionSpawns`, `ConversionTerminal`, `ConversionCleanup` and `ConversionProgress`) |
| Pipeline.Begun | ExhaleGUIApp/AudioConverter.swift:105-106 | starting an item makes it converting at progress 0 and changes nothing else |
| Pipeline.Finished | ExhaleGUIApp/AudioConverter.swift:152-172 | success sets completed and the output URL; failure sets failed and the message; progress is the last value written |
| Pipeline.BeginConversion | ExhaleGUIApp/AudioConverter.swift:103-106 | the item's new state is `Begun` of its old one |
| Pipeline.RunStages | ExhaleGUIApp/AudioConverter.swift:112-150 | the processes run and the first error are those of the reference stages, and only progress changes, to the last value they write |
| Pipeline.FinishConversion | ExhaleGUIApp/AudioConverter.swift:107-175 | the item's new state is `Finished` of the reference `Conversion`, and the effects are exactly its effects |
| Pipeline.StagesOnlySpawn | ExhaleGUIApp/AudioConverter.swift:112-150 | the stages do nothing but spawn processes |
| Pipeline.ConversionSpawnsStages | ExhaleGUIApp/AudioConverter.swift:136-168 | clean-up and post-processing spawn nothing; success exactly when no stage threw; progress is the stages' |
| Pipeline.DirectSpawns | ExhaleGUIApp/AudioConverter.swift:139-149 | one stage spawns at most exhale on the input, and exactly that on success |
| Pipeline.ViaWAVSpawns | ExhaleGUIApp/AudioConverter.swift:114-134 | two stages spawn ffmpeg on the input first, then exhale on the temp file only if ffmpeg succeeded, and both on success |
| Pipeline.ConversionSpawns | ExhaleGUIApp/AudioConverter.swift:112-150 | the processes an item spawns, in order, on either route |
| Pipeline.ConversionTerminal | ExhaleGUIApp/AudioConverter.swift:111-174 | success exactly when every stage run succeeded, recording the safe output URL; failure carries the description of the first error thrown |
| Pipeline.ViaWAVFFmpegFailure | ExhaleGUIApp/AudioConverter.swift:121-122 | a two-stage item whose bundled ffmpeg fails to launch or exits non-zero fails with that launch error's description or with "FFmpeg failed with exit code" and the status |
| Pipeline.ConversionCleanup | ExhaleGUIApp/AudioConverter.swift:136-168 | temp file removed exactly after a successful two-stage run; source removed exactly on success with deletion enabled; metadata copied exactly on success with preservation enabled, before the source is removed |
| Pipeline.MetadataBeforeRemoval | ExhaleGUIApp/AudioConverter.swift:158-168 | after a successful encode the metadata copy comes before the removal of the source |
| Pipeline.PostProcessingCannotChangeStatus | ExhaleGUIApp/AudioConverter.swift:158-168 | the metadata and deletion settings change neither the terminal state nor the progress |
| Pipeline.WeightedTickerShape | ExhaleGUIApp/AudioConverter.swift:129-148 | rescaled reports never go down, lie in [0.1, 1.0] (two-stage: at least 0.55), and 1.0 only last |
| Pipeline.StagesProgressDirect | ExhaleGUIApp/AudioConverter.swift:139-149 | a direct item's progress, from the initial 0, is non-decreasing, within [0, 1], 1.0 only last |
| Pipeline.StagesProgressViaWAV | ExhaleGUIApp/AudioConverter.swift:118-134 | the same for a two-stage item, which passes 0.1 and then, if ffmpeg succeeded, 0.5 |
| Pipeline.StagesProgressEncoded | ExhaleGUIApp/AudioConverter.swift:121-134 | a two-stage item whose ffmpeg run succeeded writes 0.1, 0.5, then the rescaled exhale reports, all well shaped |
| Pipeline.EncodedProgressShape | ExhaleGUIApp/AudioConverter.swift:121-134 | the checkpoints 0, 0.1 and 0.5 followed by no reports or by rescaled ticker reports are well shaped |
| Pipeline.ConversionProgress | ExhaleGUIApp/AudioConverter.swift:105-149 | all progress written to an item is well shaped, with the two checkpoints on the two-stage route |
| Pipeline.UnsetExhalePathFailsEveryItem | ExhaleGUIApp/AudioConverter.swift:199-203 | with no exhale path every item fails; a direct one spawns nothing and gets the "not set" message; a two-stage one spawns ffmpeg at most |
| Pipeline.ConvertedStaysConsistent | ExhaleGUIApp/AudioConverter.swift:103-175 | a pending item that is started and finished ends completed with a result or failed with a message |
| Schedule.LegalStep | ExhaleGUIApp/AudioConverter.swift:52-79 | reference definition of one step of the two loops: admit the next item while there is room, or observe a running item finish once the window is full or the snapshot exhausted; an admitted index is below the snapshot size |
| Schedule.Legal | ExhaleGUIApp/AudioConverter.swift:52-79 | every event of the trace is a legal step after the events before it; every index in a legal trace is a snapshot index |
| Schedule.LegalCounts | ExhaleGUIApp/AudioConverter.swift:52-79 | after any legal trace, completions ≤ admissions ≤ snapshot size and 0 ≤ activeCount ≤ limit |
| Schedule.WindowBound | ExhaleGUIApp/AudioConverter.swift:52-79 | at every point of a batch, activeCount is in [0, limit] and admissions are at most limit ahead of completions |
| Schedule.DispatchedBelow | ExhaleGUIApp/AudioConverter.swift:54-77 | item k has been admitted exactly when k is below itemIndex |
| Schedule.CompletedBelowDispatched | ExhaleGUIApp/AudioConverter.swift:67-68 | while an admitted item is still running, completions are fewer than admissions |
| Schedule.DispatchInOrder | ExhaleGUIApp/AudioConverter.swift:56-78 | admissions happen in strictly increasing snapshot order, so none is repeated |
| Schedule.CompleteOnce | ExhaleGUIApp/AudioConverter.swift:67-79 | no item's completion is observed twice |
| Schedule.DoneCoversSnapshot | ExhaleGUIApp/AudioConverter.swift:52-85 | at the end of a batch every snapshot item was admitted and completed, completions equal the snapshot size |
| Schedule.DoneCompletes | ExhaleGUIApp/AudioConverter.swift:67-79 | at the end of a batch each snapshot item's completion was observed |
| Schedule.WindowStart | ExhaleGUIApp/AudioConverter.swift:53-54 | zero counters and an empty trace satisfy the loops' invariant |
| Schedule.WindowAdmit | ExhaleGUIApp/AudioConverter.swift:57-64 | admitting the next item while there is room keeps the invariant, with both counters incremented |
| Schedule.WindowComplete | ExhaleGUIApp/AudioConverter.swift:67-69 | observing a running item finish, once the window is full or the snapshot exhausted, keeps the invariant with activeCount decremented |
| Schedule.WindowDone | ExhaleGUIApp/AudioConverter.swift:67-80 | when the group is empty, itemIndex is the snapshot size and the trace is complete |
| Queue.RemoveAt | ExhaleGUIApp/AudioConverter.swift:29 | `remove(atOffsets:)`: never longer than the input (elements in `RemoveAtElements`, order in `RemoveAtPrefix`, exact length in `RemoveAtLength`, distinctness in `RemoveAtDistinct`) |
| Queue.RemoveAtElements | ExhaleGUIApp/AudioConverter.swift:28-30 | an element remains exactly when it was at a position not removed |
| Queue.RemoveAtPrefix | ExhaleGUIApp/AudioConverter.swift:29 | removal keeps order: what is left of any prefix of the queue is a prefix of what is left of the whole queue |
| Queue.RemoveAtLength | ExhaleGUIApp/AudioConverter.swift:28-30 | exactly as many items as offsets are removed |
| Queue.RemoveAtDistinct | ExhaleGUIApp/AudioConverter.swift:28-30 | removal keeps the items pairwise distinct |
| Queue.PendingItems | ExhaleGUIApp/AudioConverter.swift:50 | the snapshot holds exactly the queued items that are pending, each once; its order is stated by `PendingItemsConcat` |
| Queue.PendingItemsConcat | ExhaleGUIApp/AudioConverter.swift:50 | for all queues, the snapshot keeps queue order: the pending items of `a + b` are those of `a` followed by those of `b` |
| Queue.Cancelled | ExhaleGUIApp/AudioConverter.swift:94-99 | reference definition of what cancel does to one item; afterwards it is not converting and has the same input (more in `CancelledResets`) |
| Queue.CancelledResets | ExhaleGUIApp/AudioConverter.swift:94-99 | a converting item becomes pending at progress 0 with nothing else changed; any other item is left alone; cancelling is idempotent |
| Queue.CancelledConsistent | ExhaleGUIApp/AudioConverter.swift:94-99 | cancelling keeps an item consistent |
| Queue.AfterBatch | ExhaleGUIApp/AudioConverter.swift:50-79 | reference definition of one item's fate in a batch: a pending item is started and finished with its conversion, any other is untouched (properties in `AfterBatchTerminal`) |
| Queue.AfterBatchTerminal | ExhaleGUIApp/AudioConverter.swift:50-79 | after a batch a formerly pending item is completed (exactly when its conversion succeeded) or failed; other items are unchanged |
| Queue.AudioConverter.constructor | ExhaleGUIApp/AudioConverter.swift:15-16 | the queue starts empty and not converting |
| Queue.AudioConverter.AddFiles | ExhaleGUIApp/AudioConverter.swift:21-26 | existing items are kept; one new pending item per URL is appended, in URL order, each a fresh object |
| Queue.AudioConverter.RemoveItems | ExhaleGUIApp/AudioConverter.swift:28-30 | the queue becomes `RemoveAt` of the old queue: the items at the other offsets, in order (by `RemoveAtPrefix`), whether or not a batch runs |
| Queue.AudioConverter.ClearAll | ExhaleGUIApp/AudioConverter.swift:32-35 | nothing changes while converting; otherwise the queue is emptied |
| Queue.AudioConverter.CancelConversion | ExhaleGUIApp/AudioConverter.swift:89-100 | the flag is cleared and every item's state is `Cancelled` of its old state |
| Queue.AudioConverter.StartConversion | ExhaleGUIApp/AudioConverter.swift:37-87 | nothing happens while converting or with an empty queue; otherwise the snapshot is the pending items, every item ends as `AfterBatch` says, the trace is legal and complete, and the flag is cleared |
| Queue.RunBatch | ExhaleGUIApp/AudioConverter.swift:44-80 | the limit, the pending snapshot and the two loops: each item ends as `AfterBatch` says, along a legal and complete trace |
| Queue.StartInitialBatch | ExhaleGUIApp/AudioConverter.swift:56-64 | the initial loop admits in order until the window is full or the snapshot exhausted, keeping the invariant |
| Queue.AwaitGroup | ExhaleGUIApp/AudioConverter.swift:66-79 | the completion loop ends with a legal, complete trace and every snapshot item finished |
| Queue.AdmitNext | ExhaleGUIApp/AudioConverter.swift:71-78 | one admission: both counters incremented, the item started, the invariant kept |
| Queue.CompleteOne | ExhaleGUIApp/AudioConverter.swift:67-68 | the observed item is finished; the other snapshot items are untouched |
| Queue.BatchOutcome | ExhaleGUIApp/AudioConverter.swift:50-80 | with every snapshot item finished and every other item untouched, each item is as `AfterBatch` says |

## Left out

- `Process`, `Pipe`, termination handlers and continuations. Each run of ffmpeg or exhale is an outcome given in `Env`: launch error, or exit status, standard error text and how many liveness polls saw it running. Standard output is not modelled because it is only printed.
- Evaluating the standard error as UTF-8. Text that is empty or not UTF-8 is given as "".
- `FileManager` and `Bundle` lookups. They are sets of paths in `Env`, fixed for one item's run. The directory listing made when the exhale file is missing and the attribute reads made when it exists only print.
- `safeOutputM4AURL`. Its body is not part of this model, so its result is a value in `Env`.
- `UserDefaults`. The settings are a `Config` record fixed for the batch. The `Int`, `Object` and `String` quality debug reads only print.
- `copyMetadata`, `copyMetadataLog` and `copyMetadataMinimal` (AVFoundation). Only the `CopyMetadata` effect is modelled: it happens after `completed` is set, on success and when enabled, and it cannot change the status. `copyMetadata`'s own repeated check of the setting is not modelled.
- Removing files. The temp file and source file removals are effects whose failures are ignored (`try?`); the file system does not change in the model.
- Concurrency of the task group. The batch runs to its end inside `StartConversion`, and each item's task is its start followed, at a chosen moment, by its completion.
  - Tasks do not interleave within an item's completion.
  - `cancelConversion` cannot run during a batch.
  - `removeItems` and `addFiles` calls cannot interleave with a batch.
  - `MainActor`, `Task.sleep` and timing are not modelled.
- The single `conversionTask` field and `terminate()`. Cancel would terminate only the most recently launched exhale process; processes are not modelled.
- What cancelling during a batch does in the code. `cancelConversion` does not stop the task group, so the group goes on admitting the rest of the snapshot, and tasks still running later overwrite items that cancel reset to pending. Since cancel cannot run during a batch in the model, none of this is modelled.
- The `Task { @MainActor }` progress writes, which may land in any order. The model keeps the writes in order in `Stages` and applies the last one, so an item's final progress is the last value written; a write after completion is not modelled.
- Queue.AudioConverter.StartConversion: returns neither the files removed nor the processes spawned by each item; those are specified per item by `Pipeline.Conversion` and returned by `Pipeline.FinishConversion`.
- Invocation.SimulateProgress: uses exact tenths. With `Double`, ten additions of 0.1 give 0.9999999999999999, which is below 1.0, so the source's loop can tick an eleventh time.
- Floating-point progress in general. Item progress is in exact hundredths.
- Unicode case mapping. `lowercased()` is modelled on ASCII letters only.
- `handleDrop`'s callback-driven collection of URLs from item providers. Only the extension filter applied to the collected URLs is modelled.
- `fileSize`, `color` and debug `print` output. They are display-only.
- Queue.AudioConverter.RemoveItems: requires every offset to be below the queue length (Swift's `remove(atOffsets:)` traps otherwise).
