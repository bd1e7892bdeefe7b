# TalkSmith core, modelled in Dafny

TalkSmith is a local transcription pipeline: it transcribes audio files with
faster-whisper, assigns speakers, post-processes the segments, exports them
as TXT, SRT, WebVTT and JSON, and derives outlines and plans from them. This
project models the deterministic bookkeeping and text transforms around
those engines and proves properties of them. The model covers:

- multi-GPU batch transcription: GPU-id parsing and validation, the greedy
  size-balancing of `launcher_multigpu.py` and the round-robin of the
  resource allocator, the task-queue layout (one entry per file, then one
  `None` sentinel per worker), a worker's pass over the queue, and the
  result aggregators of the launcher (`ProgressTracker`) and of
  `LoadBalancer`, with their counters, per-GPU statistics, guarded RTF and
  speedup, and exit codes;
- batch bookkeeping: `BatchLogSummary`, the retry loops and the log-directory
  template of the logger, and the resume state, file filter, retry bound and
  ETA text of `scripts/batch_transcribe.py`;
- segment transforms: result assembly in the faster-whisper transcriber,
  segment formatting in the base and whisperx diarizers, segment building,
  merging and transcript alignment in the alternative diarizer, speaker-name
  normalisation and short-utterance merging, outline generation, the plan
  transcript text, and the text output and timing fields of
  `DiarizationBase`;
- the exporters: timestamp syntax (the WebVTT header and cue timing follow
  section 4.1 of the W3C WebVTT specification), segment validation, the
  four file formats and the format dispatch;
- small decision functions: word-level WER with its dynamic-programming
  table, configuration lookup with environment override and the config
  singleton, device selection and model suggestion, the file-name slug and
  the CLI's commands, Markdown stripping and share permissions for Google
  Docs.

Queues are sequences, worker results are a closed datatype
(`Success | Failure | WorkerError`, plus `Unrecognised` for a dictionary of
another type), file sizes and file-system facts are functions or sets passed
in, and times are exact reals. Objects whose fields the source updates
(`GPUWorkload`, `ProgressTracker`, `LoadBalancer`, `BatchLogSummary`,
`ProgressState`, `TalkSmithConfig`, the GPU detector's cache) are classes
whose methods state their whole new state; loops of the source (the greedy
and round-robin partitions, the queue filling, the monitor loops, the retry
loops, the WER table, the outline and merge loops, the exporters' writes) are
methods with invariants, proved equal to specification functions about which
the properties are proved as lemmas.

## Model

| member | source | states |
|---|---|---|
| Launcher.GPUWorkload.constructor | launcher_multigpu.py:39-44 | a new workload for a GPU id holds no files and a total size of 0 |
| Launcher.GPUWorkload.AddFile | launcher_multigpu.py:46-49 | appends the file and adds its size to the total, keeping `total_size` equal to the sum of the sizes of `files` |
| Launcher.KeepAvailable | launcher_multigpu.py:93 | keeps only available ids, each requested id occurring as often as it was requested when available and never otherwise, in request order |
| Launcher.ValidateGpuIds | launcher_multigpu.py:73-103 | detects the available ids when none are given; succeeds exactly when some requested id is available, with the filtered list; otherwise the `ValueError` quoting both lists |
| Launcher.ArgMin | launcher_multigpu.py:135 | `min(..., key=total_size)` picks a least-loaded workload, the first of equals |
| Launcher.Greedy | launcher_multigpu.py:134-136 | the greedy pass yields one file list per workload |
| Launcher.Balanced | launcher_multigpu.py:127-136 | the assignment of `balance_by_size` has one file list per GPU |
| Launcher.GreedyPartition | launcher_multigpu.py:134-136 | the greedy pass hands out exactly the files it is given, each once |
| Launcher.BalancedPartition | launcher_multigpu.py:112-148 | the per-GPU lists together are a permutation of the input files: every file goes to exactly one GPU |
| Launcher.GreedyBalanced | launcher_multigpu.py:134-136 | assigning to the least-loaded GPU keeps all totals within a bound of each other while no file exceeds that bound |
| Launcher.BalancedWithinLargestFile | launcher_multigpu.py:112-148 | the balanced totals differ by at most the largest file size (the "balanced load" the docstring promises) |
| Launcher.BalanceBySize | launcher_multigpu.py:112-148 | returns `num_gpus` distinct new workloads with ids `0..num_gpus-1`, each consistent, holding exactly the largest-first greedy assignment |
| Launcher.PlaceFile | launcher_multigpu.py:135-136 | adds the file to the workload `min` selects and changes no other workload |
| Launcher.NewWorkloads | launcher_multigpu.py:130 | `num_gpus` distinct new empty workloads with ids `0..n-1` |
| Launcher.PopulateTaskQueue | launcher_multigpu.py:387-394 | the queue is every file as `(path, i + 1, len(files))` in order, then one sentinel per GPU id |
| Launcher.ResultFor | launcher_multigpu.py:464-516 | a task's result is a success or a failure, naming the worker's GPU and the file |
| Launcher.FirstSentinel | launcher_multigpu.py:448-452 | the position of the first sentinel: every earlier message is a task |
| Launcher.Worker | launcher_multigpu.py:412-531 | a failed model load sends one `error` result and takes no task; otherwise one result per task up to the first sentinel, in queue order, stopping exactly when a sentinel is met, leaving the rest of the queue |
| Launcher.WorkerTakesAllFiles | launcher_multigpu.py:387-394 | a worker given the whole queue handles every file once, in order, before meeting a sentinel |
| Launcher.ResultsComplete | launcher_multigpu.py:194-203 | every success or failure a worker sends counts as one completed file |
| Launcher.InitialTallies | launcher_multigpu.py:167-170 | one `{"processed": 0, "time": 0.0}` entry per listed GPU and no other key |
| Launcher.ProcessedMatches | launcher_multigpu.py:192-215 | processing a result keeps the counters (completed, successful, failed, totals, per-GPU tallies) equal to their totals over the results seen |
| Launcher.ProgressTracker.constructor | launcher_multigpu.py:154-170 | the tracker as written: nothing completed, statistics keyed `0..num_gpus-1` |
| Launcher.ProgressTracker.ForGpus | launcher_multigpu.py:154-170 | the corrected tracker: statistics keyed by the GPU ids the workers run on |
| Launcher.ProgressTracker.ProcessResult | launcher_multigpu.py:192-215 | raises `KeyError` exactly for a success from a GPU without an entry, after the count, summary and totals were updated; otherwise the result is taken in and the consistency invariant kept |
| Launcher.ProgressTracker.MonitorQueue | launcher_multigpu.py:172-190 | consumes results until `total_files` completions; stops with the summary, waits forever when results run out, or raises at the first success from an unkeyed GPU |
| Launcher.ProgressTracker.GetSummary | launcher_multigpu.py:232-260 | the summary's counts come from the batch summary; overall RTF and speedup are the guarded ratios of the totals |
| Launcher.RtfSpeedupReciprocal | launcher_multigpu.py:238-247 | with both totals positive, overall RTF and speedup are positive reciprocals |
| Launcher.SuccessOnGpuOneRaises | launcher_multigpu.py:167-170 | with `--gpus 1` the tracker is keyed `{0}`, so a success from GPU 1 raises `KeyError` |
| Launcher.ConfiguredGpusAreKeyed | launcher_multigpu.py:198-201 | keyed by the GPU ids in use, a success from a configured GPU always finds its entry |
| Launcher.Run | launcher_multigpu.py:316-373 | `run` as written: no files exits 0; otherwise it queues the tasks and keys the tracker `0 .. len(gpu_ids) - 1`; it raises `KeyError` exactly when, before every file is completed, a success arrives from a GPU id outside that range, and otherwise returns after reading the shortest prefix that completes every file, with code 0 exactly when no failure was seen |
| Launcher.MonitorAndReport | launcher_multigpu.py:350-373 | after the tracker is built: `monitor_queue`, then 0 or 1 by the failure count of the shortest prefix that completes every file; raises exactly at the first success from an unkeyed GPU that arrives before the last completion, and returns whenever that prefix completes every file with keyed successes only |
| Launcher.RangeKeys | launcher_multigpu.py:168-170 | the ids `range(num_gpus)` keys: exactly `0 <= g < num_gpus` |
| Launcher.RunCorrected | launcher_multigpu.py:350-352 | `run` with the tracker keyed by the GPU ids in use: same queue and exit codes, and it never raises when every success names a GPU in use |
| Launcher.GpuOneRuns | launcher_multigpu.py:350-352 | `--gpus 1` with one file succeeding on GPU 1: the run as written raises `KeyError`, the corrected run exits 0 |
| Launcher.ResolvedGpus | launcher_multigpu.py:584-600 | the GPU ids `main` runs on: the detected ones for `auto` in any case, else the valid ids of the list; none (exit 1) for no detected GPU, an unparsable list or no valid id; never an empty list |
| Launcher.Launch | launcher_multigpu.py:534-630 | `main`'s exit code is 0, 1 or 130: 1 without usable GPU ids or input directory, 130 for an interrupt, 0 for no files, and 1 when the run as written raises `KeyError` for a success from a GPU id at or past the number of GPUs in use; when every file is completed before any such success, the code is 0 exactly when no failure is among the results read up to the last completion (`CompletedPrefix`) |
| LoadBalancer.InitialStats | pipeline/multigpu/load_balancer.py:40-43 | one `{"processed": 0, "time": 0.0, "failures": 0}` entry per listed GPU and no other key |
| LoadBalancer.GuardedRatio | pipeline/multigpu/load_balancer.py:141-143 | 0.0 for a zero denominator, otherwise the quotient (`q * den == num`) |
| LoadBalancer.RtfTimesSpeedup | pipeline/multigpu/load_balancer.py:134-154 | with both totals non-zero, overall RTF times speedup is 1 |
| LoadBalancer.ProcessedMatches | pipeline/multigpu/load_balancer.py:81-132 | processing a result keeps every counter equal to its total over the results seen |
| LoadBalancer.ProcessedSuccess | pipeline/multigpu/load_balancer.py:99-111 | a success keeps the counters equal to their totals |
| LoadBalancer.ProcessedFailure | pipeline/multigpu/load_balancer.py:113-122 | a failure keeps the counters equal to their totals |
| LoadBalancer.ProcessedOther | pipeline/multigpu/load_balancer.py:94-97 | an `error` result or an unknown type keeps the counters equal to their totals |
| LoadBalancer.StatsStep | pipeline/multigpu/load_balancer.py:108-121 | the per-GPU entry after a result is the per-GPU total including it |
| LoadBalancer.LoadBalancer.constructor | pipeline/multigpu/load_balancer.py:26-51 | nothing counted, statistics keyed by the given GPU ids, empty result and error lists, a fresh batch summary |
| LoadBalancer.LoadBalancer.ProcessResult | pipeline/multigpu/load_balancer.py:81-97 | raises `KeyError` exactly for a success or failure from an unlisted GPU, with the partial updates made before the raise; otherwise the result is taken in and the invariant kept |
| LoadBalancer.LoadBalancer.HandleSuccess | pipeline/multigpu/load_balancer.py:99-111 | count, summary and totals grow; the GPU's entry then gains one file and its time, or `KeyError` leaves it unchanged |
| LoadBalancer.LoadBalancer.HandleFailure | pipeline/multigpu/load_balancer.py:113-122 | count and summary (with the error entry) grow; the GPU's failures and the error list then grow, or `KeyError` leaves them unchanged |
| LoadBalancer.LoadBalancer.HandleError | pipeline/multigpu/load_balancer.py:124-132 | only the error list grows |
| LoadBalancer.LoadBalancer.Take | pipeline/multigpu/load_balancer.py:81-97 | raises exactly for a completion from an unlisted GPU; otherwise one more result taken in |
| LoadBalancer.LoadBalancer.MonitorProgress | pipeline/multigpu/load_balancer.py:53-79 | processes results while fewer than `total_files` are completed; stops when done, waits forever when results run out, or raises at the first completion from an unlisted GPU |
| LoadBalancer.LoadBalancer.GetOverallRtf | pipeline/multigpu/load_balancer.py:134-143 | processing time per second of audio over the results seen, 0.0 without audio |
| LoadBalancer.LoadBalancer.GetSpeedup | pipeline/multigpu/load_balancer.py:145-154 | seconds of audio per second of processing over the results seen, 0.0 without processing time |
| LoadBalancer.LoadBalancer.GetSummaryStats | pipeline/multigpu/load_balancer.py:165-182 | completed = successful + failed = completions seen; error count = failures + worker errors; totals, RTF and speedup as defined; one per-GPU entry per listed GPU |
| LoadBalancer.LoadBalancer.GetExitCode | pipeline/multigpu/load_balancer.py:243-250 | 0 exactly when no failure result was processed, else 1 |
| LoadBalancer.LoadBalancer.GetExpectedTotal | pipeline/multigpu/load_balancer.py:252-260 | the number of completions so far (not the batch size) |
| LoadBalancer.LoadBalancer.Reset | pipeline/multigpu/load_balancer.py:262-273 | the state right after construction, with a new batch summary |
| LoadBalancer.MonitorConfigured | pipeline/multigpu/load_balancer.py:53-79 | when every completion names a listed GPU, monitoring never raises, completes at most `total_files`, and the exit code is 0 exactly when no failure was seen |
| LoadBalancer.ProcessedAddsUp | pipeline/multigpu/load_balancer.py:108-110 | with distinct listed GPUs, the per-GPU processed counts add up to the successes |
| ResourceAllocator.DistributeWorkload | pipeline/multigpu/resource_allocator.py:42-71 | GPU `g` gets the largest-first sorted files at positions `g, g + n, ...`; all lists together are a permutation of the input |
| ResourceAllocator.Deal | pipeline/multigpu/resource_allocator.py:67-69 | dealing file `i` to GPU `i % n` keeps the round-robin shape, the permutation and the per-GPU counts `i / n (+1)` |
| ResourceAllocator.CreateTaskQueue | pipeline/multigpu/resource_allocator.py:73-96 | the queue is every file as `(path, i + 1, len(files))` in order, then one sentinel per worker |
| ResourceAllocator.SumBetween | pipeline/multigpu/resource_allocator.py:124-132 | a sum of sizes lies between count times the least and count times the largest |
| ResourceAllocator.EstimateWorkload | pipeline/multigpu/resource_allocator.py:107-134 | all zero for no files; otherwise the count, the total, the mean, and a least and a largest size that occur among the files and bound every size, the mean lying between them |
| ResourceAllocator.EstimateOf | pipeline/multigpu/resource_allocator.py:124-134 | the statistics of a non-empty size list, with min and max attained and bounding every size |
| ResourceAllocator.MeanBetween | pipeline/multigpu/resource_allocator.py:124-134 | the mean size lies between the least and the largest size |
| ResourceAllocator.ValidateInputDir | pipeline/multigpu/resource_allocator.py:152-168 | `(True, "")` exactly for an existing directory; otherwise "not found" or "not a directory" with the path |
| ResourceAllocator.GetWorkloadDistributionStats | pipeline/multigpu/resource_allocator.py:170-196 | per-GPU file counts and byte totals, the counts adding up to all files, and their means |
| GpuDetector.FirstMissing | pipeline/multigpu/gpu_detector.py:64-66 | the first requested id that is not available, with every earlier one available; none exactly when all are |
| GpuDetector.Pieces | pipeline/multigpu/gpu_detector.py:136 | the comma-separated pieces, each stripped |
| GpuDetector.ParseList | pipeline/multigpu/gpu_detector.py:135-141 | succeeds exactly when every stripped piece is an integer, giving those integers in order; otherwise the `ValueError` quoting the list |
| GpuDetector.ParseListOfJoin | pipeline/multigpu/gpu_detector.py:135-141 | a comma-joined list of ids as `str` writes them parses back to the ids |
| GpuDetector.IdListIsNotAuto | pipeline/multigpu/gpu_detector.py:129 | such a list is never taken for `auto` |
| GpuDetector.IntTextShape | pipeline/multigpu/gpu_detector.py:136 | `str(n)` has no comma and no surrounding blanks |
| GpuDetector.GPUDetector.constructor | pipeline/multigpu/gpu_detector.py:25-27 | nothing is cached |
| GpuDetector.GPUDetector.GetAvailableGpus | pipeline/multigpu/gpu_detector.py:29-44 | the first call detects `[0, count)` (or none without CUDA) and caches it; later calls return the cache |
| GpuDetector.GPUDetector.ValidateGpus | pipeline/multigpu/gpu_detector.py:46-68 | an empty request fails before detection; otherwise it succeeds exactly when GPUs exist and every requested id is among them, with the scan's message |
| GpuDetector.GPUDetector.GetGpuCount | pipeline/multigpu/gpu_detector.py:70-77 | the length of the (cached) device list |
| GpuDetector.GPUDetector.ParseGpuList | pipeline/multigpu/gpu_detector.py:115-141 | `auto` in any case gives the detected list, or `ValueError` when none; anything else is parsed as a comma list without detection |
| GpuDetector.CheckAvailable | pipeline/multigpu/gpu_detector.py:59-68 | the scan: success exactly when GPUs exist and every requested id is available, the message empty exactly on success |
| BatchTranscribe.LoadCache | scripts/batch_transcribe.py:40-51 | a missing or corrupt cache gives the empty state; a stored cache gives its `completed` and `failed` collections |
| BatchTranscribe.ProgressState.constructor | scripts/batch_transcribe.py:28-38 | the state is what loading the cache gives |
| BatchTranscribe.ProgressState.Save | scripts/batch_transcribe.py:53-61 | writes both collections, so that loading the cache back gives the same state |
| BatchTranscribe.ProgressState.MarkCompleted | scripts/batch_transcribe.py:63-68 | the file becomes completed and is no longer failed, so it is not retried; the saved cache reloads to the new state |
| BatchTranscribe.ProgressState.MarkFailed | scripts/batch_transcribe.py:70-73 | records (or replaces) the file's error, completion unchanged; it is retried only with `--retry-failed`; the saved cache reloads to the new state |
| BatchTranscribe.KeepAudio | scripts/batch_transcribe.py:147-149 | exactly the names with a supported extension |
| BatchTranscribe.AudioFiles | scripts/batch_transcribe.py:145-150 | the supported audio files of the directory, sorted ascending, each once per listing entry |
| BatchTranscribe.SelectedMembers | scripts/batch_transcribe.py:284-291 | a file is selected exactly when it is in the batch and neither skipped as completed (with resume) nor as failed (without retry) |
| BatchTranscribe.SelectFiles | scripts/batch_transcribe.py:284-294 | builds `files_to_process` in order, and `already_completed` plus the selected count is the batch size |
| BatchTranscribe.Attempts | scripts/batch_transcribe.py:152-242 | between 1 and `max_retries - retry_count + 1` tries are made, and the outcome is a failure exactly when the last try failed, with that try's `str(e)` as the error |
| BatchTranscribe.AttemptsAllFailedBefore | scripts/batch_transcribe.py:219-242 | every try before the last failed, and a final failure happens only after the last retry |
| BatchTranscribe.Backoff | scripts/batch_transcribe.py:232 | the delays slept between tries are `2 ** retry_count` for consecutive retry counts |
| BatchTranscribe.TranscribeFile | scripts/batch_transcribe.py:152-242 | the outcome is that of the last try; the delays are the backoff sequence; a success and a final failure are each recorded once, in both the batch summary and the progress state |
| BatchTranscribe.CalculateEta | scripts/batch_transcribe.py:248-268 | "unknown" exactly when nothing was processed; otherwise the hours/minutes/seconds of the average time per file times the files left, leading zero units dropped |
| BatchTranscribe.Run | scripts/batch_transcribe.py:270-403 | no audio file exits 0; otherwise it selects the files to process; sequentially the exit code is 0 exactly when every one of them finally succeeds, while with `--parallel` and more than one worker it is 0 whatever the outcomes, since the workers record into copies of the summary |
| Logging.BatchLogSummary.constructor | pipeline/logger.py:280-291 | all counters zero, no errors |
| Logging.BatchLogSummary.RecordSuccess | pipeline/logger.py:293-297 | total and successful grow by one; `total == successful + failed == ...` is kept |
| Logging.BatchLogSummary.RecordFailure | pipeline/logger.py:299-304 | total and failed grow by one and the `{item, error}` entry is appended, keeping one error entry per failure |
| Logging.BatchLogSummary.ExitCode | pipeline/logger.py:306-313 | 0 exactly when every recorded item succeeded (equivalently, no error entry), else 1 |
| Logging.BatchLogSummary.SuccessRate | pipeline/logger.py:318-324 | "N/A" for an empty batch, otherwise the percentage with one decimal and a '%' |
| Logging.AllSuccessfulRate | pipeline/logger.py:318-324 | a batch in which everything succeeded prints "100.0%" |
| Logging.DefaultLogDir | pipeline/logger.py:153-170 | with no configured template, logs go to `data/outputs/<slug>/logs`, "default" standing in for an empty slug |
| Logging.LogDirWithoutPlaceholder | pipeline/logger.py:153-170 | a configured template without `{slug}` is used as given |
| Logging.LogDirFillsPlaceholders | pipeline/logger.py:153-170 | for any configured template whose every `{` opens a `{slug}`, and a slug without `{`, every placeholder is replaced: no `{` remains |
| Logging.LogErrorExit | pipeline/logger.py:232-245 | logs the message at ERROR level with the exit code and returns that code |
| Logging.DelayIsGeometric | pipeline/logger.py:376-405 | the k-th delay is `initial_delay * backoff_factor ** k` |
| Logging.RetryLoop | pipeline/logger.py:373-411 | no attempt and a `None` result when `max_attempts <= 0`; otherwise at most `max_attempts` calls, every call but the last raising a transient error, the non-negative geometric delays slept between them, and the result or error of the last call (a transient one only on the last attempt); a transient error before the last attempt ends the loop exactly when the next delay is negative, as `time.sleep` then raises `ValueError` |
| Logging.DelayNonNegative | pipeline/logger.py:376-405 | a non-negative `initial_delay` and `backoff_factor`, as every caller passes, give only non-negative delays, so `time.sleep` never raises |
| Logging.OperationName | pipeline/logger.py:456 | the given operation name, or the function's name when it is missing or empty |
| Transcribe.AdjustComputeType | pipeline/transcribe_fw.py:100-104 | float16 on the CPU becomes int8; every other combination is kept |
| Transcribe.AdjustComputeTypeSettles | pipeline/transcribe_fw.py:100-104 | on the CPU the adjusted type is never float16, and adjusting again changes nothing |
| Transcribe.NewTranscriber | pipeline/transcribe_fw.py:24-116 | fails exactly when device selection fails; otherwise the requested model size (never changed by the VRAM check), the selected device and the adjusted compute type |
| Transcribe.Float16Placement | pipeline/transcribe_fw.py:80-108 | a float16 request placed on the CPU runs as int8, on CUDA as float16 |
| Transcribe.FormatSegment | pipeline/transcribe_fw.py:170-185 | the model's start and end, the stripped text, and the words exactly when word timestamps are on and the model gave words |
| Transcribe.FormatSegments | pipeline/transcribe_fw.py:166-188 | one formatted segment per model segment, in order |
| Transcribe.AudioDuration | pipeline/transcribe_fw.py:195 | the last segment's end, 0 without segments; also the duration `_diarize_implementation` of the WhisperX diarizer reports |
| Transcribe.GuardedRtf | pipeline/transcribe_fw.py:196 | elapsed time per second of audio for a positive duration, else 0 |
| Transcribe.UsedPath | pipeline/transcribe_fw.py:139-156 | the model reads the original file unless preprocessing succeeded |
| Transcribe.PreprocessingKey | pipeline/transcribe_fw.py:210-212 | the `preprocessing` entry is present exactly for a successful run with non-empty metrics, and holds them |
| Transcribe.Assemble | pipeline/transcribe_fw.py:190-212 | the result's segments, its text (the segment texts joined by blanks), duration, guarded rtf and preprocessing entry |
| Transcribe.SegmentsFollowModel | pipeline/transcribe_fw.py:166-188 | the i-th result segment has the model's times and a stripped text with no blank at either end |
| Transcribe.TranscribeAudio | pipeline/transcribe_fw.py:118-221 | the model runs on the path preprocessing leaves, and the one-pass loop builds exactly the assembled result |
| Transcribe.FallbackToOriginal | pipeline/transcribe_fw.py:139-156 | a failed or disabled preprocessing step leaves the model on the original file and no `preprocessing` entry |
| DiarizerBase.NewResult | pipeline/diarization/base.py:12-28 | a result with the given segments and path and every other field at its default |
| DiarizerBase.Diarize | pipeline/diarization/base.py:48-89 | a missing file raises `FileNotFoundError` before the implementation runs; otherwise the implementation's result is returned unchanged |
| DiarizerBase.MissingFileIgnoresImplementation | pipeline/diarization/base.py:65-67 | for a missing file the outcome does not depend on the implementation |
| DiarizerBase.FormatSegment | pipeline/diarization/base.py:123-128 | defaults 0.0, 0.0, "UNKNOWN" and "" for missing keys, the text stripped |
| DiarizerBase.FormatSegments | pipeline/diarization/base.py:111-131 | one formatted segment per input segment, in order |
| DiarizerBase.FormatSegmentsIdempotent | pipeline/diarization/base.py:111-131 | formatting an already formatted list gives it back |
| DiarizerBase.FormatSegmentDefaults | pipeline/diarization/base.py:123-128 | missing speaker and text become "UNKNOWN" and "", and a formatted text has no blank at either end |
| WhisperX.ResolveToken | pipeline/diarization/whisperx.py:50-59 | succeeds exactly when a non-empty token is passed or set in the environment, preferring the argument; otherwise the `ValueError` |
| WhisperX.EnvTokenIsFallback | pipeline/diarization/whisperx.py:50 | with a usable argument the environment is never consulted |
| WhisperX.FormatWord | pipeline/diarization/whisperx.py:253-261 | a word's start, end and text default to 0.0, 0.0 and "", its speaker kept as given |
| WhisperX.FormatWords | pipeline/diarization/whisperx.py:253-261 | one formatted word per input word, in order |
| WhisperX.FormatSegmentX | pipeline/diarization/whisperx.py:239-262 | defaulted times, stripped text, the speaker only when present, the words only when present and non-empty, one per input word |
| WhisperX.FormatWhisperXSegments | pipeline/diarization/whisperx.py:228-265 | one formatted segment per input segment, in order |
| WhisperX.FormattedWordsFollowInput | pipeline/diarization/whisperx.py:253-261 | the k-th formatted word keeps the k-th input word's text and speaker |
| WhisperX.DetectedSpeakers | pipeline/diarization/whisperx.py:186-191 | `None` exactly when no segment has a speaker; otherwise the number of distinct speakers, at least 1 |
| WhisperX.SpeakersBound | pipeline/diarization/whisperx.py:186-191 | there are never more distinct speakers than segments |
| WhisperX.CountMatchesFormatted | pipeline/diarization/whisperx.py:186-191 | the speakers counted are exactly the speakers of the formatted output |
| WhisperX.DetectedLanguage | pipeline/diarization/whisperx.py:135 | the model's language, else the requested one, else "en" |
| WhisperX.DiarizeImplementation | pipeline/diarization/whisperx.py:81-226 | the formatted final segments; a speaker count only when diarization succeeded; duration, guarded rtf, language, and 0 for the timing of a step that raised |
| WhisperX.SpeakerCountBounded | pipeline/diarization/whisperx.py:186-226 | a reported speaker count lies between 1 and the number of result segments |
| WhisperX.NoSegmentsZeroRtf | pipeline/diarization/whisperx.py:205-212 | with no segments the duration is 0 and so is the rtf |
| DiarizationBase.ValidateAudioFile | pipeline/diarization_base.py:85-101 | the path back exactly when it exists, otherwise `FileNotFoundError` quoting it |
| DiarizationBase.ResolveOutputPath | pipeline/diarization_base.py:104-129 | an explicit output path is used as given |
| DiarizationBase.DefaultOutputName | pipeline/diarization_base.py:104-129 | without an explicit output, the file is named `stem + suffix + extension` |
| DiarizationBase.SaveTextOutput | pipeline/diarization_base.py:193-214 | the written content is one line per segment, in order, each ended by a newline |
| DiarizationBase.TextLines | pipeline/diarization_base.py:204-214 | one rendered line per segment, in order |
| DiarizationBase.TextLineSpeaker | pipeline/diarization_base.py:204-214 | every line starts with the bracketed speaker, "UNKNOWN" when absent |
| DiarizationBase.FixedHasNoNewline | pipeline/diarization_base.py:214 | `f"{x:.2f}"` holds no newline |
| DiarizationBase.TextOutputReadsBack | pipeline/diarization_base.py:193-214 | with newline-free speakers and texts the file splits back into exactly its lines |
| DiarizationBase.DiarizeWithTiming | pipeline/diarization_base.py:216-241 | keeps an existing `processing_time` or records the measured one; sets `rtf` to processing time over duration only for a positive duration; no other key changes |
| DiarizeAlt.SpeakerLabelInjective | pipeline/diarize_alt.py:270 | `f"SPEAKER_{label:02d}"` gives different clusters different names |
| DiarizeAlt.TurnsFromShape | pipeline/diarize_alt.py:258-285 | from window `i` on: one turn more than label changes ahead, the first opening where the previous one closed with the current label, the last closing at `min(duration, last centre + window/2)` |
| DiarizeAlt.TurnsFromContiguous | pipeline/diarize_alt.py:262-275 | each turn ends where the next starts (at the midpoint between the windows either side of a change) |
| DiarizeAlt.TurnsFromAlternating | pipeline/diarize_alt.py:262-275 | a turn is closed only at a label change, so neighbouring turns have different speakers |
| DiarizeAlt.CreateSegmentsTurns | pipeline/diarize_alt.py:239-287 | no windows give no turns; otherwise one turn per run of equal labels, tiling `[max(0, first - w/2), min(duration, last + w/2)]` contiguously with alternating speakers |
| DiarizeAlt.CreateSegmentsLoop | pipeline/diarize_alt.py:253-287 | the loop closing a turn at each label change builds exactly those turns |
| DiarizeAlt.MergeFrom | pipeline/diarize_alt.py:302-314 | the merge keeps the first turn's start and speaker and never yields more turns than it reads |
| DiarizeAlt.KeepLong | pipeline/diarize_alt.py:317-321 | the kept turns are input turns at least `min_segment_duration` long |
| DiarizeAlt.KeepLongExactly | pipeline/diarize_alt.py:317-321 | a turn is kept exactly when it is in the list and long enough |
| DiarizeAlt.InputAfterMerge | pipeline/diarize_alt.py:305-312 | the input list keeps its length when merging writes into it |
| DiarizeAlt.MergeFromSeparated | pipeline/diarize_alt.py:302-314 | no two neighbouring merged turns (before the length filter) could be merged again: different speakers or a gap of at least 0.5 s |
| DiarizeAlt.AfterFromKeeps | pipeline/diarize_alt.py:302-314 | merging leaves every input turn's start and speaker alone, and each merged turn is one of the input dictionaries as left |
| DiarizeAlt.MergeSegmentsLoop | pipeline/diarize_alt.py:289-323 | the loop over dictionaries it extends in place returns exactly the merged, filtered turns and leaves the input list as the merge writes it |
| DiarizeAlt.MergeStep | pipeline/diarize_alt.py:304-314 | one pass either extends the last merged turn in place or starts a new one, keeping the loop invariant |
| DiarizeAlt.Overlap | pipeline/diarize_alt.py:349-351 | the overlap is never negative |
| DiarizeAlt.Scan | pipeline/diarize_alt.py:345-355 | the best overlap so far, from the turn it names, with no turn named exactly while it is 0 |
| DiarizeAlt.ScanIsFirstMax | pipeline/diarize_alt.py:345-355 | the scan finds the greatest overlap, has no winner exactly when no turn overlaps positively, and the winner is the first turn with the greatest overlap |
| DiarizeAlt.AlignWithTranscript | pipeline/diarize_alt.py:325-362 | a copy of each transcript segment, in order, changed only in its speaker, which is always set |
| DiarizeAlt.AlignPicksFirstMax | pipeline/diarize_alt.py:338-360 | the speaker is "SPEAKER_00" when no turn overlaps positively, otherwise that of the first turn with the greatest positive overlap |
| DiarizeAlt.AlignWithTranscriptLoop | pipeline/diarize_alt.py:338-362 | the nested loops build exactly the aligned list |
| Exporters.FormatTimestampSrt | pipeline/exporters.py:11-17 | for a non-negative time, the `HH:MM:SS,mmm` stamp reads back as the time's whole milliseconds |
| Exporters.FormatTimestampVtt | pipeline/exporters.py:20-26 | the SRT stamp with '.' in place of ',' and otherwise the same characters; it too reads back as the whole milliseconds |
| Exporters.MillisTotal | pipeline/exporters.py:13-16 | hours, minutes, seconds and milliseconds of a non-negative time add up to its whole milliseconds |
| Exporters.StampRoundTrip | pipeline/exporters.py:11-26 | a non-negative time's stamp parses back to its whole milliseconds: no field wraps, hours may exceed two digits |
| Exporters.ParseFields | pipeline/exporters.py:17 | digit fields joined as a stamp parse back field by field |
| Exporters.FirstInvalid | pipeline/exporters.py:33-46 | the first segment from `i` on that the checks reject, every earlier one passing |
| Exporters.ValidateSegments | pipeline/exporters.py:29-46 | returns exactly when the input is a list whose every item passes; a non-list is "Segments must be a list"; otherwise the message of the first failing item |
| Exporters.SpanError | pipeline/exporters.py:43-46 | a well-formed segment is rejected exactly when a time is negative or start is after end |
| Exporters.ValidateEncoded | pipeline/exporters.py:29-46 | validating the dictionaries of typed segments gives the verdict on their spans |
| Exporters.ValidateTypedSpans | pipeline/exporters.py:29-46 | typed segments pass exactly when every one has `0 <= start <= end` (zero-length accepted); otherwise the message names the first bad one |
| Exporters.SpanCheckPasses | pipeline/exporters.py:43-46 | the span check passes from `i` on exactly when every span from `i` on is ordered and non-negative |
| Exporters.SpanCheckNames | pipeline/exporters.py:43-46 | a failing span check reports the first bad segment |
| Exporters.TxtLines | pipeline/exporters.py:69-78 | one line per segment, in order |
| Exporters.ExportTxt | pipeline/exporters.py:49-85 | the validation error before anything is written, or exactly one line per segment (VTT stamps and speaker when asked), each ended by a newline |
| Exporters.TxtReadsBackLineBySegment | pipeline/exporters.py:69-78 | with newline-free texts and speakers, the TXT file splits back into one line per segment |
| Exporters.SrtLinesBlocks | pipeline/exporters.py:107-117 | lines `4k .. 4k+3` of an SRT file are block `k + 1`: index, timing, text, blank line; blocks numbered from 1 in order |
| Exporters.ExportSrt | pipeline/exporters.py:88-124 | the validation error, or the SRT blocks of all segments in order |
| Exporters.VttStartsWithHeader | pipeline/exporters.py:146 | every WebVTT file starts with "WEBVTT" and a blank line |
| Exporters.ExportVtt | pipeline/exporters.py:127-160 | the validation error, or the header followed by one cue per segment, so a written file always starts with "WEBVTT\n\n" |
| Exporters.WriteVtt | pipeline/exporters.py:146-153 | the writes once validated: the header then each cue (speaker line when present, timing, text, blank line) |
| Exporters.JsonEntry | pipeline/exporters.py:184-192 | an entry has exactly start, end and text, plus `speaker` when present and `words` when wanted and present |
| Exporters.JsonEntryRoundTrip | pipeline/exporters.py:182-193 | an exported entry reads back as the segment, without its words when they were left out |
| Exporters.ExportJson | pipeline/exporters.py:163-202 | the validation error, or `{"segments": [...]}` with one entry per segment, in order |
| Exporters.JsonEntries | pipeline/exporters.py:182-193 | the appending loop gives one entry per segment, in order |
| Exporters.FirstUnknown | pipeline/exporters.py:228-230 | the first requested format without a handler, every earlier one known |
| Exporters.Handle | pipeline/exporters.py:221-233 | a known format's handler raises the validation error or renders the file |
| Exporters.FilesMapKeys | pipeline/exporters.py:227-234 | the result has one key per format written, each mapped to `output_dir/base_name + extension` |
| Exporters.WriteFormats | pipeline/exporters.py:228-234 | writes formats in order, stopping at the first unknown format or failing handler, with the matching error; the result maps exactly the formats written |
| Exporters.ExportAll | pipeline/exporters.py:205-242 | all four formats when none are named; an unknown format raises after the ones before it were written; invalid segments raise before any file; otherwise every format is written and mapped to its path |
| PostprocessSpeakers.Labels | pipeline/postprocess_speakers.py:32-37 | the distinct speaker labels, without repeats, each one a label some segment carries |
| PostprocessSpeakers.SortedLabels | pipeline/postprocess_speakers.py:40 | the distinct labels sorted, and a permutation of them |
| PostprocessSpeakers.SpeakerNumber | pipeline/postprocess_speakers.py:41 | every label gets a number between 1 and the number of distinct labels |
| PostprocessSpeakers.NormalizeSpeakerNames | pipeline/postprocess_speakers.py:12-61 | one segment out per segment in; only `speaker` changes; a segment has a speaker afterwards exactly when it had one, and it is "prefix n" for its label's 1-based place in sorted order |
| PostprocessSpeakers.SpeakerNameInjective | pipeline/postprocess_speakers.py:41 | "prefix m" and "prefix n" are equal only when m equals n |
| PostprocessSpeakers.NormalizeInjective | pipeline/postprocess_speakers.py:41-56 | two segments get the same new name exactly when they had the same label: renaming neither merges nor splits speakers |
| PostprocessSpeakers.NumbersFollowSortOrder | pipeline/postprocess_speakers.py:40-41 | a label that sorts earlier gets a smaller number |
| PostprocessSpeakers.NumbersOnto | pipeline/postprocess_speakers.py:41 | every number from 1 to the count of distinct labels is handed out |
| PostprocessSpeakers.LabelsAtMost | pipeline/postprocess_speakers.py:32-37 | there are never more distinct labels than segments |
| PostprocessSpeakers.JoinTexts | pipeline/postprocess_speakers.py:103-105 | the joined text is no longer than both texts and one space |
| PostprocessSpeakers.Absorb | pipeline/postprocess_speakers.py:102-107 | absorbing a segment keeps the utterance's start and speaker, takes the segment's end and joins the texts |
| PostprocessSpeakers.MergeFrom | pipeline/postprocess_speakers.py:88-116 | the merge emits at least one and at most one utterance per remaining input |
| PostprocessSpeakers.MergeHead | pipeline/postprocess_speakers.py:93-95 | the first utterance has the first segment's start and speaker |
| PostprocessSpeakers.OwnerSteps | pipeline/postprocess_speakers.py:96-112 | each input's utterance number is a valid index, and consecutive inputs stay in the same utterance or move to the next |
| PostprocessSpeakers.OwnerLast | pipeline/postprocess_speakers.py:114-116 | the last input belongs to the last utterance, which is always emitted |
| PostprocessSpeakers.ChunkAt | pipeline/postprocess_speakers.py:88-116 | an input that opens an utterance gives it its start and speaker, one that closes it gives its end, and every input has its utterance's speaker |
| PostprocessSpeakers.ChunkingFrom | pipeline/postprocess_speakers.py:88-116 | the utterance numbers climb by 0 or 1 over all inputs, and every input satisfies the chunk facts |
| PostprocessSpeakers.MergeIsChunking | pipeline/postprocess_speakers.py:64-126 | the merge partitions the input into consecutive runs, one per output utterance, in order; no utterance mixes speakers |
| PostprocessSpeakers.MergeShortUtterancesLoop | pipeline/postprocess_speakers.py:80-126 | the loop with the utterance being built gives the merge function's result, never longer than the input |
| PostprocessSpeakers.PostprocessShape | pipeline/postprocess_speakers.py:129-170 | the pipeline never lengthens the transcript, leaves it unchanged when both steps are off, and when renaming every output speaker is a numbered name |
| Outline.ParseAnchorFields | pipeline/outline_from_segments.py:17 | an anchor built from three digit fields reads back as hours, minutes and seconds |
| Outline.AnchorRoundTrip | pipeline/outline_from_segments.py:12-17 | a non-negative time's `[HH:MM:SS]` anchor reads back as its whole seconds: no field wraps, hours may exceed two digits |
| Outline.SliceEnd | pipeline/outline_from_segments.py:36 | `words[:n]` never takes more words than there are; a negative `n` counts from the end |
| Outline.KeyPhrasesShape | pipeline/outline_from_segments.py:20-36 | a text of at most `max_words` words is only stripped; a longer one keeps exactly its first `max_words` words and ends in "..." |
| Outline.EllipsisWords | pipeline/outline_from_segments.py:36 | the words joined and followed by "..." split back into those words once the dots are cut |
| Outline.TopicChangeGaps | pipeline/outline_from_segments.py:39-70 | a speaker change is a topic change at a gap of `gap_threshold`, the same speaker needs twice that, and a later start never undoes a topic change |
| Outline.ChunksShape | pipeline/outline_from_segments.py:111-141 | chunks are non-empty, concatenate back to the chunk being built and the unread segments, and the first extends the chunk being built |
| Outline.ChunksOpen | pipeline/outline_from_segments.py:113-122 | each chunk after the first opens where the boundary test fires on the chunk before it |
| Outline.ChunksStay | pipeline/outline_from_segments.py:113-140 | no segment inside a chunk after its first is a boundary |
| Outline.ChunksAreBoundaries | pipeline/outline_from_segments.py:106-155 | the transcript is cut into non-empty chunks that read back to it in order, exactly at the segments where a topic change or an elapsed interval fires |
| Outline.Entry | pipeline/outline_from_segments.py:124-134 | a chunk's entry has its first segment's start and speaker ("Unknown" if none) |
| Outline.Entries | pipeline/outline_from_segments.py:129-155 | one entry per chunk |
| Outline.EntriesAt | pipeline/outline_from_segments.py:129-155 | the k-th entry is made from the k-th chunk |
| Outline.GenerateOutline | pipeline/outline_from_segments.py:73-163 | never more entries than segments, and no entry exactly when there is no segment |
| Outline.OutlineEntryOfChunk | pipeline/outline_from_segments.py:124-155 | each entry, in order, carries its chunk's first start, that time's anchor, its first speaker and the key phrases of the chunk's stripped texts joined by blanks |
| Outline.BoundaryTest | pipeline/outline_from_segments.py:113-122 | the loop's test is the boundary test on the chunk being built |
| Outline.OutlineStep | pipeline/outline_from_segments.py:122-141 | one loop pass keeps the emitted entries those of the emitted chunks and does not change the chunks still to come |
| Outline.GenerateOutlineLoop | pipeline/outline_from_segments.py:95-163 | the loop gives exactly the outline function's entries |
| Outline.BodyLines | pipeline/outline_from_segments.py:182-188 | three lines per entry, in order |
| Outline.MarkdownLines | pipeline/outline_from_segments.py:166-190 | with one-line fields, the Markdown splits back into "# title", a blank line and, per entry in order, `## <anchor> <speaker>`, its summary and a blank line |
| Metrics.CalculateRtf | benchmarks/metrics.py:36-55 | defined exactly for a positive duration, and then RTF times the duration is the processing time; otherwise "Audio duration must be positive" |
| Metrics.KeepWordOrSpace | benchmarks/metrics.py:77 | only word characters and whitespace remain, and nothing is added |
| Metrics.Collapse | benchmarks/metrics.py:80 | no two spaces in a row remain, nothing is lengthened, and only empty text collapses to empty |
| Metrics.CollapseClean | benchmarks/metrics.py:74-80 | after lower-casing, punctuation removal and collapsing, only lower-case word characters and single spaces remain |
| Metrics.NormalizeTextNormalized | benchmarks/metrics.py:58-85 | the result is lower-case word characters separated by single spaces, with no blank at either end |
| Metrics.NormalizedFixed | benchmarks/metrics.py:58-85 | normalising already normalised text changes nothing |
| Metrics.NormalizeTextIdempotent | benchmarks/metrics.py:58-85 | normalising twice is normalising once |
| Metrics.DistZeroIff | benchmarks/metrics.py:133-142 | the word-level edit distance of two prefixes is 0 exactly when they are the same words |
| Metrics.DistUpper | benchmarks/metrics.py:133-142 | the distance never exceeds the longer prefix's length |
| Metrics.DistLower | benchmarks/metrics.py:133-142 | the distance is at least the difference of the lengths |
| Metrics.DistStep | benchmarks/metrics.py:135-142 | the distance satisfies the table's recurrence: the diagonal on equal words, else one more than the least neighbour |
| Metrics.WerOfZeroIff | benchmarks/metrics.py:117-146 | the word error rate is never negative and is 0 exactly when the two word sequences are equal (an empty reference gives 0 or 1) |
| Metrics.Ratio | benchmarks/metrics.py:145 | distance over a positive reference length is never negative and zero exactly when the distance is |
| Metrics.WerZeroIff | benchmarks/metrics.py:88-146 | the WER of two transcripts is 0 exactly when their normalised words agree |
| Metrics.EditDistance | benchmarks/metrics.py:124-142 | filling the table gives the edit distance of the two word sequences |
| Metrics.FillRow | benchmarks/metrics.py:134-142 | the inner loop fills row `i` with the distances and leaves every other row as it was |
| Metrics.CalculateWerTable | benchmarks/metrics.py:88-146 | `calculate_wer` with its table gives the WER function's value |
| Settings.EnvKey | config/settings.py:136 | the overriding variable always starts with "TALKSMITH_" |
| Settings.Lookup | config/settings.py:120-141 | the environment variable whenever it is set (even to ""), else the stored option, else the fallback |
| Settings.Assign | config/settings.py:205-217 | adds the section when missing, and leaves every other section as it was |
| Settings.GetAfterSet | config/settings.py:205-217 | after `set`, `get` of the same option returns the value, unless the environment overrides it |
| Settings.SetKeepsOthers | config/settings.py:205-217 | `set` changes what `get` reports for no other option |
| Settings.GetIgnoresKeyCase | config/settings.py:136-141 | option names that differ only in case name the same option |
| Settings.AsInt | config/settings.py:143-151 | the fallback when the value is missing or not an integer literal, else the integer |
| Settings.AsIntOfIntToString | config/settings.py:143-151 | a stored `str(n)` reads back as `n`, whatever the fallback |
| Settings.AsIntRejectsDecimal | config/settings.py:148-151 | "42.7" is not an integer literal, so the fallback is returned |
| Settings.AsBool | config/settings.py:163-168 | the fallback only when the value is missing; otherwise whether its lower-case form is "true", "yes", "1" or "on" |
| Settings.AsBoolIgnoresCase | config/settings.py:168 | an upper-cased value reads the same |
| Settings.AsBoolPresentIgnoresFallback | config/settings.py:165-168 | a value that is set, even "", decides on its own: the fallback no longer matters |
| Settings.CleanItems | config/settings.py:175 | no more items than pieces, each non-empty and without blanks at either end |
| Settings.CleanItemsOfClean | config/settings.py:175 | items already stripped and non-empty pass through unchanged, in order |
| Settings.AsList | config/settings.py:170-175 | a missing value gives the fallback or `[]`; an empty separator is Python's `ValueError`; otherwise the stripped non-blank pieces in order |
| Settings.AsListOfJoin | config/settings.py:170-175 | clean items free of the separator, joined by it, read back as exactly those items |
| Settings.Defaults | config/settings.py:73-118 | the defaults hold exactly the sections Paths, Models, Diarization, Export, Processing and Logging |
| Settings.Candidates | config/settings.py:60-64 | three standard locations |
| Settings.FirstExisting | config/settings.py:66-68 | the first existing candidate, none before it existing |
| Settings.FindConfigFilePriority | config/settings.py:42-71 | the given path, else TALKSMITH_CONFIG, else the first existing standard location, else ./config/settings.ini |
| Settings.ExplicitFileIsRead | config/settings.py:34-37 | an explicit path to an existing file is read, whatever the environment says |
| Settings.NoFileGivesDefaults | config/settings.py:36-40 | with no path, no TALKSMITH_CONFIG and no file in the standard locations, the defaults are loaded |
| Settings.DefaultBatchSize | config/settings.py:87 | without an override the defaults give batch size 16 |
| Settings.DefaultFormats | config/settings.py:100 | without an override the defaults give the formats txt, json, srt |
| Settings.DefaultEntries | config/settings.py:87-100 | the default batch size and formats entries as stored |
| Settings.TalkSmithConfig.constructor | config/settings.py:26-40 | the configuration path found by the priority rule, and the sections read from it or the defaults |
| Settings.TalkSmithConfig.Get | config/settings.py:120-141 | `get` on the object's sections, with the lookup's override order |
| Settings.TalkSmithConfig.GetInt | config/settings.py:143-151 | `get_int` on the object's sections |
| Settings.TalkSmithConfig.GetBool | config/settings.py:163-168 | `get_bool` on the object's sections |
| Settings.TalkSmithConfig.GetList | config/settings.py:170-175 | `get_list` on the object's sections |
| Settings.TalkSmithConfig.Set | config/settings.py:205-217 | stores the option in place, adding the section when missing; the path is unchanged |
| Settings.ConfigRegistry.constructor | config/settings.py:240 | no configuration yet |
| Settings.ConfigRegistry.GetConfig | config/settings.py:243-259 | the existing configuration unless none exists or `reload` is set, in which case a fresh one is built from the path; it becomes the current one |
| GpuUtils.SelectDevice | pipeline/gpu_utils.py:98-152 | any preference other than auto, cuda and cpu is a `ValueError`; "cpu" always gives cpu; "cuda" succeeds exactly when CUDA is available (`RuntimeError` otherwise); "auto" picks cuda exactly when CUDA is available with a device; the answer is always cuda or cpu |
| GpuUtils.AutoChoiceIsHonoured | pipeline/gpu_utils.py:109-152 | asking explicitly for the device "auto" chose gives the same answer on the same machine |
| GpuUtils.CpuIgnoresProbe | pipeline/gpu_utils.py:113-116 | "cpu" never fails and never depends on the GPU probe |
| GpuUtils.SuggestModel | pipeline/gpu_utils.py:155-176 | the suggestion is always one of tiny, base, small, medium, large-v3 |
| GpuUtils.Reached | pipeline/gpu_utils.py:167-176 | the count of thresholds reached is a valid model index |
| GpuUtils.Rank | pipeline/gpu_utils.py:167-176 | the suggestion's index is a valid model index |
| GpuUtils.RankBracket | pipeline/gpu_utils.py:167-176 | the VRAM lies between the threshold of its suggestion and the next one up |
| GpuUtils.SuggestMatchesRank | pipeline/gpu_utils.py:167-176 | the if-ladder picks the model of the reached-threshold count |
| GpuUtils.SuggestMonotone | pipeline/gpu_utils.py:155-176 | more VRAM never gives a smaller model |
| GpuUtils.SuggestIsLargestFitting | pipeline/gpu_utils.py:155-176 | the suggestion is the largest model whose threshold (1, 2, 5, 10 GB) the VRAM reaches |
| GpuUtils.CheckVramSufficient | pipeline/gpu_utils.py:81-95 | false when the free VRAM is unknown, else whether it covers the requirement |
| GpuUtils.SufficientForLess | pipeline/gpu_utils.py:81-95 | enough VRAM for a requirement is enough for any smaller one |
| Plan.NewPlanGenerator | pipeline/plan_from_transcript.py:101-128 | the model type is lower-cased; "claude" and "gpt" succeed exactly when their client package is present, with their fixed model, and `ImportError` otherwise; any other type is a `ValueError` quoting the type as given |
| Plan.ModelTypeIgnoresCase | pipeline/plan_from_transcript.py:109-128 | two spellings that lower-case alike construct alike |
| Plan.CapitalisedClaude | pipeline/plan_from_transcript.py:109-117 | "Claude" is accepted as "claude" with the Claude model |
| Plan.LoadSegments | pipeline/plan_from_transcript.py:130-147 | succeeds exactly for a list (returned as it is) or a dictionary with "segments" (its value); anything else is the `ValueError` "Invalid segments format" |
| Plan.WrappedListLoadsAlike | pipeline/plan_from_transcript.py:137-144 | a bare list and the same list under "segments" load alike |
| Plan.MapLines | pipeline/plan_from_transcript.py:151-160 | one line per segment, in order |
| Plan.SegmentsToText | pipeline/plan_from_transcript.py:149-162 | the loop's lines, one per segment, joined by newlines |
| Plan.TimestampFields | pipeline/plan_from_transcript.py:158-160 | the `[MM:SS]` fields are the whole minutes and the whole seconds past them, seconds below 60 |
| Plan.StripNoNewline | pipeline/plan_from_transcript.py:154 | stripping keeps a newline-free text newline-free |
| Plan.TranscriptLineNoNewline | pipeline/plan_from_transcript.py:153-160 | a line from newline-free fields holds no newline |
| Plan.TranscriptSplitsBack | pipeline/plan_from_transcript.py:149-162 | with newline-free speakers and texts, the transcript splits back into one line per segment |
| Plan.FillKeysSnoc | pipeline/plan_from_transcript.py:215-217 | filling one more key writes the default only when that key is still missing |
| Plan.FillRequiredKeys | pipeline/plan_from_transcript.py:207-217 | the defaulting loop gives the plan data with every missing required key filled |
| Plan.RequiredKeysPresent | pipeline/plan_from_transcript.py:207-217 | afterwards every required key is present, the model's keys keep their values, and only required keys are added, with "Not specified in transcript." |
| Plan.FillIdempotent | pipeline/plan_from_transcript.py:215-217 | filling complete plan data changes nothing |
| Cli.StemHasNoSlash | cli/main.py:32 | a file's stem never holds a path separator |
| Cli.SlugIsClean | cli/main.py:29-34 | a slug has no blank, no underscore, no upper-case letter and no path separator |
| Cli.SlugIgnoresDirectory | cli/main.py:29-34 | the slug depends only on the final path component |
| Cli.Formats | cli/main.py:63-65 | no or an empty `--formats` gives txt, srt, vtt, json; there is always at least one format |
| Cli.FormatsJoinBack | cli/main.py:63-65 | the formats parsed from an argument join back with commas into it |
| Cli.FormatsOfJoin | cli/main.py:63-65 | a comma-joined list of comma-free names is read back as that list |
| Cli.SegmentsOf | cli/main.py:58 | `data.get("segments", [])` succeeds exactly on a dictionary, giving the value under "segments" when present and `[]` when absent; anything else raises the `AttributeError` |
| Cli.EmptyFileIsNotExported | cli/main.py:138-141 | a file whose segments are missing or empty fails with "No segments in file" and is never exported |
| Cli.Failures | cli/main.py:126-161 | at most one failure entry per file |
| Cli.NoFailuresIff | cli/main.py:126-177 | no failure is recorded exactly when every file is exported |
| Cli.FailuresNameFiles | cli/main.py:140-161 | every failure entry names a file of the batch |
| Cli.BatchCommand | cli/main.py:94-177 | 0 with no file; otherwise every file is counted, the failures are exactly those of the files in order, and the exit code is 0 exactly when there is none |
| Cli.ExportBaseName | cli/main.py:66 | the given name, else the input's stem |
| Cli.ExportCommand | cli/main.py:37-91 | the code is 0 or 1; a missing input gives 1; 0 exactly when the input exists, reads as a dictionary and exports without error |
| Cli.ExportAcceptsEmptySegments | cli/main.py:56-75 | a file with no segments, which a batch rejects, is exported by `export` |
| Cli.Main | cli/main.py:262-339 | no command gives 0; export, batch and demo give their command's code; any other command gives 1 |
| GoogleDocs.FirstMissingKey | pipeline/google_docs_integration.py:81-84 | none exactly when every required key is present; otherwise a required key the section lacks |
| GoogleDocs.RequiredKeyCheck | pipeline/google_docs_integration.py:81-84 | with the one required key, validation reports exactly its absence |
| GoogleDocs.LoadConfig | pipeline/google_docs_integration.py:69-86 | a missing file is `FileNotFoundError`; no [google_docs] section or no credentials_file is a `ValueError` with the source's text |
| GoogleDocs.LoadConfigSucceeds | pipeline/google_docs_integration.py:69-86 | loading succeeds exactly when the file exists with a section naming the credentials file, and gives the parsed file |
| GoogleDocs.NewUploaderConfig | pipeline/google_docs_integration.py:46-67 | `ImportError` without the Google packages, else the configuration at the given or default path |
| GoogleDocs.DefaultPathIsUsed | pipeline/google_docs_integration.py:46-67 | without a path the uploader reads config/google_docs.ini, as if it had been given |
| GoogleDocs.SharePermission | pipeline/google_docs_integration.py:214-243 | the role as given; "domain:X" grants domain X; "anyone" is a public grant; any other target is sent as the email address, as a "user" grant exactly when it holds an '@' |
| GoogleDocs.PermissionShape | pipeline/google_docs_integration.py:214-243 | the kind is user, anyone or domain; only a domain grant carries a domain; a user grant carries the target as its address |
| GoogleDocs.DomainRoundTrip | pipeline/google_docs_integration.py:229-231 | "domain:" followed by a domain grants exactly that domain |
| GoogleDocs.NonEmailIsPublicGrant | pipeline/google_docs_integration.py:224-235 | a target with no '@' that is not a domain is sent as a public grant |
| GoogleDocs.NoEmphasisMarks | pipeline/google_docs_integration.py:245-269 | the plain text holds no '*' and no '_' |
| GoogleDocs.PlainTextUnchanged | pipeline/google_docs_integration.py:245-269 | text without '*', '_' and '[' passes through unchanged |
| GoogleDocs.OpenCheckbox | pipeline/google_docs_integration.py:262-266 | an open checkbox item becomes a ballot box, its text kept |
| GoogleDocs.TickedCheckbox | pipeline/google_docs_integration.py:262-267 | a ticked checkbox item becomes a checked ballot box, its text kept |
| Messages.AvailableGpus | pipeline/multigpu/gpu_detector.py:39-42 | ids `0 .. device_count - 1` in order when torch and CUDA are usable, else none |
| Messages.TaskQueue | launcher_multigpu.py:387-394 | the queue holds one entry per file plus one sentinel per worker |
| Messages.TaskQueueShape | launcher_multigpu.py:387-394 | each file appears once, numbered from 1 in input order with the batch size, and exactly one sentinel per worker follows all the files |
| Messages.FailureEntries | pipeline/multigpu/load_balancer.py:113-116 | one summary error entry per failure result |
| Messages.ErrorResults | pipeline/multigpu/load_balancer.py:113-132 | the `errors` list holds exactly the failure and worker-error results |
| Messages.CountsPartition | pipeline/multigpu/load_balancer.py:81-97 | every result is counted under at most one type, and under exactly one when no type is unrecognised |
| Messages.GpuProcessedSum | pipeline/multigpu/load_balancer.py:99-111 | with distinct GPU ids, the per-GPU processed counts add up to the successes |
| Messages.AppendCompletions | pipeline/multigpu/load_balancer.py:99-132 | a result completes a file exactly when it is a success or a failure |
| Messages.AppendGpuTotals | pipeline/multigpu/load_balancer.py:108-120 | a result adds to GPU `g`'s processed count and time only when it is a success on `g`, and to its failures only when it is a failure on `g` |
| Messages.AppendTotals | pipeline/multigpu/load_balancer.py:81-132 | each total over one more result is the old total plus that result's own contribution, by type |
| Sorting.SortDesc | launcher_multigpu.py:127 | `sorted(..., reverse=True)` by size: same length, a permutation of the input, and non-increasing in size |
| Sorting.InsertDescWithKey | launcher_multigpu.py:127 | an inserted element goes ahead of every element with the same key |
| Sorting.SortDescStable | launcher_multigpu.py:127 | the sort is stable: the elements with any one size come out in their input order |
| Sorting.SortStrings | pipeline/postprocess_speakers.py:40 | `sort()` on strings: a permutation of the input in ascending code-point order |
| PyNum.ClockFields | pipeline/exporters.py:13-15 | minutes and seconds are below 60, and the fields add up to the whole seconds of the time |
| PyNum.Millis | pipeline/exporters.py:16 | the milliseconds past the whole second lie in 0 .. 999 |

## Left out

- Process spawning, joining and killing, `CUDA_VISIBLE_DEVICES` isolation and the shared-queue concurrency of `launcher_multigpu.py` and `pipeline/multigpu/process_spawner.py`: the queues are sequences and a worker's pass is one sequential function; the interleaving of several workers is not modelled.
- Polling timeouts and `queue.Empty` in the monitor loops: the results arrive as a finite sequence.
- `pipeline/multigpu/launcher_orchestrator.py` is not part of this model (plumbing around the modelled components).
- Torch and CUDA queries (`get_gpu_info`, `get_available_vram`, `get_memory_info`, `GPUDetector.get_gpu_info`, `is_cuda_available`): their answers are inputs.
- faster-whisper, whisperx and pyannote model calls, the Anthropic/OpenAI calls and the parsing of their JSON answers, and Google authentication and the Docs/Drive API calls: their results are inputs or are not modelled.
- `_estimate_num_speakers`, `_cluster_embeddings` and `_extract_embeddings` of the alternative diarizer (numpy, resemblyzer, sklearn): the per-timestamp labels they produce are an input.
- `pipeline/preprocess.py` and `pipeline/redact_pii.py` are not part of this model; preprocessing is a success-or-failure input.
- File reading and writing, JSON dump and load, `print` output, logging handlers and `JSONFormatter`, argparse: file contents are produced as strings or sequences of writes, reads are functions passed in.
- `demo_command` of the CLI, and argparse's own rejection of unknown sub-commands before `main` routes them.
- `config/settings.py`: `get_float`, `get_path`, `save` and `to_dict`; configparser interpolation and its DEFAULT section.
- Python floating point: times are exact reals, and the millisecond and second fields are the floor of the exact value, so float truncation such as `(1.001 % 1) * 1000` giving 0 is not reproduced.
- `lower()`, `upper()` and the `\w`/`\s` classes of `normalize_text` cover ASCII only, and so does `int()` behind `get_int` (`Settings.AsInt` accepts ASCII digits and ASCII blanks only, where Python also parses other Unicode decimal digits and strips Unicode blanks); likewise `str.strip()` and `str.split()` (modelled by `Strings.Strip` and `Strings.Words`, and so in segment formatting, the outline's key phrases and the WER word split) treat only the six ASCII blanks as whitespace, so Unicode blanks such as U+00A0, U+2000-U+200A, U+3000 and `\x1c`-`\x1f` are kept where Python would strip or split at them.
- Logging.BatchLogSummary.SuccessRate: the rate is rounded from the exact quotient with ties to even, while Python formats the float product `successful / total * 100` with `:.1f`; where the float lies just off a tie, as for 1 of 2000 (0.05000000000000000277 as a float), Python prints "0.1%" and the model "0.0%".
- Path handling beyond `name`, `stem`, `suffix`, `parent` and joining with '/': no normalisation, `~` expansion or absolute paths.
- Cli.SegmentsOf: the `AttributeError` text names `float` for every JSON number, where Python says `int` for an integer.
- PostprocessSpeakers.MergeShortUtterancesLoop: `segment.copy()` is shallow, so `words.extend` also extends the input segment's word list; the model builds new values and does not capture that aliasing.
- DiarizeAlt.MergeSegmentsLoop: `_merge_segments` updates `last["end"]` in the caller's dictionaries in place; the model returns the input list as the merge leaves it as a second result (`InputAfterMerge`), rather than mutating shared objects.
- DiarizerBase.FormatSegments: the appending loop of `_format_segments` is stated as a per-element sequence, not as a loop method.
- WhisperX.FormatWhisperXSegments: the appending loop is likewise stated as a per-element sequence.
- ResourceAllocator.DistributeWorkload: requires `num_gpus > 0` when there are files; the source raises `ZeroDivisionError` for `i % 0` there.
- BatchTranscribe.Run: the parallel branch is modelled by its exit code only; the completion order of the pool, the progress-cache files the worker copies save, and the printed per-file lines are not modelled.
- Exporters.ExportTxt, Exporters.ExportSrt, Exporters.ExportVtt, Exporters.ExportJson and Exporters.ExportAll (and likewise DiarizerBase.FormatSegment, Outline.Entry and Plan.TranscriptLine, which read segments with `.get`) render typed segments: real times, string texts, and a speaker that is absent or a string. So a present `"speaker": null` (printed `None: ...` and dumped as `null`), a non-string `text` (a `TypeError` from `" ".join` in TXT, printed as is in SRT and VTT) and boolean times (which pass `isinstance(..., (int, float))`) are not covered; `Exporters.ValidateSegments` alone works on arbitrary JSON.
- DiarizationBase.DiarizeWithTiming: requires `processing_time` and `duration`, when present, to be numbers; a `None` or string `duration`, or a non-numeric `processing_time` with a positive duration, makes the source raise `TypeError`, which the model does not cover (the implementations always store numbers there).
- Launcher.BalanceBySize: requires `num_gpus > 0` when there are files; the source raises `ValueError` from `min([])` there.

## Findings

| source | as written | input that shows it | evidently intended | confidence | as-written member | corrected member |
|---|---|---|---|---|---|---|
| launcher_multigpu.py:167-170 | `ProgressTracker` keys `gpu_stats` by `range(num_gpus)`, and `run` passes `num_gpus=len(self.gpu_ids)`, while workers report their real GPU id | `--gpus 1` on a machine with GPUs 0 and 1: the tracker is keyed `{0}` and the first success from GPU 1 raises `KeyError` after the counters were already updated | statistics keyed by the GPU ids in use | not executed | Launcher.GpuOneRuns | Launcher.RunCorrected |
