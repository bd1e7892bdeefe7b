/**
 * The batch transcriber's bookkeeping: the resume/retry state kept in the
 * progress cache, the choice of audio files, the files a run processes,
 * the retry loop around one transcription and the ETA text. Transcribing
 * and exporting are abstracted to whether attempt `k` on a file raises
 * (and with which message); sleeping is recorded as the delays requested.
 */
module BatchTranscribe {
  import opened Base
  import opened Strings
  import opened Sorting
  import opened Logging
  import opened PyNum

  // -----------------------------------------------------------------------
  // ProgressState
  // -----------------------------------------------------------------------

  /** The progress cache file: absent, not valid JSON, or its two keys (each may be missing). */
  datatype CacheFile =
    | Missing
    | Corrupt
    | Stored(completed: Option<set<string>>, failed: Option<map<string, string>>)

  /** What `load` makes of the cache: missing and corrupt caches give an empty state. */
  function LoadCache(c: CacheFile): (state: (set<string>, map<string, string>))
    ensures c.Missing? || c.Corrupt? ==> state == ({}, map[])
    ensures c.Stored? && c.completed.Some? ==> state.0 == c.completed.value
    ensures c.Stored? && c.failed.Some? ==> state.1 == c.failed.value
  {
    match c
    case Stored(completed, failed) => (completed.GetOr({}), failed.GetOr(map[]))
    case _ => ({}, map[])
  }

  class ProgressState {
    var completedFiles: set<string>
    var failedFiles: map<string, string>
    /** The content of the cache file on disk. */
    var cache: CacheFile

    constructor (cache: CacheFile)
      ensures (completedFiles, failedFiles) == LoadCache(cache) && this.cache == cache
    {
      this.cache := cache;
      var state := LoadCache(cache);
      completedFiles := state.0;
      failedFiles := state.1;
    }

    /** `save`: writes both collections; loading the cache back gives this state. */
    method Save()
      modifies this
      ensures completedFiles == old(completedFiles) && failedFiles == old(failedFiles)
      ensures cache == Stored(Some(completedFiles), Some(failedFiles))
      ensures LoadCache(cache) == (completedFiles, failedFiles)
    {
      cache := Stored(Some(completedFiles), Some(failedFiles));
    }

    /** `mark_completed`: completed, no longer failed, saved. */
    method MarkCompleted(name: string)
      modifies this
      ensures completedFiles == old(completedFiles) + {name}
      ensures failedFiles == old(failedFiles) - {name}
      ensures IsCompleted(name) && ShouldRetry(name, false)
      ensures LoadCache(cache) == (completedFiles, failedFiles)
    {
      completedFiles := completedFiles + {name};
      failedFiles := failedFiles - {name};
      Save();
    }

    /** `mark_failed`: records (or replaces) the error; completion is left as it was. */
    method MarkFailed(name: string, error: string)
      modifies this
      ensures failedFiles == old(failedFiles)[name := error]
      ensures completedFiles == old(completedFiles)
      ensures !ShouldRetry(name, false) && ShouldRetry(name, true)
      ensures LoadCache(cache) == (completedFiles, failedFiles)
    {
      failedFiles := failedFiles[name := error];
      Save();
    }

    predicate IsCompleted(name: string)
      reads this
    {
      name in completedFiles
    }

    /** `should_retry`: files that never failed always; failed files only when retrying failures. */
    predicate ShouldRetry(name: string, retryFailed: bool)
      reads this
    {
      name !in failedFiles || retryFailed
    }
  }

  // -----------------------------------------------------------------------
  // Choosing the files
  // -----------------------------------------------------------------------

  const SupportedFormats: seq<string> := [".wav", ".mp3", ".m4a", ".flac", ".ogg", ".opus"]

  predicate EndsWith(s: string, suffix: string)
  {
    |suffix| <= |s| && s[|s| - |suffix|..] == suffix
  }

  /** Matched by one of the `*{ext}` globs (case-sensitive). */
  predicate IsAudioName(name: string)
  {
    exists i :: 0 <= i < |SupportedFormats| && EndsWith(name, SupportedFormats[i])
  }

  function KeepAudio(names: seq<string>): (r: seq<string>)
    ensures forall x :: x in r <==> x in names && IsAudioName(x)
    ensures |r| <= |names|
  {
    if names == [] then []
    else
      var init := KeepAudio(names[..|names| - 1]);
      var last := names[|names| - 1];
      assert names == names[..|names| - 1] + [last];
      init + (if IsAudioName(last) then [last] else [])
  }

  /**
   * `_get_audio_files` over the names in the input directory: those matched
   * by a supported extension, in ascending order.
   */
  function AudioFiles(names: seq<string>): (r: seq<string>)
    ensures SortedStrings(r)
    ensures multiset(r) == multiset(KeepAudio(names))
    ensures forall x :: x in r <==> x in names && IsAudioName(x)
  {
    var kept := KeepAudio(names);
    var r := SortStrings(kept);
    assert forall x :: x in r <==> x in multiset(r);
    assert forall x :: x in kept <==> x in multiset(kept);
    r
  }

  /** The filter in `run`: skip completed files when resuming, and failed ones unless retrying. */
  predicate Wanted(name: string, resume: bool, retryFailed: bool, completed: set<string>, failed: map<string, string>)
  {
    !(resume && name in completed) && (name !in failed || retryFailed)
  }

  function Selected(files: seq<string>, resume: bool, retryFailed: bool,
                    completed: set<string>, failed: map<string, string>): seq<string>
  {
    if files == [] then []
    else
      var last := files[|files| - 1];
      Selected(files[..|files| - 1], resume, retryFailed, completed, failed)
        + (if Wanted(last, resume, retryFailed, completed, failed) then [last] else [])
  }

  /** A file is selected exactly when it is in the batch and wanted; order is kept. */
  lemma {:induction false} SelectedMembers(files: seq<string>, resume: bool, retryFailed: bool,
                                          completed: set<string>, failed: map<string, string>)
    ensures |Selected(files, resume, retryFailed, completed, failed)| <= |files|
    ensures forall x :: x in Selected(files, resume, retryFailed, completed, failed) <==>
      x in files && Wanted(x, resume, retryFailed, completed, failed)
  {
    if files != [] {
      var init := files[..|files| - 1];
      SelectedMembers(init, resume, retryFailed, completed, failed);
      assert files == init + [files[|files| - 1]];
    }
  }

  /** The loop in `run` that builds `files_to_process`. */
  method SelectFiles(files: seq<string>, resume: bool, retryFailed: bool, progress: ProgressState)
    returns (toProcess: seq<string>, alreadyCompleted: nat)
    ensures toProcess == Selected(files, resume, retryFailed, progress.completedFiles, progress.failedFiles)
    ensures alreadyCompleted + |toProcess| == |files|
  {
    toProcess := [];
    var i := 0;
    while i < |files|
      invariant 0 <= i <= |files|
      invariant toProcess == Selected(files[..i], resume, retryFailed, progress.completedFiles, progress.failedFiles)
    {
      assert files[..i + 1][..i] == files[..i];
      if resume && progress.IsCompleted(files[i]) {
      } else if !progress.ShouldRetry(files[i], retryFailed) {
      } else {
        toProcess := toProcess + [files[i]];
      }
      i := i + 1;
    }
    assert files[..i] == files;
    SelectedMembers(files, resume, retryFailed, progress.completedFiles, progress.failedFiles);
    alreadyCompleted := |files| - |toProcess|;
  }

  // -----------------------------------------------------------------------
  // One file, with retries
  // -----------------------------------------------------------------------

  function Pow2(k: nat): (p: nat)
    ensures p >= 1
  {
    if k == 0 then 1 else 2 * Pow2(k - 1)
  }

  /**
   * The attempts `_transcribe_file` makes from retry `k`: how many, and the
   * error of the last one if it failed. `attempt(k)` is `None` when try `k`
   * succeeds and the exception message otherwise.
   */
  function Attempts(k: nat, maxRetries: int, attempt: nat -> Option<string>): (r: (nat, Option<string>))
    ensures 1 <= r.0 <= (if maxRetries > k then maxRetries - k else 0) + 1
    ensures r.1.None? <==> attempt(k + r.0 - 1).None?
    ensures r.1 == attempt(k + r.0 - 1)   // the error is that of the last try
    decreases if maxRetries > k then maxRetries - k else 0
  {
    match attempt(k)
    case None => (1, None)
    case Some(e) =>
      if k < maxRetries then
        var rest := Attempts(k + 1, maxRetries, attempt);
        (rest.0 + 1, rest.1)
      else (1, Some(e))
  }

  /** Every try before the last one failed; a failure is final only after the last retry. */
  lemma {:induction false} AttemptsAllFailedBefore(k: nat, maxRetries: int, attempt: nat -> Option<string>)
    ensures forall j :: k <= j < k + Attempts(k, maxRetries, attempt).0 - 1 ==> attempt(j).Some?
    ensures Attempts(k, maxRetries, attempt).1.Some? ==>
      Attempts(k, maxRetries, attempt).0 == (if maxRetries > k then maxRetries - k else 0) + 1
    decreases if maxRetries > k then maxRetries - k else 0
  {
    if attempt(k).Some? && k < maxRetries {
      AttemptsAllFailedBefore(k + 1, maxRetries, attempt);
    }
  }

  /** The delays `2 ** retry_count` slept between tries `k, k + 1, ...`. */
  function Backoff(k: nat, n: nat): (ds: seq<nat>)
    ensures |ds| == n && forall i :: 0 <= i < n ==> ds[i] == Pow2(k + i)
    decreases n
  {
    if n == 0 then [] else [Pow2(k)] + Backoff(k + 1, n - 1)
  }

  datatype Status = Completed | Failed

  /** The result record of `_transcribe_file`. */
  datatype FileResult = FileResult(filename: string, status: Status, error: Option<string>)

  /**
   * `_transcribe_file(audio_file, retry_count)`: on failure, sleeps and
   * recurses while `retry_count < max_retries`; the final outcome is recorded
   * once in the batch summary and the progress state.
   */
  method TranscribeFile(name: string, retryCount: nat, maxRetries: int, attempt: nat -> Option<string>,
                        summary: BatchLogSummary, progress: ProgressState)
    returns (res: FileResult, sleeps: seq<nat>)
    requires summary.Valid()
    modifies summary, progress
    ensures summary.Valid()
    ensures res.filename == name
    ensures res.error == Attempts(retryCount, maxRetries, attempt).1
    ensures res.status == (if res.error.None? then Completed else Failed)
    ensures sleeps == Backoff(retryCount, Attempts(retryCount, maxRetries, attempt).0 - 1)
    ensures res.error.None? ==>
      && summary.successful == old(summary.successful) + 1 && summary.failed == old(summary.failed)
      && summary.errors == old(summary.errors)
      && progress.completedFiles == old(progress.completedFiles) + {name}
      && progress.failedFiles == old(progress.failedFiles) - {name}
    ensures res.error.Some? ==>
      && summary.failed == old(summary.failed) + 1 && summary.successful == old(summary.successful)
      && summary.errors == old(summary.errors) + [ErrorEntry(name, res.error.value)]
      && progress.failedFiles == old(progress.failedFiles)[name := res.error.value]
      && progress.completedFiles == old(progress.completedFiles)
    decreases if maxRetries > retryCount then maxRetries - retryCount else 0
  {
    match attempt(retryCount) {
      case None =>
        summary.RecordSuccess(name);
        progress.MarkCompleted(name);
        return FileResult(name, Completed, None), [];
      case Some(e) =>
        if retryCount < maxRetries {
          var rest;
          res, rest := TranscribeFile(name, retryCount + 1, maxRetries, attempt, summary, progress);
          sleeps := [Pow2(retryCount)] + rest;
          return;
        }
        summary.RecordFailure(name, e);
        progress.MarkFailed(name, e);
        return FileResult(name, Failed, Some(e)), [];
    }
  }

  // -----------------------------------------------------------------------
  // ETA
  // -----------------------------------------------------------------------

  /** `_calculate_eta`: the average time per processed file times the files left. */
  function CalculateEta(processed: int, total: int, elapsed: real): (text: string)
    ensures processed == 0 <==> text == "unknown"
    ensures processed != 0 ==>
      var f := ClockFields(elapsed / processed as real * (total - processed) as real);
      text == if f.0 > 0 then IntToString(f.0) + "h " + IntToString(f.1) + "m " + IntToString(f.2) + "s"
              else if f.1 > 0 then IntToString(f.1) + "m " + IntToString(f.2) + "s"
              else IntToString(f.2) + "s"
  {
    if processed == 0 then "unknown"
    else
      var f := ClockFields(elapsed / processed as real * (total - processed) as real);
      var text := if f.0 > 0 then IntToString(f.0) + "h " + IntToString(f.1) + "m " + IntToString(f.2) + "s"
                  else if f.1 > 0 then IntToString(f.1) + "m " + IntToString(f.2) + "s"
                  else IntToString(f.2) + "s";
      assert text[|text| - 1] == 's';
      text
  }

  // -----------------------------------------------------------------------
  // run (sequential)
  // -----------------------------------------------------------------------

  /** The final outcome of a file over its tries: `None` when it eventually succeeds. */
  function FinalError(maxRetries: int, attempt: nat -> Option<string>): Option<string>
  {
    Attempts(0, maxRetries, attempt).1
  }

  /** Every file of `fs` eventually succeeds. */
  predicate AllSucceed(fs: seq<string>, maxRetries: int, attempts: string -> (nat -> Option<string>))
  {
    forall j :: 0 <= j < |fs| ==> FinalError(maxRetries, attempts(fs[j])).None?
  }

  lemma AllSucceedSnoc(fs: seq<string>, i: nat, maxRetries: int, attempts: string -> (nat -> Option<string>))
    requires i < |fs|
    ensures AllSucceed(fs[..i + 1], maxRetries, attempts) <==>
      AllSucceed(fs[..i], maxRetries, attempts) && FinalError(maxRetries, attempts(fs[i])).None?
  {
    assert forall j :: 0 <= j < i ==> fs[..i + 1][j] == fs[..i][j];
    assert fs[..i + 1][i] == fs[i];
  }

  /**
   * `BatchTranscriber.run` over the directory listing `names` and the initial
   * progress cache. Returns the exit code and the files it processed.
   * Sequentially, every file is transcribed here and recorded in the batch
   * summary. With `parallel` and more than one worker, `_transcribe_file`
   * runs in pool processes on copies of the transcriber, so their
   * `record_success` and `record_failure` never reach this summary: its exit
   * code stays 0 whatever the outcomes.
   */
  method Run(names: seq<string>, resume: bool, retryFailed: bool, maxRetries: int, parallel: bool, workers: int,
             attempts: string -> (nat -> Option<string>), cache: CacheFile)
    returns (code: int, toProcess: seq<string>)
    ensures AudioFiles(names) == [] ==> code == 0 && toProcess == []
    ensures AudioFiles(names) != [] ==>
      toProcess == Selected(AudioFiles(names), resume, retryFailed, LoadCache(cache).0, LoadCache(cache).1)
    ensures code == 0 || code == 1
    ensures !(parallel && workers > 1) ==>
      (code == 0 <==> forall i :: 0 <= i < |toProcess| ==> FinalError(maxRetries, attempts(toProcess[i])).None?)
    ensures parallel && workers > 1 ==> code == 0
  {
    var files := AudioFiles(names);
    if files == [] {
      return 0, [];
    }
    var progress := new ProgressState(cache);
    var summary := new BatchLogSummary();
    var alreadyCompleted;
    toProcess, alreadyCompleted := SelectFiles(files, resume, retryFailed, progress);
    if toProcess == [] {
      return 0, toProcess;
    }
    if parallel && workers > 1 {
      // the workers record into their own copies of the summary
      code := summary.ExitCode();
      return;
    }
    var i := 0;
    while i < |toProcess|
      invariant 0 <= i <= |toProcess| && summary.Valid()
      invariant summary.failed == 0 <==> AllSucceed(toProcess[..i], maxRetries, attempts)
      modifies summary, progress
    {
      var res, _ := TranscribeFile(toProcess[i], 0, maxRetries, attempts(toProcess[i]), summary, progress);
      AllSucceedSnoc(toProcess, i, maxRetries, attempts);
      i := i + 1;
    }
    assert toProcess[..i] == toProcess;
    code := summary.ExitCode();
  }
}
