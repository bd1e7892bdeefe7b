/**
 * `LoadBalancer`: consumes worker results, keeps the completion count, the
 * batch summary, the duration totals and per-GPU statistics, and derives
 * the overall RTF, the speedup and the exit code from them. The result
 * queue is the sequence of results in arrival order.
 */
module LoadBalancer {
  import opened Messages
  import opened Logging

  /** `{gpu: {"processed": 0, "time": 0.0, "failures": 0} for gpu in gpu_ids}`. */
  function InitialStats(gpuIds: seq<int>): (m: map<int, GpuStat>)
    ensures m.Keys == set g | g in gpuIds
    ensures forall g :: g in m ==> m[g] == GpuStat(0, 0.0, 0)
  {
    map g | g in gpuIds :: GpuStat(0, 0.0, 0)
  }

  /** `num / den`, or 0.0 when the denominator is exactly zero. */
  function GuardedRatio(num: real, den: real): (q: real)
    ensures den == 0.0 ==> q == 0.0
    ensures den != 0.0 ==> q * den == num
  {
    if den == 0.0 then 0.0 else num / den
  }

  /** Overall RTF and speedup are reciprocal when both totals are non-zero. */
  lemma RtfTimesSpeedup(duration: real, processing: real)
    requires duration != 0.0 && processing != 0.0
    ensures GuardedRatio(processing, duration) * GuardedRatio(duration, processing) == 1.0
  {
  }

  /** The dictionary `get_summary_stats` returns. */
  datatype SummaryStats = SummaryStats(
    completed: nat,
    successful: nat,
    failed: nat,
    totalDuration: real,
    totalProcessingTime: real,
    overallRtf: real,
    speedup: real,
    gpuStats: map<int, GpuStat>,
    errorCount: nat)

  /** How `monitor_progress` ends on a finite stream of results. */
  datatype MonitorEnd =
    | Done                // `completed_count` reached `total_files`
    | WaitsForever        // the stream ran out first: the loop would poll forever
    | RaisedKeyError      // a success or failure named a GPU without a statistics entry

  /** Successes and failures in `rs` all name a GPU in `keys`. */
  predicate KeyedCompletions(rs: seq<WorkerResult>, keys: set<int>)
  {
    forall k :: 0 <= k < |rs| ==> (rs[k].Success? || rs[k].Failure?) ==> rs[k].gpuId in keys
  }

  predicate Distinct(ids: seq<int>)
  {
    forall i, j :: 0 <= i < j < |ids| ==> ids[i] != ids[j]
  }

  /** The balancer's counters and the batch summary's, as one value. */
  datatype Counters = Counters(
    completed: nat,
    summaryTotal: nat,
    successful: nat,
    failed: nat,
    summaryErrors: seq<ErrorEntry>,
    totalDuration: real,
    totalProcessingTime: real,
    errors: seq<WorkerResult>,
    gpuStats: map<int, GpuStat>)

  /** Every counter is the corresponding total over the results `rs`; the statistics are keyed by `keys`. */
  predicate Matches(c: Counters, keys: set<int>, rs: seq<WorkerResult>)
  {
    && c.completed == c.summaryTotal
    && c.successful == CountSuccess(rs)
    && c.failed == CountFailure(rs)
    && c.summaryErrors == FailureEntries(rs)
    && c.totalDuration == SumDuration(rs)
    && c.totalProcessingTime == SumProcessingTime(rs)
    && c.errors == ErrorResults(rs)
    && c.gpuStats.Keys == keys
    && KeyedCompletions(rs, keys)
    && (forall g :: g in c.gpuStats ==>
          c.gpuStats[g] == GpuStat(GpuProcessed(g, rs), GpuTime(g, rs), GpuFailures(g, rs)))
  }

  /**
   * What `_process_result` does to the counters when the result's GPU, if it
   * names one that matters, has a statistics entry.
   */
  function Processed(c: Counters, r: WorkerResult): Counters
    requires (r.Success? || r.Failure?) ==> r.gpuId in c.gpuStats
  {
    match r
    case Success(g, _, duration, processingTime, _, _) =>
      var s := c.gpuStats[g];
      c.(completed := c.completed + 1, summaryTotal := c.summaryTotal + 1, successful := c.successful + 1,
         totalDuration := c.totalDuration + duration, totalProcessingTime := c.totalProcessingTime + processingTime,
         gpuStats := c.gpuStats[g := GpuStat(s.processed + 1, s.time + processingTime, s.failures)])
    case Failure(g, file, error) =>
      var s := c.gpuStats[g];
      c.(completed := c.completed + 1, summaryTotal := c.summaryTotal + 1, failed := c.failed + 1,
         summaryErrors := c.summaryErrors + [ErrorEntry(file, error)],
         gpuStats := c.gpuStats[g := GpuStat(s.processed, s.time, s.failures + 1)],
         errors := c.errors + [r])
    case WorkerError(_, _) => c.(errors := c.errors + [r])
    case Unrecognised => c
  }

  /** Processing a result keeps the counters equal to the totals over the results seen. */
  lemma ProcessedMatches(c: Counters, keys: set<int>, rs: seq<WorkerResult>, r: WorkerResult)
    requires Matches(c, keys, rs)
    requires (r.Success? || r.Failure?) ==> r.gpuId in c.gpuStats
    ensures Matches(Processed(c, r), keys, rs + [r])
  {
    if r.Success? {
      ProcessedSuccess(c, keys, rs, r);
    } else if r.Failure? {
      ProcessedFailure(c, keys, rs, r);
    } else {
      ProcessedOther(c, keys, rs, r);
    }
  }

  lemma ProcessedSuccess(c: Counters, keys: set<int>, rs: seq<WorkerResult>, r: WorkerResult)
    requires Matches(c, keys, rs)
    requires r.Success? && r.gpuId in c.gpuStats
    ensures Matches(Processed(c, r), keys, rs + [r])
  {
    var c' := Processed(c, r);
    var rs' := rs + [r];
    assert KeyedCompletions(rs', keys) by {
      KeyedSnoc(rs, r, keys);
    }
    assert forall g :: g in c'.gpuStats ==> c'.gpuStats[g] == GpuStat(GpuProcessed(g, rs'), GpuTime(g, rs'), GpuFailures(g, rs')) by {
      StatsStep(c, rs, r);
    }
    AppendTotals(rs, r);
  }

  lemma ProcessedFailure(c: Counters, keys: set<int>, rs: seq<WorkerResult>, r: WorkerResult)
    requires Matches(c, keys, rs)
    requires r.Failure? && r.gpuId in c.gpuStats
    ensures Matches(Processed(c, r), keys, rs + [r])
  {
    var c' := Processed(c, r);
    var rs' := rs + [r];
    assert KeyedCompletions(rs', keys) by {
      KeyedSnoc(rs, r, keys);
    }
    assert forall g :: g in c'.gpuStats ==> c'.gpuStats[g] == GpuStat(GpuProcessed(g, rs'), GpuTime(g, rs'), GpuFailures(g, rs')) by {
      StatsStep(c, rs, r);
    }
    AppendTotals(rs, r);
  }

  lemma ProcessedOther(c: Counters, keys: set<int>, rs: seq<WorkerResult>, r: WorkerResult)
    requires Matches(c, keys, rs)
    requires r.WorkerError? || r.Unrecognised?
    ensures Matches(Processed(c, r), keys, rs + [r])
  {
    var c' := Processed(c, r);
    var rs' := rs + [r];
    assert KeyedCompletions(rs', keys) by {
      KeyedSnoc(rs, r, keys);
    }
    assert forall g :: g in c'.gpuStats ==> c'.gpuStats[g] == GpuStat(GpuProcessed(g, rs'), GpuTime(g, rs'), GpuFailures(g, rs')) by {
      StatsStep(c, rs, r);
    }
    AppendTotals(rs, r);
  }

  lemma KeyedSnoc(rs: seq<WorkerResult>, r: WorkerResult, keys: set<int>)
    requires KeyedCompletions(rs, keys)
    requires (r.Success? || r.Failure?) ==> r.gpuId in keys
    ensures KeyedCompletions(rs + [r], keys)
  {
    var rs' := rs + [r];
    forall k | 0 <= k < |rs'| && (rs'[k].Success? || rs'[k].Failure?)
      ensures rs'[k].gpuId in keys
    {
      if k < |rs| {
        assert rs'[k] == rs[k];
      }
    }
  }

  /** The per-GPU statistics after a result are the per-GPU totals including it. */
  lemma StatsStep(c: Counters, rs: seq<WorkerResult>, r: WorkerResult)
    requires forall g :: g in c.gpuStats ==> c.gpuStats[g] == GpuStat(GpuProcessed(g, rs), GpuTime(g, rs), GpuFailures(g, rs))
    requires (r.Success? || r.Failure?) ==> r.gpuId in c.gpuStats
    ensures var m := Processed(c, r).gpuStats;
      forall g :: g in m ==> m[g] == GpuStat(GpuProcessed(g, rs + [r]), GpuTime(g, rs + [r]), GpuFailures(g, rs + [r]))
  {
    var m := Processed(c, r).gpuStats;
    forall g | g in m
      ensures m[g] == GpuStat(GpuProcessed(g, rs + [r]), GpuTime(g, rs + [r]), GpuFailures(g, rs + [r]))
    {
      AppendGpuTotals(rs, r, g);
    }
  }

  class LoadBalancer {
    const gpuIds: seq<int>
    var completedCount: nat
    var totalDuration: real
    var totalProcessingTime: real
    var gpuStats: map<int, GpuStat>
    var batchSummary: BatchLogSummary
    /** Every result processed, in order, whatever its type. */
    var results: seq<WorkerResult>
    /** Failures and worker errors, in order. */
    var errors: seq<WorkerResult>

    /** Every counter is the corresponding total over `results`. */
    predicate Valid()
      reads this, batchSummary
    {
      Tallies(results)
    }

    /** The GPU ids, as the keys of the statistics. */
    function GpuKeys(): set<int>
    {
      set g | g in gpuIds
    }

    /** The counters as one value. */
    function Snapshot(): Counters
      reads this, batchSummary
    {
      Counters(completedCount, batchSummary.total, batchSummary.successful, batchSummary.failed, batchSummary.errors,
               totalDuration, totalProcessingTime, errors, gpuStats)
    }

    /** Every counter is the corresponding total over the results `rs`. */
    predicate Tallies(rs: seq<WorkerResult>)
      reads this, batchSummary
    {
      batchSummary.Valid() && Matches(Snapshot(), GpuKeys(), rs)
    }

    constructor (gpuIds: seq<int>)
      ensures Valid() && fresh(batchSummary)
      ensures this.gpuIds == gpuIds
      ensures completedCount == 0 && totalDuration == 0.0 && totalProcessingTime == 0.0
      ensures gpuStats == InitialStats(gpuIds)
      ensures results == [] && errors == []
      ensures batchSummary.total == 0 && batchSummary.errors == []
    {
      this.gpuIds := gpuIds;
      completedCount := 0;
      totalDuration := 0.0;
      totalProcessingTime := 0.0;
      gpuStats := InitialStats(gpuIds);
      batchSummary := new BatchLogSummary();
      results := [];
      errors := [];
    }

    /**
     * `_process_result`. A success or failure from a GPU without a statistics
     * entry raises `KeyError` part-way: the count, the summary and (for a
     * success) the totals are already updated, the result is not stored.
     */
    method ProcessResult(r: WorkerResult) returns (raisedKeyError: bool)
      requires Valid()
      modifies this, batchSummary
      ensures batchSummary == old(batchSummary) && gpuStats.Keys == old(gpuStats).Keys
      ensures raisedKeyError <==> (r.Success? || r.Failure?) && r.gpuId !in old(gpuStats)
      ensures !raisedKeyError ==> Valid() && results == old(results) + [r]
      ensures !raisedKeyError ==> completedCount == old(completedCount) + (if r.Success? || r.Failure? then 1 else 0)
      ensures raisedKeyError ==>
        && completedCount == old(completedCount) + 1
        && results == old(results) && errors == old(errors) && gpuStats == old(gpuStats)
        && (r.Success? ==>
              && batchSummary.successful == old(batchSummary.successful) + 1
              && totalDuration == old(totalDuration) + r.duration
              && totalProcessingTime == old(totalProcessingTime) + r.processingTime)
        && (r.Failure? ==>
              && batchSummary.failed == old(batchSummary.failed) + 1
              && batchSummary.errors == old(batchSummary.errors) + [ErrorEntry(r.file, r.error)])
    {
      match r {
        case Success(_, _, _, _, _, _) =>
          raisedKeyError := HandleSuccess(r);
        case Failure(_, _, _) =>
          raisedKeyError := HandleFailure(r);
        case WorkerError(_, _) =>
          HandleError(r);
          raisedKeyError := false;
        case Unrecognised =>
          ProcessedMatches(Snapshot(), GpuKeys(), results, r);
          raisedKeyError := false;
      }
      if !raisedKeyError {
        results := results + [r];
      }
    }

    /** `_handle_success`: count, summary, totals, then the GPU's entry. */
    method HandleSuccess(r: WorkerResult) returns (raisedKeyError: bool)
      requires Valid() && r.Success?
      modifies this, batchSummary
      ensures batchSummary == old(batchSummary) && gpuStats.Keys == old(gpuStats).Keys
      ensures results == old(results) && errors == old(errors)
      ensures raisedKeyError <==> r.gpuId !in old(gpuStats)
      ensures !raisedKeyError ==> Tallies(results + [r])
      ensures completedCount == old(completedCount) + 1
      ensures batchSummary.successful == old(batchSummary.successful) + 1
      ensures totalDuration == old(totalDuration) + r.duration
      ensures totalProcessingTime == old(totalProcessingTime) + r.processingTime
      ensures raisedKeyError ==> gpuStats == old(gpuStats)
    {
      ghost var c := Snapshot();
      completedCount := completedCount + 1;
      batchSummary.RecordSuccess(r.file);
      totalDuration := totalDuration + r.duration;
      totalProcessingTime := totalProcessingTime + r.processingTime;
      if r.gpuId !in gpuStats {
        return true;
      }
      var s := gpuStats[r.gpuId];
      gpuStats := gpuStats[r.gpuId := GpuStat(s.processed + 1, s.time + r.processingTime, s.failures)];
      ProcessedMatches(c, GpuKeys(), results, r);
      raisedKeyError := false;
    }

    /** `_handle_failure`: count, summary, then the GPU's entry and the error list. */
    method HandleFailure(r: WorkerResult) returns (raisedKeyError: bool)
      requires Valid() && r.Failure?
      modifies this, batchSummary
      ensures batchSummary == old(batchSummary) && gpuStats.Keys == old(gpuStats).Keys
      ensures results == old(results)
      ensures raisedKeyError <==> r.gpuId !in old(gpuStats)
      ensures !raisedKeyError ==> Tallies(results + [r])
      ensures completedCount == old(completedCount) + 1
      ensures batchSummary.failed == old(batchSummary.failed) + 1
      ensures batchSummary.errors == old(batchSummary.errors) + [ErrorEntry(r.file, r.error)]
      ensures raisedKeyError ==> gpuStats == old(gpuStats) && errors == old(errors)
    {
      ghost var c := Snapshot();
      completedCount := completedCount + 1;
      batchSummary.RecordFailure(r.file, r.error);
      if r.gpuId !in gpuStats {
        return true;
      }
      var s := gpuStats[r.gpuId];
      gpuStats := gpuStats[r.gpuId := GpuStat(s.processed, s.time, s.failures + 1)];
      errors := errors + [r];
      ProcessedMatches(c, GpuKeys(), results, r);
      raisedKeyError := false;
    }

    /** `_handle_error`: only the error list grows (the log record is not modelled). */
    method HandleError(r: WorkerResult)
      requires Valid() && r.WorkerError?
      modifies this
      ensures batchSummary == old(batchSummary) && gpuStats == old(gpuStats)
      ensures results == old(results) && completedCount == old(completedCount)
      ensures errors == old(errors) + [r]
      ensures Tallies(results + [r])
    {
      ProcessedMatches(Snapshot(), GpuKeys(), results, r);
      errors := errors + [r];
    }

    /** `_process_result` as the monitoring loop sees it: whether it raised, else one more result taken in. */
    method Take(r: WorkerResult) returns (raised: bool)
      requires Valid()
      modifies this, batchSummary
      ensures batchSummary == old(batchSummary)
      ensures raised <==> (r.Success? || r.Failure?) && r.gpuId !in GpuKeys()
      ensures !raised ==> Valid() && results == old(results) + [r]
      ensures !raised ==> completedCount == old(completedCount) + (if r.Success? || r.Failure? then 1 else 0)
    {
      raised := ProcessResult(r);
    }

    /**
     * `monitor_progress` over the results in arrival order: processes results
     * while fewer than `total_files` files are completed.
     */
    method MonitorProgress(stream: seq<WorkerResult>, totalFiles: nat) returns (consumed: nat, end: MonitorEnd)
      requires Valid()
      modifies this, batchSummary
      ensures consumed <= |stream|
      ensures !end.RaisedKeyError? ==> Valid() && results == old(results) + stream[..consumed]
      ensures !end.RaisedKeyError? ==> completedCount == old(completedCount) + Completions(stream[..consumed])
      ensures end.Done? <==> (!end.RaisedKeyError? && completedCount >= totalFiles)
      ensures end.WaitsForever? ==> consumed == |stream|
      ensures end.RaisedKeyError? ==>
        && 0 < consumed
        && (stream[consumed - 1].Success? || stream[consumed - 1].Failure?)
        && stream[consumed - 1].gpuId !in gpuIds
        && !KeyedCompletions(stream[..consumed], set g | g in gpuIds)
      // the loop stops as soon as the count is reached: no result is taken after that
      ensures forall k :: 0 <= k < consumed ==> old(completedCount) + Completions(stream[..k]) < totalFiles
    {
      consumed := 0;
      while completedCount < totalFiles && consumed < |stream|
        invariant consumed <= |stream|
        invariant batchSummary == old(batchSummary)
        invariant Valid() && results == old(results) + stream[..consumed]
        invariant completedCount == old(completedCount) + Completions(stream[..consumed])
        invariant forall k :: 0 <= k < consumed ==> old(completedCount) + Completions(stream[..k]) < totalFiles
        decreases |stream| - consumed
      {
        var r := stream[consumed];
        assert stream[..consumed + 1] == stream[..consumed] + [r];
        assert stream[..consumed + 1][..consumed] == stream[..consumed];
        AppendCompletions(stream[..consumed], r);
        assert old(completedCount) + Completions(stream[..consumed]) < totalFiles;
        assert forall k :: 0 <= k < consumed + 1 ==> old(completedCount) + Completions(stream[..k]) < totalFiles;
        var raised := Take(r);
        if raised {
          assert stream[..consumed + 1][consumed] == r;
          return consumed + 1, RaisedKeyError;
        }
        consumed := consumed + 1;
      }
      end := if completedCount >= totalFiles then Done else WaitsForever;
    }

    /** `get_overall_rtf`: processing time per second of audio, 0.0 with no audio. */
    function GetOverallRtf(): (rtf: real)
      reads this, batchSummary
      requires Valid()
      ensures SumDuration(results) == 0.0 ==> rtf == 0.0
      ensures SumDuration(results) != 0.0 ==> rtf * SumDuration(results) == SumProcessingTime(results)
    {
      GuardedRatio(totalProcessingTime, totalDuration)
    }

    /** `get_speedup`: seconds of audio per second of processing, 0.0 with no processing time. */
    function GetSpeedup(): (speedup: real)
      reads this, batchSummary
      requires Valid()
      ensures SumProcessingTime(results) == 0.0 ==> speedup == 0.0
      ensures SumProcessingTime(results) != 0.0 ==> speedup * SumProcessingTime(results) == SumDuration(results)
    {
      GuardedRatio(totalDuration, totalProcessingTime)
    }

    /** `get_summary_stats`, read against the results processed. */
    function GetSummaryStats(): (s: SummaryStats)
      reads this, batchSummary
      requires Valid()
      ensures s.completed == s.successful + s.failed == Completions(results)
      ensures s.successful == CountSuccess(results) && s.failed == CountFailure(results)
      ensures s.errorCount == CountFailure(results) + CountWorkerError(results)
      ensures s.totalDuration == SumDuration(results) && s.totalProcessingTime == SumProcessingTime(results)
      ensures s.overallRtf == GetOverallRtf() && s.speedup == GetSpeedup()
      ensures s.gpuStats.Keys == set g | g in gpuIds
      // per-GPU processed counts add up to the successes
      ensures Distinct(gpuIds) ==> SumProcessed(gpuIds, results) == s.successful
    {
      ProcessedAddsUp(gpuIds, results);
      SummaryStats(completedCount, batchSummary.successful, batchSummary.failed,
                   totalDuration, totalProcessingTime, GetOverallRtf(), GetSpeedup(),
                   gpuStats, |errors|)
    }

    /** `get_exit_code`: 0 exactly when no failure result was processed. */
    function GetExitCode(): (code: int)
      reads this, batchSummary
      requires Valid()
      ensures code == 0 || code == 1
      ensures code == 0 <==> CountFailure(results) == 0
    {
      batchSummary.ExitCode()
    }

    /** `get_expected_total`: the number of files completed so far, not the batch size. */
    function GetExpectedTotal(): (n: nat)
      reads this, batchSummary
      requires Valid()
      ensures n == Completions(results)
    {
      completedCount
    }

    /** `reset`: the state right after construction, with a new batch summary. */
    method Reset()
      modifies this
      ensures Valid() && fresh(batchSummary)
      ensures completedCount == 0 && totalDuration == 0.0 && totalProcessingTime == 0.0
      ensures gpuStats == InitialStats(gpuIds)
      ensures results == [] && errors == []
      ensures batchSummary.total == 0 && batchSummary.errors == []
    {
      completedCount := 0;
      totalDuration := 0.0;
      totalProcessingTime := 0.0;
      gpuStats := InitialStats(gpuIds);
      results := [];
      errors := [];
      batchSummary := new BatchLogSummary();
    }
  }

  /**
   * When every success and failure names a configured GPU, monitoring never
   * raises, and once it is done the exit code reports the failures seen.
   */
  method MonitorConfigured(gpuIds: seq<int>, stream: seq<WorkerResult>, totalFiles: nat)
    returns (consumed: nat, end: MonitorEnd, code: int)
    requires KeyedCompletions(stream, set g | g in gpuIds)
    ensures !end.RaisedKeyError?
    ensures consumed <= |stream| && Completions(stream[..consumed]) <= totalFiles
    ensures end.Done? ==> Completions(stream[..consumed]) == totalFiles || (totalFiles == 0 && consumed == 0)
    ensures code == 0 <==> CountFailure(stream[..consumed]) == 0
  {
    var lb := new LoadBalancer(gpuIds);
    consumed, end := lb.MonitorProgress(stream, totalFiles);
    assert KeyedCompletions(stream[..consumed], set g | g in gpuIds);
    assert lb.results == stream[..consumed];
    if consumed > 0 {
      CompletionsStep(stream, consumed - 1);
    }
    code := lb.GetExitCode();
  }

  /** Per-GPU processed counts add up to the successes when every success names a listed GPU. */
  lemma ProcessedAddsUp(gpuIds: seq<int>, rs: seq<WorkerResult>)
    requires KeyedCompletions(rs, set g | g in gpuIds)
    ensures Distinct(gpuIds) ==> SumProcessed(gpuIds, rs) == CountSuccess(rs)
  {
    if Distinct(gpuIds) {
      GpuProcessedSum(gpuIds, rs);
    }
  }

  lemma CompletionsStep(rs: seq<WorkerResult>, k: nat)
    requires k < |rs|
    ensures Completions(rs[..k + 1]) <= Completions(rs[..k]) + 1
  {
    assert rs[..k + 1][..k] == rs[..k];
  }
}
