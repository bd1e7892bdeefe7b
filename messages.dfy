/**
 * What flows through the multi-GPU queues: the task tuples workers take
 * (`(path, index, total)` or the `None` sentinel), the result dictionaries
 * they send back, and the running totals a monitor derives from a stream
 * of results.
 */
module Messages {
  import opened Logging

  /** A task-queue entry: a file to transcribe, or the `None` stop sentinel. */
  datatype TaskMessage =
    | Item(path: string, index: nat, total: nat)
    | Sentinel

  /** A result-queue entry, by its `"type"` field. */
  datatype WorkerResult =
    | Success(gpuId: int, file: string, duration: real, processingTime: real, rtf: real, outputDir: string)
    | Failure(gpuId: int, file: string, error: string)
    | WorkerError(gpuId: int, error: string)
    | Unrecognised                    // a `"type"` that is none of the three, or missing

  /** What `torch` reports: installed at all, CUDA usable, how many devices. */
  datatype Cuda = Cuda(torchInstalled: bool, isAvailable: bool, deviceCount: nat)

  /** Device ids `0 .. device_count - 1`, or none without a usable CUDA runtime. */
  function AvailableGpus(c: Cuda): (ids: seq<int>)
    ensures |ids| == if c.torchInstalled && c.isAvailable then c.deviceCount else 0
    ensures forall i :: 0 <= i < |ids| ==> ids[i] == i
  {
    if c.torchInstalled && c.isAvailable then seq(c.deviceCount, i => i) else []
  }

  /** Per-GPU counters of a monitor. */
  datatype GpuStat = GpuStat(processed: nat, time: real, failures: nat)

  // -----------------------------------------------------------------------
  // The task queue
  // -----------------------------------------------------------------------

  /**
   * The queue contents after filling it: one `(path, i + 1, len(files))`
   * entry per file, in order, followed by one sentinel per worker.
   */
  function TaskQueue(files: seq<string>, workers: nat): (q: seq<TaskMessage>)
    ensures |q| == |files| + workers
  {
    seq(|files|, i requires 0 <= i < |files| => Item(files[i], i + 1, |files|)) + seq(workers, _ => Sentinel)
  }

  function CountSentinels(q: seq<TaskMessage>): nat
  {
    if q == [] then 0 else CountSentinels(q[..|q| - 1]) + (if q[|q| - 1].Sentinel? then 1 else 0)
  }

  /**
   * Each file appears exactly once, numbered from 1 in input order, every
   * entry states the batch size, and exactly one sentinel per worker comes
   * after all the files.
   */
  lemma {:induction false} TaskQueueShape(files: seq<string>, workers: nat)
    ensures forall i :: 0 <= i < |files| ==> TaskQueue(files, workers)[i] == Item(files[i], i + 1, |files|)
    ensures forall i :: |files| <= i < |files| + workers ==> TaskQueue(files, workers)[i].Sentinel?
    ensures CountSentinels(TaskQueue(files, workers)) == workers
  {
    CountTrailingSentinels(files, workers);
  }

  lemma {:induction false} CountTrailingSentinels(files: seq<string>, workers: nat)
    ensures CountSentinels(TaskQueue(files, workers)) == workers
    decreases workers
  {
    var q := TaskQueue(files, workers);
    if workers == 0 {
      NoSentinelsAmongItems(files, |files|);
      assert q == TaskQueue(files, 0)[..|files|];
    } else {
      CountTrailingSentinels(files, workers - 1);
      assert q[..|q| - 1] == TaskQueue(files, workers - 1);
    }
  }

  lemma {:induction false} NoSentinelsAmongItems(files: seq<string>, n: nat)
    requires n <= |files|
    ensures CountSentinels(TaskQueue(files, 0)[..n]) == 0
  {
    if n > 0 {
      NoSentinelsAmongItems(files, n - 1);
      assert TaskQueue(files, 0)[..n][..n - 1] == TaskQueue(files, 0)[..n - 1];
    }
  }

  // -----------------------------------------------------------------------
  // Totals over a stream of results (each defined by its last element, the
  // way a monitor accumulates them)
  // -----------------------------------------------------------------------

  function CountSuccess(rs: seq<WorkerResult>): nat
  {
    if rs == [] then 0 else CountSuccess(rs[..|rs| - 1]) + (if rs[|rs| - 1].Success? then 1 else 0)
  }

  function CountFailure(rs: seq<WorkerResult>): nat
  {
    if rs == [] then 0 else CountFailure(rs[..|rs| - 1]) + (if rs[|rs| - 1].Failure? then 1 else 0)
  }

  function CountWorkerError(rs: seq<WorkerResult>): nat
  {
    if rs == [] then 0 else CountWorkerError(rs[..|rs| - 1]) + (if rs[|rs| - 1].WorkerError? then 1 else 0)
  }

  /** Results that complete a file: successes and failures, not worker errors. */
  function Completions(rs: seq<WorkerResult>): nat
  {
    CountSuccess(rs) + CountFailure(rs)
  }

  function SumDuration(rs: seq<WorkerResult>): real
  {
    if rs == [] then 0.0
    else SumDuration(rs[..|rs| - 1]) + (if rs[|rs| - 1].Success? then rs[|rs| - 1].duration else 0.0)
  }

  function SumProcessingTime(rs: seq<WorkerResult>): real
  {
    if rs == [] then 0.0
    else SumProcessingTime(rs[..|rs| - 1]) + (if rs[|rs| - 1].Success? then rs[|rs| - 1].processingTime else 0.0)
  }

  /** Files GPU `g` transcribed and the processing time it reported for them. */
  function GpuProcessed(g: int, rs: seq<WorkerResult>): nat
  {
    if rs == [] then 0
    else GpuProcessed(g, rs[..|rs| - 1]) + (if rs[|rs| - 1].Success? && rs[|rs| - 1].gpuId == g then 1 else 0)
  }

  function GpuTime(g: int, rs: seq<WorkerResult>): real
  {
    if rs == [] then 0.0
    else
      var r := rs[|rs| - 1];
      GpuTime(g, rs[..|rs| - 1]) + (if r.Success? && r.gpuId == g then r.processingTime else 0.0)
  }

  function GpuFailures(g: int, rs: seq<WorkerResult>): nat
  {
    if rs == [] then 0
    else GpuFailures(g, rs[..|rs| - 1]) + (if rs[|rs| - 1].Failure? && rs[|rs| - 1].gpuId == g then 1 else 0)
  }

  /** The batch summary's `errors` list: one entry per failure, in order. */
  function FailureEntries(rs: seq<WorkerResult>): (es: seq<ErrorEntry>)
    ensures |es| == CountFailure(rs)
  {
    if rs == [] then []
    else
      var r := rs[|rs| - 1];
      FailureEntries(rs[..|rs| - 1]) + (if r.Failure? then [ErrorEntry(r.file, r.error)] else [])
  }

  /** Failures and worker errors, in arrival order (the load balancer's `errors`). */
  function ErrorResults(rs: seq<WorkerResult>): (es: seq<WorkerResult>)
    ensures |es| == CountFailure(rs) + CountWorkerError(rs)
    ensures forall i :: 0 <= i < |es| ==> es[i].Failure? || es[i].WorkerError?
  {
    if rs == [] then []
    else
      var r := rs[|rs| - 1];
      ErrorResults(rs[..|rs| - 1]) + (if r.Failure? || r.WorkerError? then [r] else [])
  }

  /** Every result is counted exactly once by type. */
  lemma {:induction false} CountsPartition(rs: seq<WorkerResult>)
    ensures CountSuccess(rs) + CountFailure(rs) + CountWorkerError(rs) <= |rs|
    ensures (forall i :: 0 <= i < |rs| ==> !rs[i].Unrecognised?) ==>
      CountSuccess(rs) + CountFailure(rs) + CountWorkerError(rs) == |rs|
  {
    if rs != [] {
      CountsPartition(rs[..|rs| - 1]);
    }
  }

  /** The per-GPU processed counts add up to the successes (distinct GPU ids). */
  lemma {:induction false} GpuProcessedSum(gpus: seq<int>, rs: seq<WorkerResult>)
    requires forall i, j :: 0 <= i < j < |gpus| ==> gpus[i] != gpus[j]
    requires forall i :: 0 <= i < |rs| ==> rs[i].Success? ==> rs[i].gpuId in gpus
    ensures SumProcessed(gpus, rs) == CountSuccess(rs)
  {
    if rs != [] {
      var init := rs[..|rs| - 1];
      var r := rs[|rs| - 1];
      assert init + [r] == rs;
      GpuProcessedSum(gpus, init);
      SumProcessedStep(gpus, init, r);
      assert r.Success? ==> r.gpuId in gpus;
    } else {
      SumProcessedEmpty(gpus);
    }
  }

  lemma {:induction false} SumProcessedEmpty(gpus: seq<int>)
    ensures SumProcessed(gpus, []) == 0
  {
    if gpus != [] {
      SumProcessedEmpty(gpus[1..]);
    }
  }

  function SumProcessed(gpus: seq<int>, rs: seq<WorkerResult>): nat
  {
    if gpus == [] then 0 else GpuProcessed(gpus[0], rs) + SumProcessed(gpus[1..], rs)
  }

  lemma {:induction false} SumProcessedStep(gpus: seq<int>, rs: seq<WorkerResult>, r: WorkerResult)
    requires forall i, j :: 0 <= i < j < |gpus| ==> gpus[i] != gpus[j]
    ensures SumProcessed(gpus, rs + [r]) ==
      SumProcessed(gpus, rs) + (if r.Success? && r.gpuId in gpus then 1 else 0)
  {
    var rs' := rs + [r];
    assert rs'[..|rs'| - 1] == rs;
    if gpus != [] {
      SumProcessedStep(gpus[1..], rs, r);
      if r.Success? && r.gpuId == gpus[0] {
        assert r.gpuId !in gpus[1..];
      }
    }
  }

  /** A result completes a file exactly when it is a success or a failure. */
  lemma AppendCompletions(rs: seq<WorkerResult>, r: WorkerResult)
    ensures Completions(rs + [r]) == Completions(rs) + (if r.Success? || r.Failure? then 1 else 0)
  {
    var rs' := rs + [r];
    assert rs'[..|rs'| - 1] == rs;
  }

  /** GPU `g`'s totals over `rs + [r]` are its totals over `rs` plus `r`'s own contribution. */
  lemma AppendGpuTotals(rs: seq<WorkerResult>, r: WorkerResult, g: int)
    ensures GpuProcessed(g, rs + [r]) == GpuProcessed(g, rs) + (if r.Success? && r.gpuId == g then 1 else 0)
    ensures GpuTime(g, rs + [r]) == GpuTime(g, rs) + (if r.Success? && r.gpuId == g then r.processingTime else 0.0)
    ensures GpuFailures(g, rs + [r]) == GpuFailures(g, rs) + (if r.Failure? && r.gpuId == g then 1 else 0)
  {
    var rs' := rs + [r];
    assert rs'[..|rs'| - 1] == rs;
  }

  /** Every total over `rs + [r]` is the total over `rs` plus `r`'s own contribution. */
  lemma AppendTotals(rs: seq<WorkerResult>, r: WorkerResult)
    ensures CountSuccess(rs + [r]) == CountSuccess(rs) + (if r.Success? then 1 else 0)
    ensures CountFailure(rs + [r]) == CountFailure(rs) + (if r.Failure? then 1 else 0)
    ensures CountWorkerError(rs + [r]) == CountWorkerError(rs) + (if r.WorkerError? then 1 else 0)
    ensures SumDuration(rs + [r]) == SumDuration(rs) + (if r.Success? then r.duration else 0.0)
    ensures SumProcessingTime(rs + [r]) == SumProcessingTime(rs) + (if r.Success? then r.processingTime else 0.0)
    ensures FailureEntries(rs + [r]) == FailureEntries(rs) + (if r.Failure? then [ErrorEntry(r.file, r.error)] else [])
    ensures ErrorResults(rs + [r]) == ErrorResults(rs) + (if r.Failure? || r.WorkerError? then [r] else [])
  {
    var rs' := rs + [r];
    assert rs'[..|rs'| - 1] == rs;
  }
}
