/**
 * The multi-GPU launcher: device validation, the size-balanced assignment
 * of files to GPUs, the task queue, a worker's loop over it, the progress
 * tracker that consumes worker results, and the exit code of a run.
 *
 * File sizes are a function `size` from path to bytes; the result queue is
 * the finite sequence of results the workers produced, in arrival order.
 */
module Launcher {
  import opened Base
  import opened Strings
  import opened IntLists
  import opened Sorting
  import opened Paths
  import opened Logging
  import opened Messages

  // -----------------------------------------------------------------------
  // GPUWorkload
  // -----------------------------------------------------------------------

  /** Sum of the sizes of `files`. */
  function TotalSize(files: seq<string>, size: string -> nat): nat
  {
    if files == [] then 0 else TotalSize(files[..|files| - 1], size) + size(files[|files| - 1])
  }

  lemma TotalSizeAppend(files: seq<string>, f: string, size: string -> nat)
    ensures TotalSize(files + [f], size) == TotalSize(files, size) + size(f)
  {
    assert (files + [f])[..|files|] == files;
  }

  /** The files assigned to one GPU and their combined size in bytes. */
  class GPUWorkload {
    const gpuId: int
    var files: seq<string>
    var totalSize: nat

    /** `total_size` is always the size of the files listed. */
    predicate Valid(size: string -> nat)
      reads this
    {
      totalSize == TotalSize(files, size)
    }

    constructor (gpuId: int)
      ensures this.gpuId == gpuId && files == [] && totalSize == 0
    {
      this.gpuId := gpuId;
      files := [];
      totalSize := 0;
    }

    method AddFile(f: string, size: string -> nat)
      requires Valid(size)
      modifies this
      ensures Valid(size)
      ensures files == old(files) + [f] && totalSize == old(totalSize) + size(f)
    {
      TotalSizeAppend(files, f, size);
      files := files + [f];
      totalSize := totalSize + size(f);
    }
  }

  // -----------------------------------------------------------------------
  // GPUDetector.validate_gpu_ids
  // -----------------------------------------------------------------------

  /** `[g for g in requested if g in available]`. */
  function KeepAvailable(requested: seq<int>, available: seq<int>): (valid: seq<int>)
    ensures forall i :: 0 <= i < |valid| ==> valid[i] in available
    ensures forall g :: multiset(valid)[g] == if g in available then multiset(requested)[g] else 0
  {
    if requested == [] then []
    else
      var rest := KeepAvailable(requested[1..], available);
      assert requested == [requested[0]] + requested[1..];
      if requested[0] in available then [requested[0]] + rest else rest
  }

  /**
   * `validate_gpu_ids`: the requested ids that are available, in request
   * order and with repetitions kept; a `ValueError` when none is. With no
   * explicit list the available ids are detected.
   */
  function ValidateGpuIds(requested: seq<int>, available: Option<seq<int>>, cuda: Cuda): (r: Result<seq<int>>)
    ensures var avail := if available.Some? then available.value else AvailableGpus(cuda);
      && (r.Ok? <==> exists i :: 0 <= i < |requested| && requested[i] in avail)
      && (r.Ok? ==> r.value == KeepAvailable(requested, avail))
      && (r.Err? ==> r.error == ValueError("No valid GPUs. Requested: " + ReprInts(requested)
                                           + ", Available: " + ReprInts(avail)))
  {
    var avail := if available.Some? then available.value else AvailableGpus(cuda);
    var valid := KeepAvailable(requested, avail);
    if valid == [] then
      assert forall i :: 0 <= i < |requested| ==> requested[i] !in avail by {
        forall i | 0 <= i < |requested| ensures requested[i] !in avail {
          assert requested[i] in multiset(requested);
          assert multiset(valid)[requested[i]] == 0;
        }
      }
      Err(ValueError("No valid GPUs. Requested: " + ReprInts(requested) + ", Available: " + ReprInts(avail)))
    else
      assert valid[0] in multiset(valid);
      assert valid[0] in multiset(requested);
      Ok(valid)
  }

  // -----------------------------------------------------------------------
  // WorkloadBalancer.balance_by_size: the greedy specification
  // -----------------------------------------------------------------------

  /** Combined size of each list of files. */
  function Totals(buckets: seq<seq<string>>, size: string -> nat): (t: seq<nat>)
    ensures |t| == |buckets|
    ensures forall i :: 0 <= i < |buckets| ==> t[i] == TotalSize(buckets[i], size)
  {
    seq(|buckets|, i requires 0 <= i < |buckets| => TotalSize(buckets[i], size))
  }

  /** The index `min(..., key=...)` picks: a minimum, the first of equals. */
  function ArgMin(t: seq<nat>): (m: nat)
    requires |t| > 0
    ensures m < |t|
    ensures forall i :: 0 <= i < |t| ==> t[m] <= t[i]
    ensures forall i :: 0 <= i < m ==> t[i] > t[m]
  {
    if |t| == 1 then 0
    else
      var m := ArgMin(t[..|t| - 1]);
      if t[|t| - 1] < t[m] then |t| - 1 else m
  }

  /** Hands each file in turn to the currently smallest list. */
  function Greedy(sorted: seq<string>, buckets: seq<seq<string>>, size: string -> nat): (r: seq<seq<string>>)
    requires |buckets| > 0 || sorted == []
    ensures |r| == |buckets|
    decreases |sorted|
  {
    if sorted == [] then buckets
    else
      var m := ArgMin(Totals(buckets, size));
      Greedy(sorted[1..], buckets[m := buckets[m] + [sorted[0]]], size)
  }

  function EmptyBuckets(n: nat): (b: seq<seq<string>>)
    ensures |b| == n && forall i :: 0 <= i < n ==> b[i] == []
  {
    seq(n, _ => [])
  }

  /** The assignment `balance_by_size` computes: largest file first, greedily. */
  function Balanced(files: seq<string>, numGpus: nat, size: string -> nat): (r: seq<seq<string>>)
    requires numGpus > 0 || files == []
    ensures |r| == numGpus
  {
    Greedy(SortDesc(files, size), EmptyBuckets(numGpus), size)
  }

  function Flatten(buckets: seq<seq<string>>): seq<string>
  {
    if buckets == [] then [] else buckets[0] + Flatten(buckets[1..])
  }

  lemma {:induction false} FlattenUpdate(buckets: seq<seq<string>>, m: nat, f: string)
    requires m < |buckets|
    ensures multiset(Flatten(buckets[m := buckets[m] + [f]])) == multiset(Flatten(buckets)) + multiset{f}
  {
    var b' := buckets[m := buckets[m] + [f]];
    if m > 0 {
      FlattenUpdate(buckets[1..], m - 1, f);
      assert b'[1..] == buckets[1..][m - 1 := buckets[m] + [f]];
    } else {
      assert b'[1..] == buckets[1..];
    }
  }

  lemma {:induction false} FlattenEmpty(n: nat)
    ensures Flatten(EmptyBuckets(n)) == []
  {
    if n > 0 {
      assert EmptyBuckets(n)[1..] == EmptyBuckets(n - 1);
      FlattenEmpty(n - 1);
    }
  }

  /** The first step of the greedy pass adds the first file to one list. */
  lemma GreedyFirst(sorted: seq<string>, buckets: seq<seq<string>>, size: string -> nat) returns (b': seq<seq<string>>)
    requires sorted != [] && |buckets| > 0
    ensures |b'| == |buckets|
    ensures Greedy(sorted, buckets, size) == Greedy(sorted[1..], b', size)
    ensures multiset(Flatten(b')) == multiset(Flatten(buckets)) + multiset{sorted[0]}
  {
    var m := ArgMin(Totals(buckets, size));
    b' := buckets[m := buckets[m] + [sorted[0]]];
    FlattenUpdate(buckets, m, sorted[0]);
  }

  /** The greedy pass distributes exactly the files it is given. */
  lemma {:induction false} GreedyPartition(sorted: seq<string>, buckets: seq<seq<string>>, size: string -> nat)
    requires |buckets| > 0 || sorted == []
    ensures multiset(Flatten(Greedy(sorted, buckets, size))) == multiset(Flatten(buckets)) + multiset(sorted)
    decreases |sorted|
  {
    if sorted != [] {
      var b' := GreedyFirst(sorted, buckets, size);
      GreedyPartition(sorted[1..], b', size);
      assert multiset(sorted) == multiset{sorted[0]} + multiset(sorted[1..]) by {
        assert sorted == [sorted[0]] + sorted[1..];
      }
    }
  }

  /** Every file goes to exactly one GPU: the lists together are a permutation of the input. */
  lemma BalancedPartition(files: seq<string>, numGpus: nat, size: string -> nat)
    requires numGpus > 0 || files == []
    ensures multiset(Flatten(Balanced(files, numGpus, size))) == multiset(files)
  {
    GreedyPartition(SortDesc(files, size), EmptyBuckets(numGpus), size);
    FlattenEmpty(numGpus);
  }

  predicate WithinBound(t: seq<nat>, bound: nat) {
    forall i, j :: 0 <= i < |t| && 0 <= j < |t| ==> t[i] <= t[j] + bound
  }

  /**
   * The greedy step keeps all totals within `bound` of each other as long as
   * no file is larger than `bound`.
   */
  lemma {:induction false} GreedyBalanced(sorted: seq<string>, buckets: seq<seq<string>>, size: string -> nat, bound: nat)
    requires |buckets| > 0 || sorted == []
    requires WithinBound(Totals(buckets, size), bound)
    requires forall k :: 0 <= k < |sorted| ==> size(sorted[k]) <= bound
    ensures WithinBound(Totals(Greedy(sorted, buckets, size), size), bound)
    decreases |sorted|
  {
    if sorted != [] {
      var t := Totals(buckets, size);
      var m := ArgMin(t);
      var f := sorted[0];
      var b' := buckets[m := buckets[m] + [f]];
      TotalSizeAppend(buckets[m], f, size);
      var t' := Totals(b', size);
      assert forall i :: 0 <= i < |t| ==> t'[i] == if i == m then t[m] + size(f) else t[i];
      assert WithinBound(t', bound);
      GreedyBalanced(sorted[1..], b', size, bound);
    }
  }

  function MaxSize(files: seq<string>, size: string -> nat): (mx: nat)
    ensures forall k :: 0 <= k < |files| ==> size(files[k]) <= mx
  {
    if files == [] then 0
    else
      var rest := MaxSize(files[1..], size);
      if size(files[0]) > rest then size(files[0]) else rest
  }

  /** The busiest GPU carries at most one (largest) file more than the least busy one. */
  lemma BalancedWithinLargestFile(files: seq<string>, numGpus: nat, size: string -> nat)
    requires numGpus > 0 || files == []
    ensures WithinBound(Totals(Balanced(files, numGpus, size), size), MaxSize(files, size))
  {
    var sorted := SortDesc(files, size);
    var mx := MaxSize(files, size);
    forall k | 0 <= k < |sorted| ensures size(sorted[k]) <= mx {
      assert sorted[k] in multiset(files);
    }
    GreedyBalanced(sorted, EmptyBuckets(numGpus), size, mx);
  }

  // -----------------------------------------------------------------------
  // WorkloadBalancer.balance_by_size: the method
  // -----------------------------------------------------------------------

  function FilesOf(ws: seq<GPUWorkload>): (r: seq<seq<string>>)
    reads ws
    ensures |r| == |ws| && forall i :: 0 <= i < |ws| ==> r[i] == ws[i].files
  {
    seq(|ws|, i reads ws requires 0 <= i < |ws| => ws[i].files)
  }

  function SizesOf(ws: seq<GPUWorkload>): (r: seq<nat>)
    reads ws
    ensures |r| == |ws| && forall i :: 0 <= i < |ws| ==> r[i] == ws[i].totalSize
  {
    seq(|ws|, i reads ws requires 0 <= i < |ws| => ws[i].totalSize)
  }

  /**
   * `balance_by_size`: one workload per GPU id `0 .. num_gpus - 1`, filled by
   * the greedy pass over the files sorted largest first.
   */
  method BalanceBySize(files: seq<string>, numGpus: nat, size: string -> nat) returns (ws: seq<GPUWorkload>)
    requires numGpus > 0 || files == []
    ensures |ws| == numGpus
    ensures forall i :: 0 <= i < |ws| ==> fresh(ws[i]) && ws[i].gpuId == i && ws[i].Valid(size)
    ensures forall i, j :: 0 <= i < j < |ws| ==> ws[i] != ws[j]
    ensures FilesOf(ws) == Balanced(files, numGpus, size)
  {
    var sorted := SortDesc(files, size);
    ws := NewWorkloads(numGpus, size);
    var k := 0;
    while k < |sorted|
      invariant 0 <= k <= |sorted|
      invariant |ws| == numGpus
      invariant forall i :: 0 <= i < |ws| ==> fresh(ws[i]) && ws[i].gpuId == i && ws[i].Valid(size)
      invariant forall i, j :: 0 <= i < j < |ws| ==> ws[i] != ws[j]
      invariant Greedy(sorted[k..], FilesOf(ws), size) == Balanced(files, numGpus, size)
    {
      GreedyStep(sorted, k, FilesOf(ws), size);
      PlaceFile(ws, sorted[k], size);
      k := k + 1;
    }
  }

  /** The loop body: `min(workloads, key=total_size).add_file(f)`. */
  method PlaceFile(ws: seq<GPUWorkload>, f: string, size: string -> nat)
    requires |ws| > 0
    requires forall i :: 0 <= i < |ws| ==> ws[i].Valid(size)
    requires forall i, j :: 0 <= i < j < |ws| ==> ws[i] != ws[j]
    modifies set i | 0 <= i < |ws| :: ws[i]
    ensures forall i :: 0 <= i < |ws| ==> ws[i].Valid(size)
    ensures var before := old(FilesOf(ws));
      var m := ArgMin(Totals(before, size));
      FilesOf(ws) == before[m := before[m] + [f]]
  {
    ghost var before := FilesOf(ws);
    assert SizesOf(ws) == Totals(before, size);
    var m := ArgMin(SizesOf(ws));
    ws[m].AddFile(f, size);
    assert forall i :: 0 <= i < |ws| ==> FilesOf(ws)[i] == before[m := before[m] + [f]][i];
  }

  /** `[GPUWorkload(gpu_id=i) for i in range(n)]`. */
  method NewWorkloads(n: nat, size: string -> nat) returns (ws: seq<GPUWorkload>)
    ensures |ws| == n
    ensures forall i :: 0 <= i < n ==> fresh(ws[i]) && ws[i].gpuId == i && ws[i].Valid(size)
    ensures forall i, j :: 0 <= i < j < n ==> ws[i] != ws[j]
    ensures FilesOf(ws) == EmptyBuckets(n)
  {
    ws := [];
    while |ws| < n
      invariant |ws| <= n
      invariant forall i :: 0 <= i < |ws| ==> fresh(ws[i]) && ws[i].gpuId == i && ws[i].files == [] && ws[i].Valid(size)
      invariant forall i, j :: 0 <= i < j < |ws| ==> ws[i] != ws[j]
    {
      var w := new GPUWorkload(|ws|);
      ws := ws + [w];
    }
  }

  /** One step of the greedy pass. */
  lemma GreedyStep(sorted: seq<string>, k: nat, buckets: seq<seq<string>>, size: string -> nat)
    requires k < |sorted| && |buckets| > 0
    ensures var m := ArgMin(Totals(buckets, size));
      Greedy(sorted[k..], buckets, size) == Greedy(sorted[k + 1..], buckets[m := buckets[m] + [sorted[k]]], size)
  {
    assert sorted[k..][1..] == sorted[k + 1..];
  }

  // -----------------------------------------------------------------------
  // The task queue and a worker's loop
  // -----------------------------------------------------------------------

  /** `_populate_task_queue`: every file as `(path, i + 1, len(files))`, then one sentinel per GPU. */
  method PopulateTaskQueue(files: seq<string>, gpuIds: seq<int>) returns (queue: seq<TaskMessage>)
    ensures queue == TaskQueue(files, |gpuIds|)
  {
    queue := [];
    for i := 0 to |files|
      invariant queue == TaskQueue(files, 0)[..i]
    {
      queue := queue + [Item(files[i], i + 1, |files|)];
    }
    assert queue == TaskQueue(files, 0);
    for g := 0 to |gpuIds|
      invariant queue == TaskQueue(files, g)
    {
      queue := queue + [Sentinel];
    }
  }

  /** What `transcriber.transcribe` yields for one file. */
  datatype Transcription =
    | Transcribed(duration: real, rtf: real, elapsed: real)
    | TranscribeFailed(error: string)

  /** The result a worker sends for one task; outputs go to `<output_dir>/<stem>`. */
  function ResultFor(gpuId: int, path: string, t: Transcription, outputDir: string): (r: WorkerResult)
    ensures r.Success? || r.Failure?
    ensures r.gpuId == gpuId && r.file == path
  {
    match t
    case Transcribed(d, rtf, e) => Success(gpuId, path, d, e, rtf, JoinPath(outputDir, Stem(path)))
    case TranscribeFailed(err) => Failure(gpuId, path, err)
  }

  /** Index of the first sentinel, `|q|` when there is none. */
  function FirstSentinel(q: seq<TaskMessage>): (n: nat)
    ensures n <= |q|
    ensures forall k :: 0 <= k < n ==> q[k].Item?
    ensures n < |q| ==> q[n].Sentinel?
  {
    if q == [] then 0 else if q[0].Sentinel? then 0 else 1 + FirstSentinel(q[1..])
  }

  /**
   * `_worker_process`: takes tasks until the sentinel, sending one result per
   * task; a failed model load sends one `error` result and takes nothing.
   * Returns the results sent, the tasks left in the queue, and whether the
   * worker stopped (a worker finding the queue empty before any sentinel
   * would keep polling).
   */
  method Worker(gpuId: int, initError: Option<string>, queue: seq<TaskMessage>,
                transcribe: string -> Transcription, outputDir: string)
    returns (results: seq<WorkerResult>, rest: seq<TaskMessage>, stopped: bool)
    ensures initError.Some? ==> results == [WorkerError(gpuId, initError.value)] && rest == queue && stopped
    ensures initError.None? ==>
      var n := FirstSentinel(queue);
      && |results| == n
      && (forall k :: 0 <= k < n ==> results[k] == ResultFor(gpuId, queue[k].path, transcribe(queue[k].path), outputDir))
      && (stopped <==> n < |queue|)
      && rest == if n < |queue| then queue[n + 1..] else []
  {
    if initError.Some? {
      return [WorkerError(gpuId, initError.value)], queue, true;
    }
    results := [];
    rest := queue;
    var n := FirstSentinel(queue);
    while rest != [] && rest[0].Item?
      invariant |results| <= n && rest == queue[|results|..]
      invariant forall k :: 0 <= k < |results| ==> results[k] == ResultFor(gpuId, queue[k].path, transcribe(queue[k].path), outputDir)
      decreases |rest|
    {
      var path := rest[0].path;
      results := results + [ResultFor(gpuId, path, transcribe(path), outputDir)];
      rest := rest[1..];
    }
    if rest == [] {
      stopped := false;
    } else {
      rest := rest[1..];
      stopped := true;
    }
  }

  /** A worker given the whole queue handles every file once, in order, and stops. */
  lemma WorkerTakesAllFiles(files: seq<string>, workers: nat)
    requires workers > 0
    ensures FirstSentinel(TaskQueue(files, workers)) == |files|
    ensures forall k :: 0 <= k < |files| ==> TaskQueue(files, workers)[k].path == files[k]
  {
    TaskQueueShape(files, workers);
    var q := TaskQueue(files, workers);
    assert q[|files|].Sentinel?;
  }

  /** Every result a worker sends for a task completes that task. */
  lemma {:induction false} ResultsComplete(rs: seq<WorkerResult>)
    requires forall k :: 0 <= k < |rs| ==> rs[k].Success? || rs[k].Failure?
    ensures Completions(rs) == |rs|
  {
    if rs != [] {
      ResultsComplete(rs[..|rs| - 1]);
    }
  }

  // -----------------------------------------------------------------------
  // ProgressTracker
  // -----------------------------------------------------------------------

  /** `{"processed": ..., "time": ...}` for one GPU. */
  datatype GpuTally = GpuTally(processed: nat, time: real)

  /** `{gpu: {"processed": 0, "time": 0.0} for gpu in keys}`. */
  function InitialTallies(keys: seq<int>): (m: map<int, GpuTally>)
    ensures m.Keys == set g | g in keys
    ensures forall g :: g in m ==> m[g] == GpuTally(0, 0.0)
  {
    map g | g in keys :: GpuTally(0, 0.0)
  }

  /** `range(n)`. */
  function Range(n: nat): (r: seq<int>)
    ensures |r| == n && forall i :: 0 <= i < n ==> r[i] == i
  {
    seq(n, i => i)
  }

  /** Overall RTF and speedup of the tracker: 0 unless the denominator is positive. */
  function RatioIfPositive(num: real, den: real): real
  {
    if den > 0.0 then num / den else 0.0
  }

  /** The dictionary `get_summary` returns. */
  datatype Summary = Summary(
    totalFiles: nat,
    successful: nat,
    failed: nat,
    totalDuration: real,
    totalProcessingTime: real,
    overallRtf: real,
    speedup: real,
    gpuStats: map<int, GpuTally>,
    errors: seq<ErrorEntry>)

  /** How `monitor_queue` ends on a finite stream of results. */
  datatype MonitorEnd =
    | Done                // `completed` reached `total_files`
    | WaitsForever        // the stream ran out first: the loop would poll forever
    | RaisedKeyError      // a success named a GPU without a statistics entry

  /** The tracker's counters and its batch summary's, as one value. */
  datatype Counters = Counters(
    completed: nat,
    summaryTotal: nat,
    successful: nat,
    failed: nat,
    summaryErrors: seq<ErrorEntry>,
    totalDuration: real,
    totalProcessingTime: real,
    gpuStats: map<int, GpuTally>)

  /** Every counter is the corresponding total over the results `rs`. */
  predicate Matches(c: Counters, rs: seq<WorkerResult>)
  {
    && c.completed == c.summaryTotal
    && c.successful == CountSuccess(rs)
    && c.failed == CountFailure(rs)
    && c.summaryErrors == FailureEntries(rs)
    && c.totalDuration == SumDuration(rs)
    && c.totalProcessingTime == SumProcessingTime(rs)
    && (forall g :: g in c.gpuStats ==> c.gpuStats[g] == GpuTally(GpuProcessed(g, rs), GpuTime(g, rs)))
  }

  /** What `_process_result` does to the counters when a success's GPU has a statistics entry. */
  function Processed(c: Counters, r: WorkerResult): Counters
    requires r.Success? ==> r.gpuId in c.gpuStats
  {
    match r
    case Success(g, _, duration, processingTime, _, _) =>
      var t := c.gpuStats[g];
      c.(completed := c.completed + 1, summaryTotal := c.summaryTotal + 1, successful := c.successful + 1,
         totalDuration := c.totalDuration + duration, totalProcessingTime := c.totalProcessingTime + processingTime,
         gpuStats := c.gpuStats[g := GpuTally(t.processed + 1, t.time + processingTime)])
    case Failure(_, file, error) =>
      c.(completed := c.completed + 1, summaryTotal := c.summaryTotal + 1, failed := c.failed + 1,
         summaryErrors := c.summaryErrors + [ErrorEntry(file, error)])
    case _ => c
  }

  /** Processing a result keeps the counters equal to the totals over the results seen. */
  lemma ProcessedMatches(c: Counters, rs: seq<WorkerResult>, r: WorkerResult)
    requires Matches(c, rs)
    requires r.Success? ==> r.gpuId in c.gpuStats
    ensures Matches(Processed(c, r), rs + [r])
  {
    AppendTotals(rs, r);
    var m := Processed(c, r).gpuStats;
    forall g | g in m
      ensures m[g] == GpuTally(GpuProcessed(g, rs + [r]), GpuTime(g, rs + [r]))
    {
      AppendGpuTotals(rs, r, g);
    }
  }

  /** Every success in `rs` names a GPU in `keys`. */
  predicate SuccessesKeyed(rs: seq<WorkerResult>, keys: set<int>)
  {
    forall k :: 0 <= k < |rs| ==> rs[k].Success? ==> rs[k].gpuId in keys
  }

  class ProgressTracker {
    const totalFiles: nat
    const numGpus: nat
    var completed: nat
    const batchSummary: BatchLogSummary
    var totalDuration: real
    var totalProcessingTime: real
    var gpuStats: map<int, GpuTally>
    /** The results processed so far, in order. */
    ghost var history: seq<WorkerResult>

    /** Every counter is the corresponding total over the results processed. */
    ghost predicate Valid()
      reads this, batchSummary
    {
      batchSummary.Valid() && Matches(Snapshot(), history)
    }

    /** The counters as one value. */
    function Snapshot(): Counters
      reads this, batchSummary
    {
      Counters(completed, batchSummary.total, batchSummary.successful, batchSummary.failed, batchSummary.errors,
               totalDuration, totalProcessingTime, gpuStats)
    }

    /**
     * `ProgressTracker(total_files, num_gpus)` as written: statistics are
     * keyed `0 .. num_gpus - 1`.
     */
    constructor (totalFiles: nat, numGpus: nat)
      ensures Valid() && fresh(batchSummary)
      ensures this.totalFiles == totalFiles && this.numGpus == numGpus
      ensures completed == 0 && history == []
      ensures gpuStats == InitialTallies(Range(numGpus))
    {
      this.totalFiles := totalFiles;
      this.numGpus := numGpus;
      completed := 0;
      batchSummary := new BatchLogSummary();
      totalDuration := 0.0;
      totalProcessingTime := 0.0;
      gpuStats := InitialTallies(Range(numGpus));
      history := [];
    }

    /** The tracker keyed by the GPU ids the workers actually run on. */
    constructor ForGpus(totalFiles: nat, gpuIds: seq<int>)
      ensures Valid() && fresh(batchSummary)
      ensures this.totalFiles == totalFiles && numGpus == |gpuIds|
      ensures completed == 0 && history == []
      ensures gpuStats == InitialTallies(gpuIds)
    {
      this.totalFiles := totalFiles;
      numGpus := |gpuIds|;
      completed := 0;
      batchSummary := new BatchLogSummary();
      totalDuration := 0.0;
      totalProcessingTime := 0.0;
      gpuStats := InitialTallies(gpuIds);
      history := [];
    }

    /**
     * `_process_result`. A success from a GPU without a statistics entry
     * raises `KeyError` after the completion count, the batch summary and the
     * totals were already updated.
     */
    method ProcessResult(r: WorkerResult) returns (raisedKeyError: bool)
      requires Valid()
      modifies this, batchSummary
      ensures raisedKeyError <==> r.Success? && r.gpuId !in old(gpuStats)
      ensures !raisedKeyError ==> Valid() && history == old(history) + [r]
      ensures !raisedKeyError ==> completed == old(completed) + (if r.Success? || r.Failure? then 1 else 0)
      ensures !raisedKeyError ==> gpuStats.Keys == old(gpuStats).Keys
      ensures raisedKeyError ==>
        && completed == old(completed) + 1
        && batchSummary.successful == old(batchSummary.successful) + 1
        && totalDuration == old(totalDuration) + r.duration
        && totalProcessingTime == old(totalProcessingTime) + r.processingTime
        && gpuStats == old(gpuStats)
    {
      ghost var c := Snapshot();
      match r {
        case Success(g, file, duration, processingTime, _, _) =>
          completed := completed + 1;
          batchSummary.RecordSuccess(file);
          totalDuration := totalDuration + duration;
          totalProcessingTime := totalProcessingTime + processingTime;
          if g !in gpuStats {
            return true;
          }
          var tally := gpuStats[g];
          gpuStats := gpuStats[g := GpuTally(tally.processed + 1, tally.time + processingTime)];
          assert Snapshot() == Processed(c, r);
        case Failure(_, file, error) =>
          completed := completed + 1;
          batchSummary.RecordFailure(file, error);
          assert Snapshot() == Processed(c, r);
        case WorkerError(_, _) =>
        case Unrecognised =>
      }
      ProcessedMatches(c, history, r);
      history := history + [r];
      raisedKeyError := false;
    }

    /**
     * `monitor_queue` over the results in arrival order: processes results
     * until `total_files` files are completed.
     */
    method MonitorQueue(stream: seq<WorkerResult>) returns (consumed: nat, end: MonitorEnd)
      requires Valid()
      modifies this, batchSummary
      ensures consumed <= |stream|
      ensures !end.RaisedKeyError? ==> Valid() && history == old(history) + stream[..consumed]
      ensures end.Done? <==> (!end.RaisedKeyError? && completed >= totalFiles)
      ensures end.WaitsForever? ==> consumed == |stream|
      ensures end.RaisedKeyError? ==>
        0 < consumed && stream[consumed - 1].Success? && stream[consumed - 1].gpuId !in old(gpuStats)
      // the loop stops as soon as the count is reached
      ensures forall k :: 0 <= k < consumed ==> old(completed) + Completions(stream[..k]) < totalFiles
      ensures !end.RaisedKeyError? ==> completed == old(completed) + Completions(stream[..consumed])
      // every success before the one that raised found its entry
      ensures !end.RaisedKeyError? ==> SuccessesKeyed(stream[..consumed], old(gpuStats).Keys)
      ensures end.RaisedKeyError? ==> 0 < consumed && SuccessesKeyed(stream[..consumed - 1], old(gpuStats).Keys)
    {
      consumed := 0;
      while completed < totalFiles && consumed < |stream|
        invariant consumed <= |stream|
        invariant Valid() && history == old(history) + stream[..consumed]
        invariant completed == old(completed) + Completions(stream[..consumed])
        invariant forall k :: 0 <= k < consumed ==> old(completed) + Completions(stream[..k]) < totalFiles
        invariant gpuStats.Keys == old(gpuStats).Keys
        invariant SuccessesKeyed(stream[..consumed], old(gpuStats).Keys)
        decreases |stream| - consumed
      {
        var r := stream[consumed];
        assert stream[..consumed + 1] == stream[..consumed] + [r];
        assert stream[..consumed + 1][..consumed] == stream[..consumed];
        AppendCompletions(stream[..consumed], r);
        assert forall k :: 0 <= k < consumed + 1 ==> old(completed) + Completions(stream[..k]) < totalFiles;
        var raised := ProcessResult(r);
        consumed := consumed + 1;
        if raised {
          return consumed, RaisedKeyError;
        }
      }
      end := if completed >= totalFiles then Done else WaitsForever;
    }

    /** `get_summary`. */
    function GetSummary(): (s: Summary)
      reads this, batchSummary
      ensures s.totalFiles == totalFiles && s.successful == batchSummary.successful && s.failed == batchSummary.failed
      ensures s.gpuStats == gpuStats && s.errors == batchSummary.errors
      ensures s.overallRtf == RatioIfPositive(totalProcessingTime, totalDuration)
      ensures s.speedup == RatioIfPositive(totalDuration, totalProcessingTime)
    {
      Summary(totalFiles, batchSummary.successful, batchSummary.failed, totalDuration, totalProcessingTime,
              RatioIfPositive(totalProcessingTime, totalDuration),
              RatioIfPositive(totalDuration, totalProcessingTime),
              gpuStats, batchSummary.errors)
    }
  }

  /** Overall RTF and speedup are reciprocal whenever both totals are positive. */
  lemma RtfSpeedupReciprocal(duration: real, processing: real)
    requires duration > 0.0 && processing > 0.0
    ensures RatioIfPositive(processing, duration) * RatioIfPositive(duration, processing) == 1.0
    ensures RatioIfPositive(processing, duration) > 0.0
  {
  }

  /**
   * With `--gpus 1` on a machine that has GPUs 0 and 1 the tracker is keyed
   * `{0}`, so the first success from GPU 1 raises `KeyError`.
   */
  method SuccessOnGpuOneRaises() returns (raised: bool)
    ensures raised
  {
    var gpuIds := [1];
    var t := new ProgressTracker(1, |gpuIds|);
    raised := t.ProcessResult(Success(1, "a.wav", 10.0, 1.0, 0.1, "data/outputs/a"));
  }

  /** Keyed by the GPU ids in use, no success from a configured GPU can miss its entry. */
  lemma ConfiguredGpusAreKeyed(gpuIds: seq<int>, r: WorkerResult)
    requires r.Success? && r.gpuId in gpuIds
    ensures r.gpuId in InitialTallies(gpuIds)
  {
  }

  // -----------------------------------------------------------------------
  // MultiGPUOrchestrator.run and main
  // -----------------------------------------------------------------------

  /** How `run` ends. */
  datatype RunEnd =
    | Exit(code: int)
    | NeverReturns        // results stopped arriving before every file completed
    | Raises(error: Error)

  /** The GPU ids the as-written tracker has entries for: `range(num_gpus)`. */
  function RangeKeys(n: nat): (keys: set<int>)
    ensures forall g :: g in keys <==> 0 <= g < n
  {
    var r := Range(n);
    assert forall g :: 0 <= g < n ==> g in r by {
      forall g | 0 <= g < n
        ensures g in r
      {
        assert r[g] == g;
      }
    }
    set g | g in r
  }

  /**
   * `k` is the first result of `stream` that is a success from a GPU outside
   * `keys`: the one whose processing raises `KeyError`.
   */
  predicate FirstUnkeyedAt(stream: seq<WorkerResult>, keys: set<int>, k: nat)
  {
    && k < |stream|
    && stream[k].Success? && stream[k].gpuId !in keys
    && SuccessesKeyed(stream[..k], keys)
  }

  lemma {:induction false} CompletionsGrow(s: seq<WorkerResult>, j: nat, k: nat)
    requires j <= k <= |s|
    ensures Completions(s[..j]) <= Completions(s[..k])
  {
    if j < k {
      CompletionsGrow(s, j, k - 1);
      assert s[..k] == s[..k - 1] + [s[k - 1]];
      AppendCompletions(s[..k - 1], s[k - 1]);
    }
  }

  /** A monitor that completed every file with keyed successes only met no early unkeyed success. */
  lemma NoUnkeyedBeforeDone(stream: seq<WorkerResult>, keys: set<int>, n: nat, total: nat, k: nat)
    requires n <= |stream| && SuccessesKeyed(stream[..n], keys) && Completions(stream[..n]) >= total
    ensures !(FirstUnkeyedAt(stream, keys, k) && Completions(stream[..k]) < total)
  {
    if FirstUnkeyedAt(stream, keys, k) && n <= k {
      CompletionsGrow(stream, n, k);
    }
  }

  lemma NoUnkeyedIn(stream: seq<WorkerResult>, keys: set<int>, k: nat)
    requires SuccessesKeyed(stream, keys)
    ensures !FirstUnkeyedAt(stream, keys, k)
  {
  }

  /** There is at most one first unkeyed success. */
  lemma FirstUnkeyedUnique(stream: seq<WorkerResult>, keys: set<int>, j: nat, k: nat)
    requires FirstUnkeyedAt(stream, keys, j)
    ensures FirstUnkeyedAt(stream, keys, k) ==> k == j
  {
  }

  /**
   * The results `monitor_queue` reads before it stops on its own: the
   * shortest prefix of `stream` holding `n` completions, or all of `stream`
   * when it never holds that many.
   */
  function CompletedPrefix(stream: seq<WorkerResult>, n: nat): (m: nat)
    ensures m <= |stream|
  {
    ReachFrom(stream, n, 0)
  }

  function ReachFrom(stream: seq<WorkerResult>, n: nat, i: nat): (m: nat)
    requires i <= |stream|
    ensures i <= m <= |stream|
    decreases |stream| - i
  {
    if i == |stream| || Completions(stream[..i]) >= n then i else ReachFrom(stream, n, i + 1)
  }

  /** A prefix that reaches `n` completions and no shorter one does is `CompletedPrefix`. */
  lemma {:induction false} ReachFromLeast(stream: seq<WorkerResult>, n: nat, i: nat, j: nat)
    requires i <= j <= |stream| && Completions(stream[..j]) >= n
    requires forall k :: 0 <= k < j ==> Completions(stream[..k]) < n
    ensures ReachFrom(stream, n, i) == j
    decreases j - i
  {
    if i < j {
      assert Completions(stream[..i]) < n;
      ReachFromLeast(stream, n, i + 1, j);
    }
  }

  /** `CompletedPrefix` reaches `n` completions only when the whole stream does. */
  lemma CompletedPrefixShort(stream: seq<WorkerResult>, n: nat)
    ensures Completions(stream[..CompletedPrefix(stream, n)]) <= Completions(stream)
  {
    CompletionsGrow(stream, CompletedPrefix(stream, n), |stream|);
    assert stream[..|stream|] == stream;
  }

  /** An early unkeyed success lies inside every prefix that completes `n` files. */
  lemma UnkeyedInCompletedPrefix(stream: seq<WorkerResult>, keys: set<int>, n: nat, k: nat)
    requires FirstUnkeyedAt(stream, keys, k) && Completions(stream[..k]) < n
    ensures !(Completions(stream[..CompletedPrefix(stream, n)]) >= n
              && SuccessesKeyed(stream[..CompletedPrefix(stream, n)], keys))
  {
    var m := CompletedPrefix(stream, n);
    if m <= k {
      CompletionsGrow(stream, m, k);
    } else {
      assert stream[..m][k] == stream[k];
    }
  }

  /**
   * The end of `run` once the tracker exists: `monitor_queue`, then 0 when no
   * file failed and 1 otherwise. It raises exactly when a success from a GPU
   * without an entry arrives before every file is completed.
   */
  method MonitorAndReport(tracker: ProgressTracker, stream: seq<WorkerResult>) returns (end: RunEnd, consumed: nat)
    requires tracker.Valid() && tracker.history == [] && tracker.completed == 0
    modifies tracker, tracker.batchSummary
    ensures consumed <= |stream|
    ensures end.Exit? ==>
      && Completions(stream[..consumed]) >= tracker.totalFiles
      && (end.code == 0 <==> CountFailure(stream[..consumed]) == 0)
      && (end.code == 0 || end.code == 1)
    ensures end.NeverReturns? ==> consumed == |stream| && Completions(stream) < tracker.totalFiles
    ensures end.Raises? ==>
      && 0 < consumed && FirstUnkeyedAt(stream, old(tracker.gpuStats).Keys, consumed - 1)
      && Completions(stream[..consumed - 1]) < tracker.totalFiles
      && end.error == KeyError(IntToString(stream[consumed - 1].gpuId))
    ensures forall k: nat :: FirstUnkeyedAt(stream, old(tracker.gpuStats).Keys, k) && Completions(stream[..k]) < tracker.totalFiles ==>
      end == Raises(KeyError(IntToString(stream[k].gpuId))) && consumed == k + 1
    ensures end.Exit? ==> consumed == CompletedPrefix(stream, tracker.totalFiles)
    ensures var m := CompletedPrefix(stream, tracker.totalFiles);
      Completions(stream[..m]) >= tracker.totalFiles && SuccessesKeyed(stream[..m], old(tracker.gpuStats).Keys) ==>
        end.Exit?
  {
    ghost var keys := tracker.gpuStats.Keys;
    var monitorEnd;
    consumed, monitorEnd := tracker.MonitorQueue(stream);
    match monitorEnd {
      case Done =>
        assert tracker.history == stream[..consumed];
        var summary := tracker.GetSummary();
        end := Exit(if summary.failed == 0 then 0 else 1);
        forall k: nat
          ensures !(FirstUnkeyedAt(stream, keys, k) && Completions(stream[..k]) < tracker.totalFiles)
        {
          NoUnkeyedBeforeDone(stream, keys, consumed, tracker.totalFiles, k);
        }
        ReachFromLeast(stream, tracker.totalFiles, 0, consumed);
      case WaitsForever =>
        assert stream[..consumed] == stream;
        end := NeverReturns;
        forall k: nat
          ensures !FirstUnkeyedAt(stream, keys, k)
        {
          NoUnkeyedIn(stream, keys, k);
        }
        CompletedPrefixShort(stream, tracker.totalFiles);
      case RaisedKeyError =>
        end := Raises(KeyError(IntToString(stream[consumed - 1].gpuId)));
        forall k: nat
          ensures FirstUnkeyedAt(stream, keys, k) ==> k == consumed - 1
        {
          FirstUnkeyedUnique(stream, keys, consumed - 1, k);
        }
        UnkeyedInCompletedPrefix(stream, keys, tracker.totalFiles, consumed - 1);
    }
  }

  /**
   * `MultiGPUOrchestrator.run` as written, given the files found and the
   * results the workers send: the tracker is keyed `0 .. len(gpu_ids) - 1`,
   * so the run raises `KeyError` exactly when, before every file is
   * completed, a success arrives from a GPU id outside that range.
   */
  method Run(files: seq<string>, gpuIds: seq<int>, stream: seq<WorkerResult>)
    returns (end: RunEnd, queue: seq<TaskMessage>, consumed: nat)
    ensures files == [] ==> end == Exit(0) && queue == [] && consumed == 0
    ensures files != [] ==> queue == TaskQueue(files, |gpuIds|) && consumed <= |stream|
    ensures end.Exit? && files != [] ==>
      && Completions(stream[..consumed]) >= |files|
      && (end.code == 0 <==> CountFailure(stream[..consumed]) == 0)
      && (end.code == 0 || end.code == 1)
    ensures end.NeverReturns? ==> consumed == |stream| && Completions(stream) < |files|
    ensures end.Raises? ==>
      && files != [] && 0 < consumed && FirstUnkeyedAt(stream, RangeKeys(|gpuIds|), consumed - 1)
      && Completions(stream[..consumed - 1]) < |files|
      && end.error == KeyError(IntToString(stream[consumed - 1].gpuId))
    ensures forall k: nat :: files != [] && FirstUnkeyedAt(stream, RangeKeys(|gpuIds|), k) && Completions(stream[..k]) < |files| ==>
      end == Raises(KeyError(IntToString(stream[k].gpuId))) && consumed == k + 1
    ensures end.Exit? && files != [] ==> consumed == CompletedPrefix(stream, |files|)
    ensures var m := CompletedPrefix(stream, |files|);
      files != [] && Completions(stream[..m]) >= |files| && SuccessesKeyed(stream[..m], RangeKeys(|gpuIds|)) ==>
        end.Exit?
  {
    if files == [] {
      return Exit(0), [], 0;
    }
    queue := PopulateTaskQueue(files, gpuIds);
    var tracker := new ProgressTracker(|files|, |gpuIds|);
    assert tracker.gpuStats.Keys == RangeKeys(|gpuIds|);
    end, consumed := MonitorAndReport(tracker, stream);
  }

  /**
   * `run` with the corrected tracker of `ProgressTracker.ForGpus`: keyed by
   * the GPU ids in use, it never raises when every success names one of them.
   */
  method RunCorrected(files: seq<string>, gpuIds: seq<int>, stream: seq<WorkerResult>)
    returns (end: RunEnd, queue: seq<TaskMessage>, consumed: nat)
    ensures files == [] ==> end == Exit(0) && queue == [] && consumed == 0
    ensures files != [] ==> queue == TaskQueue(files, |gpuIds|) && consumed <= |stream|
    ensures end.Exit? && files != [] ==>
      && Completions(stream[..consumed]) >= |files|
      && (end.code == 0 <==> CountFailure(stream[..consumed]) == 0)
      && (end.code == 0 || end.code == 1)
    ensures end.NeverReturns? ==> consumed == |stream| && Completions(stream) < |files|
    ensures SuccessesKeyed(stream, set g | g in gpuIds) ==> !end.Raises?
  {
    if files == [] {
      return Exit(0), [], 0;
    }
    queue := PopulateTaskQueue(files, gpuIds);
    var tracker := new ProgressTracker.ForGpus(|files|, gpuIds);
    end, consumed := MonitorAndReport(tracker, stream);
    if end.Raises? {
      assert stream[consumed - 1].Success?;
    }
  }

  /**
   * `--gpus 1` with one file whose success comes from GPU 1: the run as
   * written raises `KeyError`, the corrected run finishes with exit code 0.
   */
  method GpuOneRuns() returns (asWritten: RunEnd, corrected: RunEnd)
    ensures asWritten.Raises? && asWritten.error.KeyError?
    ensures corrected == Exit(0)
  {
    var stream := [Success(1, "a.wav", 10.0, 1.0, 0.1, "data/outputs/a")];
    assert FirstUnkeyedAt(stream, RangeKeys(1), 0);
    var queue, consumed;
    asWritten, queue, consumed := Run(["a.wav"], [1], stream);
    corrected, queue, consumed := RunCorrected(["a.wav"], [1], stream);
    assert stream[..0] == [] && stream[..1] == stream;
    assert Completions(stream) == 1 && CountFailure(stream) == 0;
  }

  /**
   * The GPU ids `main` runs on: the detected ones for `auto` (in any case),
   * else the valid ids of the comma-separated list; `None` where `main`
   * prints an error and returns 1.
   */
  function ResolvedGpus(gpusArg: string, cuda: Cuda): (r: Option<seq<int>>)
    ensures Lower(gpusArg) == "auto" ==> r == (if AvailableGpus(cuda) == [] then None else Some(AvailableGpus(cuda)))
    ensures Lower(gpusArg) != "auto" && ParseInts(Split(gpusArg, ",")).None? ==> r.None?
    ensures r.Some? ==> r.value != []
  {
    if Lower(gpusArg) == "auto" then
      if AvailableGpus(cuda) == [] then None else Some(AvailableGpus(cuda))
    else
      var requested := ParseInts(Split(gpusArg, ","));
      if requested.None? then None
      else
        var valid := ValidateGpuIds(requested.value, None, cuda);
        if valid.Err? then None
        else
          var i :| 0 <= i < |requested.value| && requested.value[i] in AvailableGpus(cuda);
          assert requested.value[i] in multiset(requested.value);
          assert requested.value[i] in multiset(valid.value);
          Some(valid.value)
  }

  /**
   * `main`: resolves `--gpus`, checks the input directory and runs the
   * orchestrator as written; an exception from `run` returns 1, an interrupt
   * 130. `None` when the run never returns.
   */
  method Launch(gpusArg: string, cuda: Cuda, inputDirExists: bool, files: seq<string>,
                stream: seq<WorkerResult>, interrupted: bool)
    returns (code: Option<int>)
    ensures code.Some? ==> code.value in {0, 1, 130}
    ensures ResolvedGpus(gpusArg, cuda).None? || !inputDirExists ==> code == Some(1)
    ensures code == Some(0) ==> !interrupted && inputDirExists
    ensures ResolvedGpus(gpusArg, cuda).Some? && inputDirExists && interrupted ==> code == Some(130)
    ensures ResolvedGpus(gpusArg, cuda).Some? && inputDirExists && !interrupted && files == [] ==> code == Some(0)
    // a success from a GPU id at or past the number of GPUs in use is fatal
    ensures ResolvedGpus(gpusArg, cuda).Some? && inputDirExists && !interrupted && files != [] ==>
      forall k: nat :: FirstUnkeyedAt(stream, RangeKeys(|ResolvedGpus(gpusArg, cuda).value|), k) && Completions(stream[..k]) < |files| ==>
        code == Some(1)
    // a run that completes every file before any such success exits with 0
    // exactly when none of the results read up to the last completion failed
    ensures ResolvedGpus(gpusArg, cuda).Some? && inputDirExists && !interrupted && files != [] ==>
      var m := CompletedPrefix(stream, |files|);
      Completions(stream[..m]) >= |files| && SuccessesKeyed(stream[..m], RangeKeys(|ResolvedGpus(gpusArg, cuda).value|)) ==>
        code == Some(if CountFailure(stream[..m]) == 0 then 0 else 1)
  {
    var gpuIds := ResolvedGpus(gpusArg, cuda);
    if gpuIds.None? || !inputDirExists {
      return Some(1);
    }
    if interrupted {
      return Some(130);
    }
    var end, _, _ := Run(files, gpuIds.value, stream);
    match end {
      case Exit(c) => code := Some(c);
      case NeverReturns => code := None;
      case Raises(_) => code := Some(1);
    }
  }
}
