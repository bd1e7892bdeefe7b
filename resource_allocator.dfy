/**
 * `ResourceAllocator`: round-robin distribution of size-sorted files over
 * GPUs, the task queue, workload estimates and distribution statistics.
 * `stat` gives a file's size in bytes, `None` where `stat()` raises
 * `OSError` (the allocator then counts the file as 0 bytes).
 */
module ResourceAllocator {
  import opened Base
  import opened Sorting
  import opened Messages
  import Launcher

  /** `_get_file_size`: the size, or 0 when the file cannot be stat'ed. */
  function FileSize(stat: string -> Option<nat>, f: string): nat
  {
    stat(f).GetOr(0)
  }

  /** Files at positions `i` with `i % n == g`, in order (GPU `g`'s round-robin share). */
  function Bucket(s: seq<string>, g: nat, n: nat): seq<string>
    requires n > 0
  {
    if s == [] then []
    else Bucket(s[..|s| - 1], g, n) + (if (|s| - 1) % n == g then [s[|s| - 1]] else [])
  }

  /** Euclidean division is unique: `q * n + r` with `0 <= r < n` divides as `q`, `r`. */
  lemma DivModUnique(a: int, n: int, q: int, r: int)
    requires n > 0 && 0 <= r < n && a == q * n + r
    ensures a / n == q && a % n == r
  {
    var d, m := a / n, a % n;
    assert a == d * n + m;
    assert (q - d) * n == m - r;
    if q > d {
      MulAtLeast(q - d, n);
      assert false;
    } else if q < d {
      MulAtLeast(d - q, n);
      assert false;
    }
  }

  lemma MulAtLeast(x: int, n: int)
    requires x >= 1 && n > 0
    ensures x * n >= n
  {
  }

  /** Counting one further: the remainder steps up, or wraps to 0 and the quotient steps up. */
  lemma DivModNext(i: nat, n: nat)
    requires n > 0
    ensures i % n + 1 < n ==> (i + 1) % n == i % n + 1 && (i + 1) / n == i / n
    ensures i % n + 1 == n ==> (i + 1) % n == 0 && (i + 1) / n == i / n + 1
  {
    var q, r := i / n, i % n;
    if r + 1 < n {
      DivModUnique(i + 1, n, q, r + 1);
    } else {
      assert i + 1 == (q + 1) * n;
      DivModUnique(i + 1, n, q + 1, 0);
    }
  }

  /**
   * `distribute_workload`: the files sorted largest first, then dealt out
   * round-robin; GPU `g` gets the sorted files at positions `g, g + n, ...`.
   */
  method DistributeWorkload(files: seq<string>, numGpus: nat, stat: string -> Option<nat>)
    returns (workloads: seq<seq<string>>)
    requires numGpus > 0 || files == []
    ensures |workloads| == numGpus
    ensures numGpus > 0 ==>
      forall g :: 0 <= g < numGpus ==> workloads[g] == Bucket(SortDesc(files, f => FileSize(stat, f)), g, numGpus)
    ensures multiset(Launcher.Flatten(workloads)) == multiset(files)
    // shares differ by at most one file: the first |files| % n GPUs get one extra
    ensures forall g :: 0 <= g < numGpus ==>
      |workloads[g]| == |files| / numGpus + (if g < |files| % numGpus then 1 else 0)
  {
    if files == [] {
      workloads := Launcher.EmptyBuckets(numGpus);
      Launcher.FlattenEmpty(numGpus);
      return;
    }
    var sorted := SortDesc(files, f => FileSize(stat, f));
    workloads := Launcher.EmptyBuckets(numGpus);
    Launcher.FlattenEmpty(numGpus);
    var i := 0;
    while i < |sorted|
      invariant 0 <= i <= |sorted| && |workloads| == numGpus
      invariant forall h :: 0 <= h < numGpus ==> workloads[h] == Bucket(sorted[..i], h, numGpus)
      invariant multiset(Launcher.Flatten(workloads)) == multiset(sorted[..i])
      invariant forall h :: 0 <= h < numGpus ==>
        |workloads[h]| == i / numGpus + (if h < i % numGpus then 1 else 0)
    {
      workloads := Deal(sorted, i, numGpus, workloads);
      i := i + 1;
    }
    assert sorted[..i] == sorted;
  }

  /** One step of the deal: file `i` goes to GPU `i % n`. */
  method Deal(sorted: seq<string>, i: nat, n: nat, ws: seq<seq<string>>) returns (ws': seq<seq<string>>)
    requires i < |sorted| && |ws| == n > 0
    requires forall h :: 0 <= h < n ==> ws[h] == Bucket(sorted[..i], h, n)
    requires multiset(Launcher.Flatten(ws)) == multiset(sorted[..i])
    requires forall h :: 0 <= h < n ==> |ws[h]| == i / n + (if h < i % n then 1 else 0)
    ensures |ws'| == n
    ensures forall h :: 0 <= h < n ==> ws'[h] == Bucket(sorted[..i + 1], h, n)
    ensures multiset(Launcher.Flatten(ws')) == multiset(sorted[..i + 1])
    ensures forall h :: 0 <= h < n ==> |ws'[h]| == (i + 1) / n + (if h < (i + 1) % n then 1 else 0)
  {
    var g := i % n;
    assert sorted[..i + 1] == sorted[..i] + [sorted[i]];
    Launcher.FlattenUpdate(ws, g, sorted[i]);
    ws' := ws[g := ws[g] + [sorted[i]]];
    BucketsStep(sorted, i, n, ws, ws');
    LengthsStep(i, n, ws, ws');
  }

  lemma BucketsStep(sorted: seq<string>, i: nat, n: nat, ws: seq<seq<string>>, ws': seq<seq<string>>)
    requires i < |sorted| && |ws| == n > 0
    requires forall h :: 0 <= h < n ==> ws[h] == Bucket(sorted[..i], h, n)
    requires ws' == ws[i % n := ws[i % n] + [sorted[i]]]
    ensures forall h :: 0 <= h < n ==> ws'[h] == Bucket(sorted[..i + 1], h, n)
  {
    assert sorted[..i + 1][..i] == sorted[..i];
  }

  lemma LengthsStep(i: nat, n: nat, ws: seq<seq<string>>, ws': seq<seq<string>>)
    requires |ws| == n > 0
    requires forall h :: 0 <= h < n ==> |ws[h]| == i / n + (if h < i % n then 1 else 0)
    requires |ws'| == n && |ws'[i % n]| == |ws[i % n]| + 1
    requires forall h :: 0 <= h < n && h != i % n ==> ws'[h] == ws[h]
    ensures forall h :: 0 <= h < n ==> |ws'[h]| == (i + 1) / n + (if h < (i + 1) % n then 1 else 0)
  {
    DivModNext(i, n);
  }

  /** `create_task_queue`: every file as `(path, i + 1, len(files))`, then one sentinel per worker. */
  method CreateTaskQueue(files: seq<string>, numWorkers: nat) returns (queue: seq<TaskMessage>)
    ensures queue == TaskQueue(files, numWorkers)
  {
    queue := [];
    var i := 0;
    while i < |files|
      invariant 0 <= i <= |files| && queue == TaskQueue(files, 0)[..i]
    {
      queue := queue + [Item(files[i], i + 1, |files|)];
      i := i + 1;
    }
    var k := 0;
    while k < numWorkers
      invariant 0 <= k <= numWorkers && queue == TaskQueue(files, k)
    {
      queue := queue + [Sentinel];
      k := k + 1;
    }
  }

  // -----------------------------------------------------------------------
  // Estimates and statistics
  // -----------------------------------------------------------------------

  function Sizes(files: seq<string>, stat: string -> Option<nat>): (s: seq<nat>)
    ensures |s| == |files| && forall i :: 0 <= i < |files| ==> s[i] == FileSize(stat, files[i])
  {
    seq(|files|, i requires 0 <= i < |files| => FileSize(stat, files[i]))
  }

  function SumNat(s: seq<nat>): nat
  {
    if s == [] then 0 else SumNat(s[..|s| - 1]) + s[|s| - 1]
  }

  function MinNat(s: seq<nat>): (m: nat)
    requires s != []
    ensures m in s && forall i :: 0 <= i < |s| ==> m <= s[i]
  {
    if |s| == 1 then s[0]
    else
      var m := MinNat(s[..|s| - 1]);
      assert m in s[..|s| - 1];
      if s[|s| - 1] < m then s[|s| - 1] else m
  }

  function MaxNat(s: seq<nat>): (m: nat)
    requires s != []
    ensures m in s && forall i :: 0 <= i < |s| ==> s[i] <= m
  {
    if |s| == 1 then s[0]
    else
      var m := MaxNat(s[..|s| - 1]);
      assert m in s[..|s| - 1];
      if s[|s| - 1] > m then s[|s| - 1] else m
  }

  /** The sum lies between |s| times the minimum and |s| times the maximum. */
  lemma {:induction false} SumBetween(s: seq<nat>, lo: nat, hi: nat)
    requires forall i :: 0 <= i < |s| ==> lo <= s[i] <= hi
    ensures |s| * lo <= SumNat(s) <= |s| * hi
  {
    if s != [] {
      var init := s[..|s| - 1];
      SumBetween(init, lo, hi);
      BoundsStep(SumNat(init), s[|init|], |init|, lo, hi);
    }
  }

  lemma BoundsStep(total: nat, x: nat, n: nat, lo: nat, hi: nat)
    requires n * lo <= total <= n * hi && lo <= x <= hi
    ensures (n + 1) * lo <= total + x <= (n + 1) * hi
  {
    assert (n + 1) * lo == n * lo + lo && (n + 1) * hi == n * hi + hi;
  }

  datatype Estimate = Estimate(fileCount: nat, totalSize: nat, avgSize: real, minSize: nat, maxSize: nat)

  /**
   * `estimate_workload`: count, total, mean, smallest and largest size; all
   * zero for no files.
   */
  function EstimateWorkload(files: seq<string>, stat: string -> Option<nat>): (e: Estimate)
    ensures files == [] ==> e == Estimate(0, 0, 0.0, 0, 0)
    ensures e.fileCount == |files| && e.totalSize == SumNat(Sizes(files, stat))
    ensures files != [] ==> e.avgSize == Mean(e.totalSize, e.fileCount)
    ensures files != [] ==>
      && e.minSize as real <= e.avgSize <= e.maxSize as real
      && e.minSize in Sizes(files, stat) && e.maxSize in Sizes(files, stat)
      && forall i :: 0 <= i < |files| ==> e.minSize <= FileSize(stat, files[i]) <= e.maxSize
  {
    if files == [] then Estimate(0, 0, 0.0, 0, 0)
    else
      var sizes := Sizes(files, stat);
      EstimateOf(sizes)
  }

  function EstimateOf(sizes: seq<nat>): (e: Estimate)
    requires sizes != []
    ensures e.fileCount == |sizes| && e.totalSize == SumNat(sizes) && e.avgSize == Mean(e.totalSize, e.fileCount)
    ensures e.minSize as real <= e.avgSize <= e.maxSize as real
    ensures e.minSize in sizes && e.maxSize in sizes
    ensures forall i :: 0 <= i < |sizes| ==> e.minSize <= sizes[i] <= e.maxSize
  {
    var total := SumNat(sizes);
    var lo, hi := MinNat(sizes), MaxNat(sizes);
    MeanBetween(sizes);
    Estimate(|sizes|, total, Mean(total, |sizes|), lo, hi)
  }

  /** `total / n` as a float. */
  function Mean(total: nat, n: nat): real
    requires n > 0
  {
    total as real / n as real
  }

  /** The mean size lies between the smallest and the largest size. */
  lemma {:induction false} MeanBetween(sizes: seq<nat>)
    requires sizes != []
    ensures MinNat(sizes) as real <= Mean(SumNat(sizes), |sizes|) <= MaxNat(sizes) as real
  {
    SumBetween(sizes, MinNat(sizes), MaxNat(sizes));
    AverageBetween(SumNat(sizes), |sizes|, MinNat(sizes), MaxNat(sizes));
  }

  lemma AverageBetween(total: nat, n: nat, lo: nat, hi: nat)
    requires n > 0 && n * lo <= total <= n * hi
    ensures lo as real <= total as real / n as real <= hi as real
  {
    assert (n * lo) as real == n as real * lo as real;
    assert (n * hi) as real == n as real * hi as real;
  }

  /** `validate_input_dir`: `(True, "")` only for an existing directory. */
  function ValidateInputDir(inputDir: string, found: bool, isDir: bool): (r: (bool, string))
    ensures r.0 <==> found && isDir
    ensures r.0 <==> r.1 == ""
    ensures !found ==> r.1 == "Input directory not found: " + inputDir
    ensures found && !isDir ==> r.1 == "Path is not a directory: " + inputDir
  {
    if !found then (false, "Input directory not found: " + inputDir)
    else if !isDir then (false, "Path is not a directory: " + inputDir)
    else (true, "")
  }

  datatype DistributionStats = DistributionStats(
    gpuCount: nat,
    filesPerGpu: seq<nat>,
    bytesPerGpu: seq<nat>,
    avgFilesPerGpu: real,
    avgBytesPerGpu: real)

  function Average(s: seq<nat>): real
  {
    if s == [] then 0.0 else SumNat(s) as real / |s| as real
  }

  /** `get_workload_distribution_stats`: per-GPU file counts and byte totals and their means. */
  method GetWorkloadDistributionStats(workloads: seq<seq<string>>, stat: string -> Option<nat>)
    returns (st: DistributionStats)
    ensures st.gpuCount == |workloads|
    ensures |st.filesPerGpu| == |workloads| && |st.bytesPerGpu| == |workloads|
    ensures forall g :: 0 <= g < |workloads| ==>
      st.filesPerGpu[g] == |workloads[g]|
      && st.bytesPerGpu[g] == SumNat(Sizes(workloads[g], stat))
    ensures SumNat(st.filesPerGpu) == |Launcher.Flatten(workloads)|
    ensures st.avgFilesPerGpu == Average(st.filesPerGpu) && st.avgBytesPerGpu == Average(st.bytesPerGpu)
  {
    var sizes: seq<nat> := [];
    var counts: seq<nat> := [];
    var i := 0;
    while i < |workloads|
      invariant 0 <= i <= |workloads| && |sizes| == i && |counts| == i
      invariant forall g :: 0 <= g < i ==> counts[g] == |workloads[g]| && sizes[g] == SumNat(Sizes(workloads[g], stat))
      invariant SumNat(counts) == |Launcher.Flatten(workloads[..i])|
    {
      FlattenPrefix(workloads, i);
      assert (counts + [|workloads[i]|])[..i] == counts;
      sizes := sizes + [SumNat(Sizes(workloads[i], stat))];
      counts := counts + [|workloads[i]|];
      i := i + 1;
    }
    assert workloads[..i] == workloads;
    st := DistributionStats(|workloads|, counts, sizes, Average(counts), Average(sizes));
  }

  lemma {:induction false} FlattenPrefix(ws: seq<seq<string>>, i: nat)
    requires i < |ws|
    ensures |Launcher.Flatten(ws[..i + 1])| == |Launcher.Flatten(ws[..i])| + |ws[i]|
  {
    if i == 0 {
      assert ws[..1][1..] == [];
    } else {
      assert ws[..i + 1][1..] == ws[1..][..i];
      assert ws[..i][1..] == ws[1..][..i - 1];
      FlattenPrefix(ws[1..], i - 1);
    }
  }
}
