/**
 * `GPUDetector`: the device list, detected once and cached, the check of a
 * requested id list against it, and the parsing of a `--gpus` value. What
 * `torch` would report is the `Cuda` argument of each call; once cached,
 * the list no longer follows it.
 */
module GpuDetector {
  import opened Base
  import opened Strings
  import opened IntLists
  import opened Messages

  /** Index of the first requested id that is not available, if any. */
  function FirstMissing(requested: seq<int>, available: seq<int>): (i: Option<nat>)
    ensures i.None? <==> forall k :: 0 <= k < |requested| ==> requested[k] in available
    ensures i.Some? ==> i.value < |requested| && requested[i.value] !in available
    ensures i.Some? ==> forall k :: 0 <= k < i.value ==> requested[k] in available
  {
    if requested == [] then None
    else if requested[0] !in available then Some(0)
    else
      var rest := FirstMissing(requested[1..], available);
      assert forall k :: 1 <= k < |requested| ==> requested[1..][k - 1] == requested[k];
      if rest.None? then None else Some(rest.value + 1)
  }

  function NotAvailableMessage(id: int, available: seq<int>): string
  {
    "GPU " + IntToString(id) + " not available. Available GPUs: " + ReprInts(available)
  }

  const InvalidListHint := ". Use comma-separated integers (e.g., '0,1,2') or 'auto'"

  /** `[g.strip() for g in spec.split(",")]`. */
  function Pieces(spec: string): (ps: seq<string>)
    ensures |ps| == |Split(spec, ",")|
    ensures forall i :: 0 <= i < |ps| ==> ps[i] == Strip(Split(spec, ",")[i])
  {
    var parts := Split(spec, ",");
    seq(|parts|, i requires 0 <= i < |parts| => Strip(parts[i]))
  }

  /** `[int(g.strip()) for g in spec.split(",")]`, or the `ValueError` it turns into. */
  function ParseList(spec: string): (r: Result<seq<int>>)
    ensures r.Ok? <==> forall i :: 0 <= i < |Pieces(spec)| ==> ParseInt(Pieces(spec)[i]).Some?
    ensures r.Ok? ==> (
      && |r.value| == |Pieces(spec)|
      && forall i :: 0 <= i < |r.value| ==> ParseInt(Pieces(spec)[i]) == Some(r.value[i]))
    ensures r.Err? ==> r.error == ValueError("Invalid GPU list: " + spec + InvalidListHint)
  {
    var ids := ParseInts(Pieces(spec));
    if ids.Some? then Ok(ids.value) else Err(ValueError("Invalid GPU list: " + spec + InvalidListHint))
  }

  /** The text `",".join(str(i) for i in ids)`. */
  function IdList(ids: seq<int>): string
  {
    Join(",", seq(|ids|, i requires 0 <= i < |ids| => IntToString(ids[i])))
  }

  /** A comma-separated list of ids, as `str` prints them, parses back to the ids. */
  lemma {:induction false} ParseListOfJoin(ids: seq<int>)
    requires ids != []
    ensures ParseList(IdList(ids)) == Ok(ids)
  {
    var texts := seq(|ids|, i requires 0 <= i < |ids| => IntToString(ids[i]));
    forall i | 0 <= i < |ids|
      ensures ',' !in texts[i] && Strip(texts[i]) == texts[i] && ParseInt(texts[i]) == Some(ids[i])
    {
      IntTextShape(ids[i]);
      ParseIntOfIntToString(ids[i]);
    }
    SplitJoin(texts, ',');
    var spec := Join(",", texts);
    assert Split(spec, ",") == texts;
    assert Pieces(spec) == texts;
    var r := ParseList(spec);
    assert r.Ok?;
    assert r.value == ids;
  }

  /** Such a list is never mistaken for `auto`. */
  lemma IdListIsNotAuto(ids: seq<int>)
    requires ids != []
    ensures Lower(IdList(ids)) != "auto"
  {
    var texts := seq(|ids|, i requires 0 <= i < |ids| => IntToString(ids[i]));
    var first := IntToString(ids[0]);
    IntTextChars(ids[0]);
    assert texts[0] == first && |first| >= 1;
    assert IsDigit(first[0]) || first[0] == '-';
    JoinStartsWithFirst(texts);
    var x := IdList(ids);
    assert x[0] == first[0];
    assert Lower(x)[0] == LowerChar(x[0]) == x[0];
    assert "auto"[0] == 'a';
  }

  /** `str(n)` is a sign and digits: no comma, no blank at its edges. */
  lemma IntTextShape(n: int)
    ensures ',' !in IntToString(n)
    ensures Strip(IntToString(n)) == IntToString(n)
  {
    var s := IntToString(n);
    IntTextChars(n);
    assert !IsSpace(s[0]) && !IsSpace(s[|s| - 1]);
    StripNoEdgeSpace(s);
  }

  lemma IntTextChars(n: int)
    ensures |IntToString(n)| >= 1
    ensures forall k :: 0 <= k < |IntToString(n)| ==> IsDigit(IntToString(n)[k]) || IntToString(n)[k] == '-'
  {
    var s := IntToString(n);
    var d := NatToString(if n < 0 then -n else n);
    assert AllDigits(d) && |d| >= 1;
    if n < 0 {
      assert s == "-" + d;
    } else {
      assert s == d;
    }
  }

  lemma {:induction false} JoinStartsWithFirst(parts: seq<string>)
    requires |parts| >= 1 && |parts[0]| >= 1
    ensures |Join(",", parts)| >= 1 && Join(",", parts)[0] == parts[0][0]
  {
    if |parts| > 1 {
      assert Join(",", parts) == parts[0] + "," + Join(",", parts[1..]);
    }
  }

  class GPUDetector {
    /** `_cached_gpus`: `None` until the first detection. */
    var cachedGpus: Option<seq<int>>

    constructor ()
      ensures cachedGpus == None
    {
      cachedGpus := None;
    }

    /** The first call detects `[0, count)` (or none) and caches it; later calls return the cache. */
    method GetAvailableGpus(cuda: Cuda) returns (gpus: seq<int>)
      modifies this
      ensures old(cachedGpus).Some? ==> gpus == old(cachedGpus).value
      ensures old(cachedGpus).None? ==> gpus == AvailableGpus(cuda)
      ensures cachedGpus == Some(gpus)
    {
      if cachedGpus.Some? {
        return cachedGpus.value;
      }
      cachedGpus := Some(AvailableGpus(cuda));
      gpus := cachedGpus.value;
    }

    /** `validate_gpus`: an empty request fails before any detection. */
    method ValidateGpus(requested: seq<int>, cuda: Cuda) returns (ok: bool, message: string)
      modifies this
      ensures requested == [] ==> !ok && message == "No GPUs specified" && cachedGpus == old(cachedGpus)
      ensures requested != [] ==>
        && cachedGpus.Some?
        && (old(cachedGpus).Some? ==> cachedGpus == old(cachedGpus))
        && (old(cachedGpus).None? ==> cachedGpus == Some(AvailableGpus(cuda)))
      ensures requested != [] ==> (ok <==> cachedGpus.value != [] && forall k :: 0 <= k < |requested| ==> requested[k] in cachedGpus.value)
      ensures requested != [] ==> (ok, message) == CheckRequested(requested, cachedGpus.value)
    {
      if requested == [] {
        return false, "No GPUs specified";
      }
      var available := GetAvailableGpus(cuda);
      ok, message := CheckAvailable(requested, available);
    }

    /** `get_gpu_count`: the length of the (cached) device list. */
    method GetGpuCount(cuda: Cuda) returns (count: nat)
      modifies this
      ensures cachedGpus.Some? && count == |cachedGpus.value|
      ensures old(cachedGpus).Some? ==> cachedGpus == old(cachedGpus)
      ensures old(cachedGpus).None? ==> count == |AvailableGpus(cuda)|
    {
      var gpus := GetAvailableGpus(cuda);
      count := |gpus|;
    }

    /** `parse_gpu_list`: `auto` (any case) is the detected list, anything else a comma list. */
    method ParseGpuList(spec: string, cuda: Cuda) returns (r: Result<seq<int>>)
      modifies this
      ensures Lower(spec) == "auto" ==>
        && cachedGpus.Some?
        && (old(cachedGpus).Some? ==> cachedGpus == old(cachedGpus))
        && (old(cachedGpus).None? ==> cachedGpus == Some(AvailableGpus(cuda)))
        && r == (if cachedGpus.value == [] then Err(ValueError("No GPUs detected for auto-detection"))
                 else Ok(cachedGpus.value))
      ensures Lower(spec) != "auto" ==> cachedGpus == old(cachedGpus) && r == ParseList(spec)
    {
      if Lower(spec) == "auto" {
        var gpus := GetAvailableGpus(cuda);
        if gpus == [] {
          return Err(ValueError("No GPUs detected for auto-detection"));
        }
        return Ok(gpus);
      }
      r := ParseList(spec);
    }
  }

  /** The outcome of `validate_gpus` once a non-empty request meets the device list. */
  function CheckRequested(requested: seq<int>, available: seq<int>): (bool, string)
  {
    if available == [] then (false, "No GPUs detected. Make sure CUDA is available.")
    else
      match FirstMissing(requested, available)
      case None => (true, "")
      case Some(i) => (false, NotAvailableMessage(requested[i], available))
  }

  /** The scan of `validate_gpus`: stops at the first requested id not in the list. */
  method CheckAvailable(requested: seq<int>, available: seq<int>) returns (ok: bool, message: string)
    ensures (ok, message) == CheckRequested(requested, available)
    ensures ok <==> available != [] && forall k :: 0 <= k < |requested| ==> requested[k] in available
    ensures ok <==> message == ""
  {
    if available == [] {
      return false, "No GPUs detected. Make sure CUDA is available.";
    }
    var i := 0;
    while i < |requested|
      invariant 0 <= i <= |requested|
      invariant forall k :: 0 <= k < i ==> requested[k] in available
    {
      if requested[i] !in available {
        assert FirstMissing(requested, available) == Some(i);
        return false, NotAvailableMessage(requested[i], available);
      }
      i := i + 1;
    }
    return true, "";
  }
}
