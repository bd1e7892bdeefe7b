/**
 * pipeline/gpu_utils.py: device selection, the model-size suggestion by free
 * VRAM, and the VRAM sufficiency check. What torch reports (CUDA availability,
 * device count, free VRAM) is an input.
 */
module GpuUtils {
  import opened Base

  /** The part of `get_gpu_info()` the decisions read. */
  datatype GpuInfo = GpuInfo(cudaAvailable: bool, deviceCount: nat)

  /**
   * `select_device`: "cpu" without probing; "cuda" only when CUDA is
   * available; "auto" picks CUDA iff it is available with at least one device.
   * Any other preference is a `ValueError`.
   */
  function SelectDevice(device: string, info: GpuInfo): (r: Result<string>)
    ensures device != "auto" && device != "cuda" && device != "cpu" <==> r.Err? && r.error.ValueError?
    ensures device == "cpu" ==> r == Ok("cpu")
    ensures device == "cuda" ==> (r == Ok("cuda") <==> info.cudaAvailable)
    ensures device == "cuda" && !info.cudaAvailable ==> r.Err? && r.error.RuntimeError?
    ensures device == "auto" ==> r.Ok? && (r.value == "cuda" <==> info.cudaAvailable && info.deviceCount > 0)
    ensures r.Ok? ==> r.value == "cuda" || r.value == "cpu"
  {
    if device != "auto" && device != "cuda" && device != "cpu" then
      Err(ValueError("Invalid device: " + device + ". Must be 'auto', 'cuda', or 'cpu'"))
    else if device == "cpu" then Ok("cpu")
    else if device == "cuda" then
      if !info.cudaAvailable then Err(RuntimeError("CUDA not available. Run 'python scripts/check_gpu.py' to diagnose."))
      else Ok("cuda")
    else if info.cudaAvailable && info.deviceCount > 0 then Ok("cuda")
    else Ok("cpu")
  }

  /** Whatever "auto" chooses, the explicit request for that device succeeds on the same machine. */
  lemma AutoChoiceIsHonoured(info: GpuInfo)
    ensures SelectDevice(SelectDevice("auto", info).value, info) == SelectDevice("auto", info)
  {
  }

  /** The CPU never fails and never depends on the GPU probe. */
  lemma CpuIgnoresProbe(a: GpuInfo, b: GpuInfo)
    ensures SelectDevice("cpu", a) == SelectDevice("cpu", b) == Ok("cpu")
  {
  }

  /** Model sizes from smallest to largest. */
  const Models: seq<string> := ["tiny", "base", "small", "medium", "large-v3"]

  /** The least VRAM (GB) at which each entry of `Models` is suggested. */
  const Thresholds: seq<real> := [0.0, 1.0, 2.0, 5.0, 10.0]

  /**
   * `suggest_model_for_vram`: the largest model whose threshold (1, 2, 5, 10 GB
   * for base, small, medium, large-v3) the VRAM reaches, "tiny" below 1 GB.
   */
  function SuggestModel(vram: real): (r: string)
    ensures r in Models
  {
    if vram >= 10.0 then "large-v3"
    else if vram >= 5.0 then "medium"
    else if vram >= 2.0 then "small"
    else if vram >= 1.0 then "base"
    else "tiny"
  }

  /** How many of the positive thresholds `Thresholds[1..n]` the VRAM reaches. */
  function Reached(vram: real, n: nat): (k: nat)
    requires n <= |Thresholds|
    ensures k < |Models| && (n > 0 ==> k < n)
  {
    if n <= 1 then 0
    else Reached(vram, n - 1) + (if vram >= Thresholds[n - 1] then 1 else 0)
  }

  /** Index into `Models` of the suggestion for `vram`. */
  function Rank(vram: real): (k: nat)
    ensures k < |Models|
  {
    Reached(vram, |Thresholds|)
  }

  /** Because the thresholds increase, the reached ones are a prefix: `vram` lies between the threshold of its rank and the next one. */
  lemma RankBracket(vram: real)
    ensures Rank(vram) > 0 ==> vram >= Thresholds[Rank(vram)]
    ensures Rank(vram) + 1 < |Models| ==> vram < Thresholds[Rank(vram) + 1]
  {
    assert Reached(vram, 2) == (if vram >= 1.0 then 1 else 0);
    assert Reached(vram, 3) == Reached(vram, 2) + (if vram >= 2.0 then 1 else 0);
    assert Reached(vram, 4) == Reached(vram, 3) + (if vram >= 5.0 then 1 else 0);
  }

  /** The ladder in `suggest_model_for_vram` picks the model of the reached-threshold count. */
  lemma SuggestMatchesRank(vram: real)
    ensures SuggestModel(vram) == Models[Rank(vram)]
  {
    RankBracket(vram);
  }

  /** More VRAM never yields a smaller suggestion. */
  lemma SuggestMonotone(a: real, b: real)
    requires a <= b
    ensures Rank(a) <= Rank(b)
  {
    RankBracket(a);
    RankBracket(b);
  }

  /** The suggestion is the largest model whose threshold is reached. */
  lemma SuggestIsLargestFitting(vram: real, k: nat)
    requires 0 < k < |Models| && vram >= Thresholds[k]
    ensures k <= Rank(vram)
  {
    RankBracket(vram);
  }

  /** `check_vram_sufficient`: false when the free VRAM is unknown, else whether it covers the requirement. */
  function CheckVramSufficient(required: real, available: Option<real>): (r: bool)
    ensures available.None? ==> !r
    ensures available.Some? ==> (r <==> available.value >= required)
  {
    match available
    case None => false
    case Some(v) => v >= required
  }

  /** Sufficiency is downward closed in the requirement. */
  lemma SufficientForLess(required: real, less: real, available: Option<real>)
    requires less <= required && CheckVramSufficient(required, available)
    ensures CheckVramSufficient(less, available)
  {
  }
}
