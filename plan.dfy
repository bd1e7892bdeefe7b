/**
 * pipeline/plan_from_transcript.py: the checks and conversions around the
 * language-model call of `PlanGenerator`: the model-type choice, the shapes
 * `load_segments` accepts, the transcript text `segments_to_text` writes,
 * and the defaulting of the required plan keys in `extract_plan_data`.
 * The model call and the JSON parsing of its answer are not modelled.
 */
module Plan {
  import opened Base
  import opened Strings
  import opened Segments
  import opened PyNum

  // ---------------------------------------------------------------------
  // PlanGenerator.__init__
  // ---------------------------------------------------------------------

  /** What `__init__` keeps: the lower-cased model type and the model it names. */
  datatype Generator = Generator(modelType: string, model: string)

  /**
   * `PlanGenerator.__init__`: the model type is lower-cased; "claude" and
   * "gpt" need their client package (`ImportError` otherwise); any other type
   * is a `ValueError` that quotes the type as given.
   */
  function NewPlanGenerator(modelType: string, anthropicAvailable: bool, openaiAvailable: bool): (r: Result<Generator>)
    ensures r.Ok? ==> r.value.modelType == Lower(modelType)
    ensures r.Ok? ==> r.value.modelType == "claude" || r.value.modelType == "gpt"
    ensures Lower(modelType) == "claude" ==> (r.Ok? <==> anthropicAvailable) && (r.Ok? ==> r.value.model == "claude-3-5-sonnet-20241022")
    ensures Lower(modelType) == "gpt" ==> (r.Ok? <==> openaiAvailable) && (r.Ok? ==> r.value.model == "gpt-4o")
    ensures (Lower(modelType) == "claude" || Lower(modelType) == "gpt") && r.Err? ==> r.error.ImportError?
    ensures Lower(modelType) != "claude" && Lower(modelType) != "gpt" ==>
      r == Err(ValueError("Unsupported model_type: " + modelType + ". Use 'claude' or 'gpt'."))
  {
    var t := Lower(modelType);
    if t == "claude" then
      if !anthropicAvailable then Err(ImportError("anthropic package not installed. Run: pip install anthropic"))
      else Ok(Generator(t, "claude-3-5-sonnet-20241022"))
    else if t == "gpt" then
      if !openaiAvailable then Err(ImportError("openai package not installed. Run: pip install openai"))
      else Ok(Generator(t, "gpt-4o"))
    else Err(ValueError("Unsupported model_type: " + modelType + ". Use 'claude' or 'gpt'."))
  }

  /** Only the letters' case-insensitive spelling matters for a successful construction. */
  lemma ModelTypeIgnoresCase(a: string, b: string, anthropicAvailable: bool, openaiAvailable: bool)
    requires Lower(a) == Lower(b)
    ensures NewPlanGenerator(a, anthropicAvailable, openaiAvailable).Ok? == NewPlanGenerator(b, anthropicAvailable, openaiAvailable).Ok?
    ensures NewPlanGenerator(a, anthropicAvailable, openaiAvailable).Ok? ==>
      NewPlanGenerator(a, anthropicAvailable, openaiAvailable) == NewPlanGenerator(b, anthropicAvailable, openaiAvailable)
  {
  }

  /** "Claude" is accepted as "claude". */
  lemma CapitalisedClaude(openaiAvailable: bool)
    ensures NewPlanGenerator("Claude", true, openaiAvailable) == Ok(Generator("claude", "claude-3-5-sonnet-20241022"))
  {
    assert Lower("Claude") == "claude" by {
      assert LowerChar('C') == 'c';
    }
  }

  // ---------------------------------------------------------------------
  // load_segments
  // ---------------------------------------------------------------------

  /** The `ValueError` text for a document of another shape. */
  const InvalidFormat := "Invalid segments format. Expected list or dict with 'segments' key."

  /** `load_segments` on the parsed document: a list as it is, a dictionary's "segments" value, else `ValueError`. */
  function LoadSegments(data: Json): (r: Result<Json>)
    ensures r.Ok? <==> data.JList? || (data.JObj? && "segments" in data.fields)
    ensures data.JList? ==> r == Ok(data)
    ensures data.JObj? && "segments" in data.fields ==> r == Ok(data.fields["segments"])
    ensures r.Err? ==> r == Err(ValueError(InvalidFormat))
  {
    match data
    case JList(_) => Ok(data)
    case JObj(fields) => if "segments" in fields then Ok(fields["segments"]) else Err(ValueError(InvalidFormat))
    case _ => Err(ValueError(InvalidFormat))
  }

  /** A bare list and the same list wrapped as `{"segments": [...]}` (with any other keys) load alike. */
  lemma WrappedListLoadsAlike(items: seq<Json>, others: map<string, Json>)
    ensures LoadSegments(JObj(others["segments" := JList(items)])) == LoadSegments(JList(items))
  {
  }

  // ---------------------------------------------------------------------
  // segments_to_text
  // ---------------------------------------------------------------------

  /** `[MM:SS]` with `MM = int(t // 60)` and `SS = int(t % 60)`, each `:02d`. */
  function Timestamp(t: real): string
  {
    "[" + FormatInt(FloorDiv(t, 60.0), 2) + ":" + FormatInt(PyMod(t, 60.0).Floor, 2) + "]"
  }

  /** One transcript line: start defaults to 0, speaker to "Unknown", text to "" and is stripped. */
  function TranscriptLine(seg: RawSegment): string
  {
    Timestamp(seg.start.GetOr(0.0)) + " " + seg.speaker.GetOr("Unknown") + ": " + Strip(seg.text.GetOr(""))
  }

  /** `line` applied to each segment, in order. */
  function MapLines(segs: seq<RawSegment>, line: RawSegment -> string): (ls: seq<string>)
    ensures |ls| == |segs| && forall i :: 0 <= i < |segs| ==> ls[i] == line(segs[i])
  {
    seq(|segs|, i requires 0 <= i < |segs| => line(segs[i]))
  }

  lemma MapLinesSnoc(segs: seq<RawSegment>, i: nat, line: RawSegment -> string)
    requires i < |segs|
    ensures MapLines(segs[..i + 1], line) == MapLines(segs[..i], line) + [line(segs[i])]
  {
    var a := MapLines(segs[..i + 1], line);
    var b := MapLines(segs[..i], line) + [line(segs[i])];
    assert |a| == |b|;
    assert forall k :: 0 <= k < |a| ==> a[k] == b[k];
  }

  /** The transcript's lines, one per segment. */
  function TranscriptLines(segs: seq<RawSegment>): seq<string>
  {
    MapLines(segs, TranscriptLine)
  }

  /** `segments_to_text`: the lines built one per segment, then joined by newlines. */
  method SegmentsToText(segs: seq<RawSegment>) returns (text: string)
    ensures text == Join("\n", TranscriptLines(segs))
  {
    var lines: seq<string> := [];
    var i := 0;
    while i < |segs|
      invariant 0 <= i <= |segs|
      invariant lines == MapLines(segs[..i], TranscriptLine)
    {
      MapLinesSnoc(segs, i, TranscriptLine);
      lines := lines + [TranscriptLine(segs[i])];
      i := i + 1;
    }
    assert segs[..i] == segs;
    text := Join("\n", lines);
  }

  /** The stamp's fields are the whole minutes and the whole seconds past them: `60*MM + SS <= t < 60*MM + SS + 1`. */
  lemma TimestampFields(t: real)
    ensures var m := FloorDiv(t, 60.0);
      var s := PyMod(t, 60.0).Floor;
      0 <= s < 60 && (60 * m + s) as real <= t < (60 * m + s + 1) as real
  {
    var m := FloorDiv(t, 60.0);
    assert PyMod(t, 60.0) == t - 60.0 * m as real;
  }

  /** Stripping keeps a newline-free text newline-free. */
  lemma StripNoNewline(s: string)
    requires '\n' !in s
    ensures '\n' !in Strip(s)
  {
    StripSpec(s);
    var r := Strip(s);
    var i := StripStart(s);
    forall k | 0 <= k < |r| ensures r[k] != '\n' {
      assert r[k] == s[i + k];
    }
  }

  /** With newline-free speakers and texts, the transcript splits back into one line per segment. */
  lemma TranscriptSplitsBack(segs: seq<RawSegment>)
    requires segs != []
    requires forall i :: 0 <= i < |segs| ==> '\n' !in segs[i].speaker.GetOr("Unknown") && '\n' !in segs[i].text.GetOr("")
    ensures Split(Join("\n", TranscriptLines(segs)), "\n") == TranscriptLines(segs)
  {
    var ls := TranscriptLines(segs);
    forall i | 0 <= i < |ls|
      ensures '\n' !in ls[i]
    {
      TranscriptLineNoNewline(segs[i]);
    }
    SplitJoin(ls, '\n');
  }

  lemma TranscriptLineNoNewline(seg: RawSegment)
    requires '\n' !in seg.speaker.GetOr("Unknown") && '\n' !in seg.text.GetOr("")
    ensures '\n' !in TranscriptLine(seg)
  {
    var t := seg.start.GetOr(0.0);
    FormatIntNoNewline(FloorDiv(t, 60.0), 2);
    FormatIntNoNewline(PyMod(t, 60.0).Floor, 2);
    StripNoNewline(seg.text.GetOr(""));
  }

  // ---------------------------------------------------------------------
  // extract_plan_data: required keys
  // ---------------------------------------------------------------------

  const RequiredKeys: seq<string> := ["problem", "users", "goals", "acceptance_criteria", "risks", "notes"]

  const RequiredKeySet: set<string> := set j | j in RequiredKeys

  /** The value written for a required key the model left out. */
  const NotSpecified := "Not specified in transcript."

  /** The plan data with every missing key of `keys` filled in. */
  function FillKeys(planData: map<string, Json>, keys: seq<string>): map<string, Json>
  {
    map k | k in planData.Keys + (set j | j in keys) :: if k in planData then planData[k] else JStr(NotSpecified)
  }

  /** The plan data with every missing required key filled in. */
  function WithRequiredKeys(planData: map<string, Json>): map<string, Json>
  {
    FillKeys(planData, RequiredKeys)
  }

  /** Filling one more key writes the default only when that key is still missing. */
  lemma FillKeysSnoc(planData: map<string, Json>, keys: seq<string>, key: string)
    ensures var r := FillKeys(planData, keys);
      FillKeys(planData, keys + [key]) == if key !in r then r[key := JStr(NotSpecified)] else r
  {
    var r := FillKeys(planData, keys);
    var r' := FillKeys(planData, keys + [key]);
    assert (set j | j in keys + [key]) == (set j | j in keys) + {key};
    if key in r {
      assert r'.Keys == r.Keys;
    } else {
      assert r'.Keys == r.Keys + {key};
    }
  }

  /** The defaulting loop of `extract_plan_data`, writing missing keys one by one. */
  method FillRequiredKeys(planData: map<string, Json>) returns (r: map<string, Json>)
    ensures r == WithRequiredKeys(planData)
  {
    r := planData;
    assert r == FillKeys(planData, []);
    for i := 0 to |RequiredKeys|
      invariant r == FillKeys(planData, RequiredKeys[..i])
    {
      var key := RequiredKeys[i];
      FillKeysSnoc(planData, RequiredKeys[..i], key);
      if key !in r {
        r := r[key := JStr(NotSpecified)];
      }
      assert RequiredKeys[..i + 1] == RequiredKeys[..i] + [key];
    }
    assert RequiredKeys[..|RequiredKeys|] == RequiredKeys;
  }

  /** Every required key is present afterwards; keys the model gave keep their values; nothing else is added. */
  lemma RequiredKeysPresent(planData: map<string, Json>)
    ensures var r := WithRequiredKeys(planData);
      && (forall k :: k in RequiredKeys ==> k in r)
      && (forall k :: k in planData ==> k in r && r[k] == planData[k])
      && (forall k :: k in r && k !in planData ==> k in RequiredKeys && r[k] == JStr(NotSpecified))
  {
  }

  /** Filling is idempotent: complete plan data is left as it is. */
  lemma FillIdempotent(planData: map<string, Json>)
    ensures WithRequiredKeys(WithRequiredKeys(planData)) == WithRequiredKeys(planData)
  {
    var once := WithRequiredKeys(planData);
    assert once.Keys + RequiredKeySet == once.Keys;
  }
}
