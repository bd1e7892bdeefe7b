/**
 * pipeline/diarization_base.py: the helpers `DiarizationBase` gives every
 * diarizer: the audio-file check, the output-path rule, the text rendering
 * of `save_text_output`, and the timing fields `diarize_with_timing` adds.
 */
module DiarizationBase {
  import opened Base
  import opened Strings
  import opened Decimal
  import opened Segments
  import Paths

  /** `validate_audio_file`: the path back, or `FileNotFoundError` when it does not exist. */
  function ValidateAudioFile(audioPath: string, existing: set<string>): (r: Result<string>)
    ensures audioPath in existing <==> r == Ok(audioPath)
    ensures audioPath !in existing ==> r == Err(FileNotFoundError("Audio file not found: " + audioPath))
  {
    if audioPath in existing then Ok(audioPath) else Err(FileNotFoundError("Audio file not found: " + audioPath))
  }

  /** `resolve_output_path`: the explicit output when given, else `parent / (stem + suffix + extension)`. */
  function ResolveOutputPath(audioPath: string, outputArg: Option<string>, suffix: string, extension: string): (r: string)
    ensures outputArg.Some? && outputArg.value != "" ==> r == outputArg.value
  {
    if outputArg.Some? && outputArg.value != "" then outputArg.value
    else Paths.JoinPath(Paths.Parent(audioPath), Paths.Stem(audioPath) + suffix + extension)
  }

  /** Without an explicit output, the file is named after the input's stem, beside it. */
  lemma DefaultOutputName(audioPath: string, outputArg: Option<string>, suffix: string, extension: string)
    requires outputArg.None? || outputArg.value == ""
    requires '/' !in suffix && '/' !in extension
    ensures Paths.Name(ResolveOutputPath(audioPath, outputArg, suffix, extension)) == Paths.Stem(audioPath) + suffix + extension
  {
    var stem := Paths.Stem(audioPath);
    Paths.StemAndSuffix(audioPath);
    assert '/' !in stem by {
      forall k | 0 <= k < |stem| ensures stem[k] != '/' {
        assert stem[k] == Paths.Name(audioPath)[k];
      }
    }
    Paths.NameOfJoin(Paths.Parent(audioPath), stem + suffix + extension);
  }

  // ---------------------------------------------------------------------
  // save_text_output
  // ---------------------------------------------------------------------

  /** `[speaker] text` for a segment with text, `[speaker] s.ssS - e.eeS` otherwise; the speaker defaults to "UNKNOWN". */
  function TextLine(seg: RawSegment): string
  {
    "[" + seg.speaker.GetOr("UNKNOWN") + "] " + LineBody(seg)
  }

  /** What follows the bracketed speaker: the text, or the times when the text is empty. */
  function LineBody(seg: RawSegment): string
  {
    var text := seg.text.GetOr("");
    if text != "" then text
    else FormatFixed(seg.start.GetOr(0.0), 2) + "s - " + FormatFixed(seg.end.GetOr(0.0), 2) + "s"
  }

  function TextLines(segs: seq<RawSegment>): (ls: seq<string>)
    ensures |ls| == |segs| && forall i :: 0 <= i < |segs| ==> ls[i] == TextLine(segs[i])
  {
    seq(|segs|, i requires 0 <= i < |segs| => TextLine(segs[i]))
  }

  /** `save_text_output`: the file content, one line per segment, written in order. */
  method SaveTextOutput(segs: seq<RawSegment>) returns (content: string)
    ensures content == Lines(TextLines(segs))
  {
    content := "";
    var i := 0;
    while i < |segs|
      invariant 0 <= i <= |segs|
      invariant content == Lines(TextLines(segs[..i]))
    {
      var line := TextLine(segs[i]);
      assert TextLines(segs[..i + 1]) == TextLines(segs[..i]) + [line];
      LinesAppend(TextLines(segs[..i]), [line]);
      content := content + line + "\n";
      i := i + 1;
    }
    assert segs[..i] == segs;
  }

  /** Every line starts with the bracketed speaker, "UNKNOWN" when the segment has none. */
  lemma TextLineSpeaker(seg: RawSegment)
    ensures StartsWith(TextLine(seg), "[" + seg.speaker.GetOr("UNKNOWN") + "] ")
  {
    PrefixOfConcat("[" + seg.speaker.GetOr("UNKNOWN") + "] ", LineBody(seg));
  }

  lemma PrefixOfConcat(p: string, rest: string)
    ensures StartsWith(p + rest, p)
  {
    assert (p + rest)[..|p|] == p;
  }

  /** `f"{x:.2f}"` is a sign, digits and a point: no newline. */
  lemma FixedHasNoNewline(x: real)
    ensures '\n' !in FormatFixed(x, 2)
  {
    var m := RoundHalfEven(Scale(if x < 0.0 then -x else x, Pow10(2)));
    var frac: nat := m % Pow10(2);
    PaddedNatValue(frac, 2);
    assert FormatFixed(x, 2) == (if x < 0.0 then "-" else "") + (NatToString(m / Pow10(2)) + "." + FormatInt(frac, 2));
  }

  /** With newline-free speakers and texts, the written file splits back into one line per segment. */
  lemma TextOutputReadsBack(segs: seq<RawSegment>)
    requires forall i :: 0 <= i < |segs| ==> '\n' !in segs[i].speaker.GetOr("UNKNOWN") && '\n' !in segs[i].text.GetOr("")
    ensures Split(Lines(TextLines(segs)), "\n") == TextLines(segs) + [""]
  {
    var ls := TextLines(segs);
    forall i | 0 <= i < |ls|
      ensures '\n' !in ls[i]
    {
      FixedHasNoNewline(segs[i].start.GetOr(0.0));
      FixedHasNoNewline(segs[i].end.GetOr(0.0));
    }
    SplitLines(ls);
  }

  // ---------------------------------------------------------------------
  // diarize_with_timing
  // ---------------------------------------------------------------------

  /** What the source assumes of an implementation's result: numeric `duration` and `processing_time` when present. */
  predicate NumericTimes(result: map<string, Json>) {
    && ("processing_time" in result ==> IsNumeric(result["processing_time"]))
    && ("duration" in result ==> IsNumeric(result["duration"]))
  }

  /**
   * `diarize_with_timing`: keep an existing `processing_time`, else record the
   * measured one; then set `rtf = processing_time / duration` only when a
   * positive `duration` is present. No other key changes.
   */
  method DiarizeWithTiming(result: map<string, Json>, measured: real) returns (r: map<string, Json>)
    requires NumericTimes(result)
    ensures r.Keys - {"processing_time", "rtf"} == result.Keys - {"processing_time", "rtf"}
    ensures forall k :: k in result && k != "processing_time" && k != "rtf" ==> k in r && r[k] == result[k]
    ensures "processing_time" in r
    ensures "processing_time" in result ==> r["processing_time"] == result["processing_time"]
    ensures "processing_time" !in result ==> r["processing_time"] == JNum(measured)
    ensures "duration" in result && NumValue(result["duration"]) > 0.0 ==>
      "rtf" in r && r["rtf"] == JNum(NumValue(r["processing_time"]) / NumValue(result["duration"]))
    ensures !("duration" in result && NumValue(result["duration"]) > 0.0) ==>
      ("rtf" in r <==> "rtf" in result) && ("rtf" in result ==> "rtf" in r && r["rtf"] == result["rtf"])
  {
    r := result;
    if "processing_time" !in r {
      r := r["processing_time" := JNum(measured)];
    }
    if "duration" in r {
      var duration := NumValue(r["duration"]);
      if duration > 0.0 {
        r := r["rtf" := JNum(NumValue(r["processing_time"]) / duration)];
      }
    }
  }
}
