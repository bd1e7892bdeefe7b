/**
 * pipeline/diarization/base.py: the `DiarizationResult` record with its
 * defaults, the existence check `BaseDiarizer.diarize` makes before handing
 * the file to an implementation, and `_format_segments`, which normalises raw
 * segment dictionaries to exactly start, end, speaker and text.
 */
module DiarizerBase {
  import opened Base
  import opened Strings
  import opened Segments

  /**
   * `DiarizationResult`; `S` is the segment type and `M` the metadata record
   * the implementation produces.
   */
  datatype DiarizationResult<S, M> = DiarizationResult(
    segments: seq<S>,
    audioPath: string,
    numSpeakers: Option<nat>,
    processingTime: real,
    metadata: Option<M>)

  /** `DiarizationResult(segments, audio_path)` with every other field at its default. */
  function NewResult<S, M>(segments: seq<S>, audioPath: string): (r: DiarizationResult<S, M>)
    ensures r.segments == segments && r.audioPath == audioPath
    ensures r.numSpeakers.None? && r.processingTime == 0.0 && r.metadata.None?
  {
    DiarizationResult(segments, audioPath, None, 0.0, None)
  }

  /**
   * `BaseDiarizer.diarize`: a path that does not exist raises
   * `FileNotFoundError` before the implementation runs; otherwise the
   * implementation's result is returned as it is.
   */
  function Diarize<S, M>(audioPath: string, existing: set<string>, implementation: string -> DiarizationResult<S, M>): (r: Result<DiarizationResult<S, M>>)
    ensures audioPath !in existing ==> r == Err(FileNotFoundError("Audio file not found: " + audioPath))
    ensures audioPath in existing ==> r == Ok(implementation(audioPath))
  {
    if audioPath !in existing then Err(FileNotFoundError("Audio file not found: " + audioPath))
    else Ok(implementation(audioPath))
  }

  /** The outcome depends on the implementation only for existing files. */
  lemma MissingFileIgnoresImplementation<S, M>(audioPath: string, existing: set<string>,
                                               f: string -> DiarizationResult<S, M>, g: string -> DiarizationResult<S, M>)
    requires audioPath !in existing
    ensures Diarize(audioPath, existing, f) == Diarize(audioPath, existing, g)
  {
  }

  /** A formatted segment: exactly the four keys `_format_segments` writes. */
  datatype Labelled = Labelled(start: real, end: real, speaker: string, text: string)

  /** One formatted segment: start/end default to 0.0, speaker to "UNKNOWN", text to "" and is stripped. */
  function FormatSegment(seg: RawSegment): (r: Labelled)
    ensures r.start == seg.start.GetOr(0.0) && r.end == seg.end.GetOr(0.0)
    ensures r.speaker == seg.speaker.GetOr("UNKNOWN")
    ensures r.text == Strip(seg.text.GetOr(""))
  {
    Labelled(seg.start.GetOr(0.0), seg.end.GetOr(0.0), seg.speaker.GetOr("UNKNOWN"), Strip(seg.text.GetOr("")))
  }

  /** `_format_segments`: one formatted segment per input segment, in order. */
  function FormatSegments(segs: seq<RawSegment>): (r: seq<Labelled>)
    ensures |r| == |segs|
    ensures forall i :: 0 <= i < |segs| ==> r[i] == FormatSegment(segs[i])
  {
    seq(|segs|, i requires 0 <= i < |segs| => FormatSegment(segs[i]))
  }

  /** A formatted segment as a dictionary with all four keys present. */
  function AsRaw(l: Labelled): RawSegment
  {
    RawSegment(Some(l.start), Some(l.end), Some(l.text), Some(l.speaker), None)
  }

  /** Python's `strip` is idempotent. */
  lemma StripIdempotent(s: string)
    ensures Strip(Strip(s)) == Strip(s)
  {
    StripSpec(s);
    StripNoEdgeSpace(Strip(s));
  }

  /** Formatting is idempotent: formatting an already formatted segment list gives it back. */
  lemma FormatSegmentsIdempotent(segs: seq<RawSegment>)
    ensures var once := FormatSegments(segs);
      FormatSegments(seq(|once|, i requires 0 <= i < |once| => AsRaw(once[i]))) == once
  {
    var once := FormatSegments(segs);
    var raw := seq(|once|, i requires 0 <= i < |once| => AsRaw(once[i]));
    var twice := FormatSegments(raw);
    forall i | 0 <= i < |once|
      ensures twice[i] == once[i]
    {
      StripIdempotent(segs[i].text.GetOr(""));
    }
  }

  /** Every formatted text has no blank at either end; defaults fill exactly the missing keys. */
  lemma FormatSegmentDefaults(seg: RawSegment)
    ensures var r := FormatSegment(seg);
      (seg.speaker.None? ==> r.speaker == "UNKNOWN")
      && (seg.text.None? ==> r.text == "")
      && (r.text == [] || (!IsSpace(r.text[0]) && !IsSpace(r.text[|r.text| - 1])))
  {
    StripSpec(seg.text.GetOr(""));
    assert Strip("") == "";
  }
}
