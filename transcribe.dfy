/**
 * pipeline/transcribe_fw.py: the set-up decisions of `FasterWhisperTranscriber`
 * (device, compute type, model) and the result that `transcribe` assembles
 * from the segments the Whisper model yields. The model itself and the audio
 * preprocessor are inputs: the model is a function from the audio path it is
 * given to its segments, and the preprocessor's outcome is a value.
 */
module Transcribe {
  import opened Base
  import opened Strings
  import opened Segments
  import GpuUtils

  // ---------------------------------------------------------------------
  // Construction
  // ---------------------------------------------------------------------

  /** float16 is not supported on the CPU: it becomes int8 there; everything else is kept. */
  function AdjustComputeType(device: string, computeType: string): (r: string)
    ensures device == "cpu" && computeType == "float16" ==> r == "int8"
    ensures !(device == "cpu" && computeType == "float16") ==> r == computeType
  {
    if device == "cpu" && computeType == "float16" then "int8" else computeType
  }

  /** On the CPU the adjusted type is never float16; adjusting twice changes nothing more. */
  lemma AdjustComputeTypeSettles(device: string, computeType: string)
    ensures device == "cpu" ==> AdjustComputeType(device, computeType) != "float16"
    ensures AdjustComputeType(device, AdjustComputeType(device, computeType)) == AdjustComputeType(device, computeType)
  {
  }

  /** What `__init__` stores: the model size as given, the selected device and the adjusted compute type. */
  datatype Setup = Setup(modelSize: string, device: string, computeType: string)

  /**
   * `FasterWhisperTranscriber.__init__`: select the device (raising as
   * `select_device` does), then adjust the compute type. The large-v3 VRAM
   * check only logs: the model size is never changed.
   */
  function NewTranscriber(modelSize: string, device: string, computeType: string, info: GpuUtils.GpuInfo): (r: Result<Setup>)
    ensures r.Err? <==> GpuUtils.SelectDevice(device, info).Err?
    ensures r.Ok? ==> (r.value.modelSize == modelSize
      && r.value.device == GpuUtils.SelectDevice(device, info).value
      && r.value.computeType == AdjustComputeType(r.value.device, computeType))
  {
    var selected :- GpuUtils.SelectDevice(device, info);
    Ok(Setup(modelSize, selected, AdjustComputeType(selected, computeType)))
  }

  /** A float16 request that ends up on the CPU runs as int8; on CUDA it stays float16. */
  lemma Float16Placement(modelSize: string, device: string, info: GpuUtils.GpuInfo)
    requires NewTranscriber(modelSize, device, "float16", info).Ok?
    ensures var s := NewTranscriber(modelSize, device, "float16", info).value;
      (s.device == "cpu" ==> s.computeType == "int8") && (s.device == "cuda" ==> s.computeType == "float16")
  {
  }

  // ---------------------------------------------------------------------
  // Result assembly
  // ---------------------------------------------------------------------

  /** A word as faster-whisper yields it. */
  datatype ModelWord = ModelWord(start: real, end: real, word: string, probability: real)

  /** A segment as faster-whisper yields it. */
  datatype ModelSegment = ModelSegment(start: real, end: real, text: string, words: seq<ModelWord>)

  /** The model's transcription info: detected language and its probability. */
  datatype LanguageInfo = LanguageInfo(language: string, probability: real)

  /** A segment of the result: start, end, stripped text, and `words` only when present. */
  datatype OutSegment = OutSegment(start: real, end: real, text: string, words: Option<seq<ModelWord>>)

  /** The preprocessor's outcome: disabled, raised, or the processed file and its metrics. */
  datatype Preprocessed =
    | Disabled
    | Failed(message: string)
    | Processed(path: string, metrics: map<string, Json>)

  /** The dictionary `transcribe` returns. */
  datatype TranscriptResult = TranscriptResult(
    text: string,
    segments: seq<OutSegment>,
    language: string,
    languageProbability: real,
    duration: real,
    processingTime: real,
    rtf: real,
    modelSize: string,
    device: string,
    preprocessing: Option<map<string, Json>>)

  /**
   * One loop step: the segment dictionary built from a model segment, its
   * text cleaned by `strip` (Python's `str.strip` in the model proper).
   */
  function FormatSegment(s: ModelSegment, wordTimestamps: bool, strip: string -> string): (r: OutSegment)
    ensures r.start == s.start && r.end == s.end && r.text == strip(s.text)
    ensures r.words.Some? <==> wordTimestamps && s.words != []
    ensures r.words.Some? ==> r.words.value == s.words
  {
    OutSegment(s.start, s.end, strip(s.text), if wordTimestamps && s.words != [] then Some(s.words) else None)
  }

  /** The segment list: one formatted segment per model segment, in order. */
  function FormatSegments(ms: seq<ModelSegment>, wordTimestamps: bool, strip: string -> string): (r: seq<OutSegment>)
    ensures |r| == |ms|
    ensures forall i :: 0 <= i < |ms| ==> r[i] == FormatSegment(ms[i], wordTimestamps, strip)
  {
    seq(|ms|, i requires 0 <= i < |ms| => FormatSegment(ms[i], wordTimestamps, strip))
  }

  /** The texts of the result segments, in order. */
  function SegmentTexts(segs: seq<OutSegment>): (r: seq<string>)
    ensures |r| == |segs| && forall i :: 0 <= i < |segs| ==> r[i] == segs[i].text
  {
    seq(|segs|, i requires 0 <= i < |segs| => segs[i].text)
  }

  /**
   * `segments[-1]["end"] if segments else 0`, for any kind of segment whose
   * end time `end` reads.
   */
  function AudioDuration<S>(segs: seq<S>, end: S -> real): (d: real)
    ensures segs == [] ==> d == 0.0
    ensures segs != [] ==> d == end(segs[|segs| - 1])
  {
    if segs == [] then 0.0 else end(segs[|segs| - 1])
  }

  function OutEnd(s: OutSegment): real
  {
    s.end
  }

  /** `elapsed / duration if duration > 0 else 0`. */
  function GuardedRtf(elapsed: real, duration: real): (rtf: real)
    ensures duration > 0.0 ==> rtf * duration == elapsed
    ensures duration <= 0.0 ==> rtf == 0.0
  {
    if duration > 0.0 then elapsed / duration else 0.0
  }

  /** The path handed to the model: the preprocessed file when preprocessing succeeded, else the original. */
  function UsedPath(audioPath: string, pre: Preprocessed): (p: string)
    ensures !pre.Processed? ==> p == audioPath
  {
    if pre.Processed? then pre.path else audioPath
  }

  /** `if preprocessing_metrics:`: present only for a successful run with non-empty metrics. */
  function PreprocessingKey(pre: Preprocessed): (r: Option<map<string, Json>>)
    ensures r.Some? <==> pre.Processed? && pre.metrics != map[]
    ensures r.Some? ==> r.value == pre.metrics
  {
    if pre.Processed? && pre.metrics != map[] then Some(pre.metrics) else None
  }

  /** The result for the given model output, as a value. */
  function Assemble(setup: Setup, ms: seq<ModelSegment>, info: LanguageInfo, wordTimestamps: bool,
                    elapsed: real, pre: Preprocessed): (r: TranscriptResult)
    ensures r.segments == FormatSegments(ms, wordTimestamps, Strip)
    ensures r.text == Join(" ", SegmentTexts(r.segments))
    ensures r.duration == AudioDuration(r.segments, OutEnd) && r.rtf == GuardedRtf(elapsed, r.duration)
    ensures r.preprocessing == PreprocessingKey(pre)
  {
    var segs := FormatSegments(ms, wordTimestamps, Strip);
    var duration := AudioDuration(segs, OutEnd);
    TranscriptResult(Join(" ", SegmentTexts(segs)), segs, info.language, info.probability,
                     duration, elapsed, GuardedRtf(elapsed, duration), setup.modelSize, setup.device,
                     PreprocessingKey(pre))
  }

  /** Result segments match the model's in count and order, with stripped text and the model's times. */
  lemma SegmentsFollowModel(ms: seq<ModelSegment>, wordTimestamps: bool, i: nat)
    requires i < |ms|
    ensures var s := FormatSegments(ms, wordTimestamps, Strip)[i];
      s.start == ms[i].start && s.end == ms[i].end && s.text == Strip(ms[i].text)
      && (s.text == [] || (!IsSpace(s.text[0]) && !IsSpace(s.text[|s.text| - 1])))
  {
    StripSpec(ms[i].text);
  }

  /**
   * `transcribe`: run the preprocessor's outcome, call the model on the path
   * it leaves, then build the segment list and the text list in one pass.
   */
  method TranscribeAudio(setup: Setup, audioPath: string, wordTimestamps: bool, pre: Preprocessed,
                         model: string -> (seq<ModelSegment>, LanguageInfo), elapsed: real)
    returns (result: TranscriptResult)
    ensures var out := model(UsedPath(audioPath, pre));
      result == Assemble(setup, out.0, out.1, wordTimestamps, elapsed, pre)
  {
    var path := audioPath;
    var metrics: Option<map<string, Json>> := None;
    if pre.Processed? {
      path := pre.path;
      metrics := Some(pre.metrics);
    }
    var out := model(path);
    var ms := out.0;
    var segmentsList: seq<OutSegment> := [];
    var fullText: seq<string> := [];
    var i := 0;
    while i < |ms|
      invariant 0 <= i <= |ms|
      invariant segmentsList == FormatSegments(ms[..i], wordTimestamps, Strip)
      invariant fullText == SegmentTexts(segmentsList)
    {
      var segment := FormatSegment(ms[i], wordTimestamps, Strip);
      FormatSegmentsSnoc(ms, i, wordTimestamps, Strip);
      SegmentTextsSnoc(segmentsList, segment);
      segmentsList := segmentsList + [segment];
      fullText := fullText + [segment.text];
      i := i + 1;
    }
    assert ms[..|ms|] == ms;
    var duration := if segmentsList != [] then segmentsList[|segmentsList| - 1].end else 0.0;
    var rtf := if duration > 0.0 then elapsed / duration else 0.0;
    var preprocessing := if metrics.Some? && metrics.value != map[] then metrics else None;
    assert path == UsedPath(audioPath, pre);
    assert segmentsList == FormatSegments(ms, wordTimestamps, Strip);
    assert duration == AudioDuration(segmentsList, OutEnd) && rtf == GuardedRtf(elapsed, duration);
    assert preprocessing == PreprocessingKey(pre);
    result := TranscriptResult(Join(" ", fullText), segmentsList, out.1.language, out.1.probability,
                               duration, elapsed, rtf, setup.modelSize, setup.device, preprocessing);
  }

  lemma FormatSegmentsSnoc(ms: seq<ModelSegment>, i: nat, wordTimestamps: bool, strip: string -> string)
    requires i < |ms|
    ensures FormatSegments(ms[..i + 1], wordTimestamps, strip) == FormatSegments(ms[..i], wordTimestamps, strip) + [FormatSegment(ms[i], wordTimestamps, strip)]
  {
    var a := FormatSegments(ms[..i + 1], wordTimestamps, strip);
    var b := FormatSegments(ms[..i], wordTimestamps, strip) + [FormatSegment(ms[i], wordTimestamps, strip)];
    assert |a| == |b|;
    assert forall k :: 0 <= k < |a| ==> a[k] == b[k];
  }

  lemma SegmentTextsSnoc(segs: seq<OutSegment>, s: OutSegment)
    ensures SegmentTexts(segs + [s]) == SegmentTexts(segs) + [s.text]
  {
    var a := SegmentTexts(segs + [s]);
    var b := SegmentTexts(segs) + [s.text];
    assert |a| == |b|;
    assert forall k :: 0 <= k < |a| ==> a[k] == b[k];
  }

  /** A failed or disabled preprocessing step leaves the model reading the original file, and the result has no preprocessing entry. */
  lemma FallbackToOriginal(setup: Setup, audioPath: string, wordTimestamps: bool, pre: Preprocessed,
                           model: string -> (seq<ModelSegment>, LanguageInfo), elapsed: real)
    requires !pre.Processed?
    ensures var out := model(audioPath);
      var r := Assemble(setup, out.0, out.1, wordTimestamps, elapsed, pre);
      r.preprocessing.None? && r.segments == FormatSegments(out.0, wordTimestamps, Strip)
  {
  }
}
