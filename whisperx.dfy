/**
 * pipeline/diarization/whisperx.py: the Hugging Face token requirement of
 * `WhisperXDiarizer`, `_format_whisperx_segments`, and how
 * `_diarize_implementation` combines the outcomes of the transcription,
 * alignment and diarization steps (speaker count, duration, rtf). What the
 * whisperx and pyannote models return is an input.
 */
module WhisperX {
  import opened Base
  import opened Strings
  import opened Segments
  import opened DiarizerBase
  import Transcribe

  // ---------------------------------------------------------------------
  // Construction
  // ---------------------------------------------------------------------

  /** The message of the `ValueError` raised without a token. */
  const TokenMissing := "HuggingFace token required for pyannote models. Set HF_TOKEN environment variable or pass hf_token parameter. Get token at: https://huggingface.co/settings/tokens"

  /**
   * `hf_token or os.getenv("HF_TOKEN")`, then `if not self.hf_token: raise
   * ValueError`: an empty argument falls through to the environment, and an
   * empty or missing result is refused.
   */
  function ResolveToken(hfToken: Option<string>, envToken: Option<string>): (r: Result<string>)
    ensures r.Ok? <==> (hfToken.Some? && hfToken.value != "") || (envToken.Some? && envToken.value != "")
    ensures r.Ok? ==> r.value != ""
    ensures hfToken.Some? && hfToken.value != "" ==> r == Ok(hfToken.value)
    ensures r.Err? ==> r.error.ValueError?
  {
    var token := if hfToken.Some? && hfToken.value != "" then hfToken else envToken;
    if token.None? || token.value == "" then
      Err(ValueError(TokenMissing))
    else Ok(token.value)
  }

  /** The environment is consulted only when no usable argument is given. */
  lemma EnvTokenIsFallback(hfToken: Option<string>, e1: Option<string>, e2: Option<string>)
    requires hfToken.Some? && hfToken.value != ""
    ensures ResolveToken(hfToken, e1) == ResolveToken(hfToken, e2)
  {
  }

  // ---------------------------------------------------------------------
  // _format_whisperx_segments
  // ---------------------------------------------------------------------

  /** A formatted word: start/end default to 0.0, the word to "", the speaker to `None`. */
  datatype Word = Word(start: real, end: real, word: string, speaker: Option<string>)

  /** A formatted segment: `speaker` and `words` only when the input supplies them. */
  datatype Formatted = Formatted(start: real, end: real, text: string, speaker: Option<string>, words: Option<seq<Word>>)

  function FormatWord(w: RawWord): (r: Word)
    ensures r.start == w.start.GetOr(0.0) && r.end == w.end.GetOr(0.0)
    ensures r.word == w.word.GetOr("") && r.speaker == w.speaker
  {
    Word(w.start.GetOr(0.0), w.end.GetOr(0.0), w.word.GetOr(""), w.speaker)
  }

  function FormatWords(ws: seq<RawWord>): (r: seq<Word>)
    ensures |r| == |ws| && forall i :: 0 <= i < |ws| ==> r[i] == FormatWord(ws[i])
  {
    seq(|ws|, i requires 0 <= i < |ws| => FormatWord(ws[i]))
  }

  /** One segment: stripped text, defaulted times, the speaker if present, the words if non-empty. */
  function FormatSegmentX(seg: RawSegment): (r: Formatted)
    ensures r.start == seg.start.GetOr(0.0) && r.end == seg.end.GetOr(0.0)
    ensures r.text == Strip(seg.text.GetOr(""))
    ensures r.speaker == seg.speaker
    ensures r.words.Some? <==> seg.words.Some? && seg.words.value != []
    ensures r.words.Some? ==> |r.words.value| == |seg.words.value|
  {
    Formatted(seg.start.GetOr(0.0), seg.end.GetOr(0.0), Strip(seg.text.GetOr("")), seg.speaker,
              if seg.words.Some? && seg.words.value != [] then Some(FormatWords(seg.words.value)) else None)
  }

  /** `_format_whisperx_segments`: one formatted segment per input segment, in order. */
  function FormatWhisperXSegments(segs: seq<RawSegment>): (r: seq<Formatted>)
    ensures |r| == |segs|
    ensures forall i :: 0 <= i < |segs| ==> r[i] == FormatSegmentX(segs[i])
  {
    seq(|segs|, i requires 0 <= i < |segs| => FormatSegmentX(segs[i]))
  }

  /** The word-level entries of a formatted segment keep the input words' order and their speakers. */
  lemma FormattedWordsFollowInput(seg: RawSegment, k: nat)
    requires seg.words.Some? && k < |seg.words.value|
    ensures var r := FormatSegmentX(seg);
      r.words.Some? && r.words.value[k].speaker == seg.words.value[k].speaker
      && r.words.value[k].word == seg.words.value[k].word.GetOr("")
  {
  }

  // ---------------------------------------------------------------------
  // Speaker counting
  // ---------------------------------------------------------------------

  /** The labels of the segments that carry a `speaker` key. */
  function Speakers(segs: seq<RawSegment>): set<string>
  {
    set i | 0 <= i < |segs| && segs[i].speaker.Some? :: segs[i].speaker.value
  }

  /** `len(speakers) if speakers else None`. */
  function DetectedSpeakers(segs: seq<RawSegment>): (r: Option<nat>)
    ensures r.None? <==> forall i :: 0 <= i < |segs| ==> segs[i].speaker.None?
    ensures r.Some? ==> r.value == |Speakers(segs)| && r.value >= 1
  {
    SpeakersEmptyIff(segs);
    if Speakers(segs) == {} then None else Some(|Speakers(segs)|)
  }

  lemma SpeakersEmptyIff(segs: seq<RawSegment>)
    ensures Speakers(segs) == {} <==> forall i :: 0 <= i < |segs| ==> segs[i].speaker.None?
  {
    forall i | 0 <= i < |segs| && segs[i].speaker.Some?
      ensures segs[i].speaker.value in Speakers(segs)
    {
    }
  }

  /** There are never more distinct speakers than segments. */
  lemma {:induction false} SpeakersBound(segs: seq<RawSegment>)
    ensures |Speakers(segs)| <= |segs|
  {
    if segs != [] {
      var init := segs[..|segs| - 1];
      SpeakersBound(init);
      var last := segs[|segs| - 1];
      var extra: set<string> := if last.speaker.Some? then {last.speaker.value} else {};
      assert Speakers(segs) <= Speakers(init) + extra by {
        forall x | x in Speakers(segs) ensures x in Speakers(init) + extra {
          var i :| 0 <= i < |segs| && segs[i].speaker.Some? && segs[i].speaker.value == x;
          if i < |segs| - 1 { assert init[i] == segs[i]; }
        }
      }
      assert |Speakers(init) + extra| <= |Speakers(init)| + |extra|;
      SubsetCard(Speakers(segs), Speakers(init) + extra);
    }
  }

  lemma SubsetCard<T>(a: set<T>, b: set<T>)
    requires a <= b
    ensures |a| <= |b|
  {
    assert b == a + (b - a);
  }

  /** The speakers counted are exactly the speakers of the formatted output. */
  lemma CountMatchesFormatted(segs: seq<RawSegment>)
    ensures var out := FormatWhisperXSegments(segs);
      Speakers(segs) == set i | 0 <= i < |out| && out[i].speaker.Some? :: out[i].speaker.value
  {
  }

  // ---------------------------------------------------------------------
  // _diarize_implementation
  // ---------------------------------------------------------------------

  /** `result.get("language", language or "en")`. */
  function DetectedLanguage(modelLanguage: Option<string>, language: Option<string>): (r: string)
    ensures modelLanguage.Some? ==> r == modelLanguage.value
    ensures modelLanguage.None? && language.Some? && language.value != "" ==> r == language.value
    ensures modelLanguage.None? && (language.None? || language.value == "") ==> r == "en"
  {
    if modelLanguage.Some? then modelLanguage.value
    else if language.Some? && language.value != "" then language.value
    else "en"
  }

  /** What whisperx and pyannote yield during one run; a `None` step raised. */
  datatype Run = Run(
    transcribed: seq<RawSegment>,
    modelLanguage: Option<string>,
    transcribeTime: real,
    aligned: Option<seq<RawSegment>>,
    alignTime: real,
    assignSpeakers: Option<seq<RawSegment> -> seq<RawSegment>>,
    diarizeTime: real,
    totalTime: real)

  /** The segments after the alignment and speaker-assignment steps that succeeded. */
  function BeforeAssignment(run: Run): seq<RawSegment>
  {
    if run.aligned.Some? then run.aligned.value else run.transcribed
  }

  function FinalSegments(run: Run): seq<RawSegment>
  {
    var before := BeforeAssignment(run);
    if run.assignSpeakers.Some? then run.assignSpeakers.value(before) else before
  }

  function FormattedEnd(s: Formatted): real
  {
    s.end
  }

  /** The step timings; a step that raised reports 0. */
  datatype Timings = Timings(transcribe: real, align: real, diarize: real)

  /** The `metadata` dictionary of the result. */
  datatype Metadata = Metadata(language: string, duration: real, modelSize: string, device: string, rtf: real, timings: Timings)

  /**
   * `_diarize_implementation`: format the final segments, count speakers only
   * when diarization succeeded, and record the language, duration, guarded rtf
   * and the step timings.
   */
  function DiarizeImplementation(modelSize: string, device: string, audioPath: string,
                                 language: Option<string>, run: Run): (r: DiarizationResult<Formatted, Metadata>)
    ensures r.segments == FormatWhisperXSegments(FinalSegments(run))
    ensures r.audioPath == audioPath && r.processingTime == run.totalTime
    ensures run.assignSpeakers.None? ==> r.numSpeakers.None?
    ensures run.assignSpeakers.Some? ==> r.numSpeakers == DetectedSpeakers(FinalSegments(run))
    ensures r.metadata.Some? && r.metadata.value.duration == Transcribe.AudioDuration(r.segments, FormattedEnd)
    ensures r.metadata.value.rtf == Transcribe.GuardedRtf(run.totalTime, r.metadata.value.duration)
    ensures r.metadata.value.language == DetectedLanguage(run.modelLanguage, language)
    ensures r.metadata.value.timings.align == (if run.aligned.Some? then run.alignTime else 0.0)
    ensures r.metadata.value.timings.diarize == (if run.assignSpeakers.Some? then run.diarizeTime else 0.0)
  {
    var finalSegs := FinalSegments(run);
    var segments := FormatWhisperXSegments(finalSegs);
    var speakers := if run.assignSpeakers.Some? then DetectedSpeakers(finalSegs) else None;
    var duration := Transcribe.AudioDuration(segments, FormattedEnd);
    var timings := Timings(run.transcribeTime,
                           if run.aligned.Some? then run.alignTime else 0.0,
                           if run.assignSpeakers.Some? then run.diarizeTime else 0.0);
    var metadata := Metadata(DetectedLanguage(run.modelLanguage, language), duration, modelSize, device,
                             Transcribe.GuardedRtf(run.totalTime, duration), timings);
    DiarizationResult(segments, audioPath, speakers, run.totalTime, Some(metadata))
  }

  /** A reported speaker count never exceeds the number of result segments and is at least 1. */
  lemma SpeakerCountBounded(modelSize: string, device: string, audioPath: string, language: Option<string>, run: Run)
    ensures var r := DiarizeImplementation(modelSize, device, audioPath, language, run);
      r.numSpeakers.Some? ==> 1 <= r.numSpeakers.value <= |r.segments|
  {
    SpeakersBound(FinalSegments(run));
  }

  /** Empty output: duration 0, so rtf 0 whatever the elapsed time. */
  lemma NoSegmentsZeroRtf(modelSize: string, device: string, audioPath: string, language: Option<string>, run: Run)
    requires FinalSegments(run) == []
    ensures DiarizeImplementation(modelSize, device, audioPath, language, run).metadata.value.rtf == 0.0
  {
  }
}
