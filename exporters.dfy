/**
 * Transcript exporters: SRT and WebVTT timestamps, the structural check of
 * a segment list, and the TXT, SRT, WebVTT and JSON renderings (a file's
 * content is the text written to it). The WebVTT layout is the header line
 * `WEBVTT`, a blank line, then cues of an optional line, the timing line
 * `start --> end` and the payload, each cue followed by a blank line
 * (section 4.1 of the W3C WebVTT specification).
 */
module Exporters {
  import opened Base
  import opened Strings
  import opened PyNum
  import opened Segments
  import Paths

  // -----------------------------------------------------------------------
  // Timestamps
  // -----------------------------------------------------------------------

  /** `f"{hours:02d}:{minutes:02d}:{secs:02d}{sep}{millis:03d}"` of `x` seconds. */
  function Stamp(x: real, sep: char): string
  {
    var f := ClockFields(x);
    FormatInt(f.0, 2) + ":" + FormatInt(f.1, 2) + ":" + FormatInt(f.2, 2) + [sep] + FormatInt(Millis(x), 3)
  }

  /** Reads `HH:MM:SS<sep>mmm` (each field digits, hours of any width) back to milliseconds. */
  function ParseStamp(t: string, sep: char): Option<int>
  {
    ParseClock(Split(t, ":"), sep)
  }

  /** The three `:`-separated fields, the last one split at the separator. */
  function ParseClock(parts: seq<string>, sep: char): Option<int>
  {
    if |parts| != 3 then None else ParseSeconds(parts[0], parts[1], Split(parts[2], [sep]))
  }

  /** Hours and minutes, and the seconds field already split at the separator. */
  function ParseSeconds(h: string, m: string, sm: seq<string>): Option<int>
  {
    if |sm| != 2 then None
    else if DigitField(h) && DigitField(m) && DigitField(sm[0]) && DigitField(sm[1]) then
      Some(ClockMillis(DigitsValue(h), DigitsValue(m), DigitsValue(sm[0]), DigitsValue(sm[1])))
    else None
  }

  /** Hours, minutes, seconds and milliseconds as a count of milliseconds. */
  function ClockMillis(h: int, m: int, s: int, ms: int): int
  {
    3600000 * h + 60000 * m + 1000 * s + ms
  }

  predicate DigitField(s: string) { s != [] && AllDigits(s) }

  /** `format_timestamp_srt`: for a non-negative time, reads back as its whole milliseconds. */
  function FormatTimestampSrt(x: real): (t: string)
    ensures x >= 0.0 ==> ParseStamp(t, ',') == Some((x * 1000.0).Floor)
  {
    StampRoundTrip(x, ',');
    Stamp(x, ',')
  }

  /** `format_timestamp_vtt`: the SRT stamp with '.' in place of ',' before the milliseconds. */
  function FormatTimestampVtt(x: real): (t: string)
    ensures x >= 0.0 ==> ParseStamp(t, '.') == Some((x * 1000.0).Floor)
    ensures |t| == |FormatTimestampSrt(x)| >= 4
    ensures t[..|t| - 4] == FormatTimestampSrt(x)[..|t| - 4]
    ensures t[|t| - 4] == '.' && FormatTimestampSrt(x)[|t| - 4] == ','
    ensures t[|t| - 3..] == FormatTimestampSrt(x)[|t| - 3..]
  {
    StampRoundTrip(x, '.');
    var f := ClockFields(x);
    var head := FormatInt(f.0, 2) + ":" + FormatInt(f.1, 2) + ":" + FormatInt(f.2, 2);
    var ms := FormatInt(Millis(x), 3);
    PaddedNatValue(Millis(x), 3);
    assert |ms| == 3 by { MillisWidth(Millis(x)); }
    assert Stamp(x, '.') == head + ['.'] + ms && Stamp(x, ',') == head + [','] + ms;
    Stamp(x, '.')
  }

  lemma MillisWidth(ms: int)
    requires 0 <= ms < 1000
    ensures |FormatInt(ms, 3)| == 3
  {
    var d := NatToString(ms);
    DigitsValueOfNatToString(ms);
    if |d| > 3 {
      DigitsValueAtLeast(d);
    }
  }

  /** A digit string longer than three digits without a leading zero is at least 1000. */
  lemma {:induction false} DigitsValueAtLeast(d: string)
    requires AllDigits(d) && |d| > 3 && d == NatToString(DigitsValue(d))
    ensures DigitsValue(d) >= 1000
  {
    var n := DigitsValue(d);
    if n < 1000 {
      NatToStringShort(n);
    }
  }

  lemma NatToStringShort(n: nat)
    requires n < 1000
    ensures |NatToString(n)| <= 3
  {
    if n >= 10 {
      if n >= 100 {
        assert NatToString(n) == NatToString(n / 10) + [DigitChar(n % 10)];
        assert NatToString(n / 10) == NatToString(n / 100) + [DigitChar((n / 10) % 10)];
      } else {
        assert NatToString(n) == NatToString(n / 10) + [DigitChar(n % 10)];
      }
    }
  }

  /** The fields of a non-negative time add up to its whole milliseconds. */
  lemma MillisTotal(x: real)
    requires x >= 0.0
    ensures var f := ClockFields(x);
      1000 * (3600 * f.0 + 60 * f.1 + f.2) + Millis(x) == (x * 1000.0).Floor
  {
    var f := ClockFields(x);
    var w := 3600 * f.0 + 60 * f.1 + f.2;
    assert w == x.Floor;
    assert FloorDiv(x, 1.0) == w;
    assert PyMod(x, 1.0) == x - w as real;
    assert x * 1000.0 == (1000 * w) as real + (x - w as real) * 1000.0;
  }

  /** A non-negative time's stamp reads back as its whole milliseconds: no field wraps. */
  lemma StampRoundTrip(x: real, sep: char)
    requires sep == ',' || sep == '.'
    ensures x >= 0.0 ==> ParseStamp(Stamp(x, sep), sep) == Some((x * 1000.0).Floor)
  {
    if x >= 0.0 {
      StampFieldsRoundTrip(x, sep);
    }
  }

  lemma StampFieldsRoundTrip(x: real, sep: char)
    requires x >= 0.0 && (sep == ',' || sep == '.')
    ensures ParseStamp(Stamp(x, sep), sep) == Some((x * 1000.0).Floor)
  {
    var f := ClockFields(x);
    PaddedNatValue(f.0, 2);
    PaddedNatValue(f.1, 2);
    PaddedNatValue(f.2, 2);
    PaddedNatValue(Millis(x), 3);
    ParseFields(FormatInt(f.0, 2), FormatInt(f.1, 2), FormatInt(f.2, 2), FormatInt(Millis(x), 3), sep);
    MillisTotal(x);
    assert ClockMillis(f.0, f.1, f.2, Millis(x)) == (x * 1000.0).Floor;
  }

  /** Digit fields joined as a stamp parse back field by field. */
  lemma ParseFields(a: string, b: string, s: string, m: string, sep: char)
    requires DigitField(a) && DigitField(b) && DigitField(s) && DigitField(m) && (sep == ',' || sep == '.')
    ensures ParseStamp(a + ":" + b + ":" + s + [sep] + m, sep)
      == Some(ClockMillis(DigitsValue(a), DigitsValue(b), DigitsValue(s), DigitsValue(m)))
  {
    var c := s + [sep] + m;
    var t := a + ":" + b + ":" + s + [sep] + m;
    assert ':' !in a && ':' !in b;
    assert ':' !in c && sep !in s && sep !in m;
    assert t == a + [':'] + b + [':'] + c;
    SplitThree(a, b, c, ':');
    SplitTwo(s, m, sep);
    assert Split(t, ":") == [a, b, c];
    ParseClockOf(a, b, c, s, m, sep);
    ParseStampOfParts(t, sep, [a, b, c]);
  }

  lemma ParseClockOf(a: string, b: string, c: string, s: string, m: string, sep: char)
    requires Split(c, [sep]) == [s, m]
    requires DigitField(a) && DigitField(b) && DigitField(s) && DigitField(m)
    ensures ParseClock([a, b, c], sep)
      == Some(ClockMillis(DigitsValue(a), DigitsValue(b), DigitsValue(s), DigitsValue(m)))
  {
    var ps := [a, b, c];
    assert ps[0] == a && ps[1] == b && ps[2] == c;
    var sm := [s, m];
    assert ParseSeconds(a, b, sm) == Some(ClockMillis(DigitsValue(a), DigitsValue(b), DigitsValue(s), DigitsValue(m)));
  }

  lemma ParseStampOfParts(t: string, sep: char, parts: seq<string>)
    requires Split(t, ":") == parts
    ensures ParseStamp(t, sep) == ParseClock(parts, sep)
  {
  }

  lemma SplitThree(a: string, b: string, c: string, sep: char)
    requires sep !in a && sep !in b && sep !in c
    ensures Split(a + [sep] + b + [sep] + c, [sep]) == [a, b, c]
  {
    assert Join([sep], [a, b, c]) == a + [sep] + b + [sep] + c by {
      assert [a, b, c][1..] == [b, c];
      assert Join([sep], [b, c]) == b + [sep] + c by {
        assert [b, c][1..] == [c];
      }
    }
    var parts := [a, b, c];
    forall i | 0 <= i < 3
      ensures sep !in parts[i]
    {
    }
    SplitJoin(parts, sep);
  }

  lemma SplitTwo(a: string, b: string, sep: char)
    requires sep !in a && sep !in b
    ensures Split(a + [sep] + b, [sep]) == [a, b]
  {
    assert Join([sep], [a, b]) == a + [sep] + b by {
      assert [a, b][1..] == [b];
    }
    SplitJoin([a, b], sep);
  }

  // -----------------------------------------------------------------------
  // validate_segments
  // -----------------------------------------------------------------------

  /** The first complaint `validate_segments` has about item `i`, in the order it checks. */
  function SegmentError(seg: Json, i: nat): Option<string>
  {
    var at := "Segment " + IntToString(i);
    if !seg.JObj? then Some(at + " must be a dictionary")
    else if "start" !in seg.fields || "end" !in seg.fields then Some(at + " missing 'start' or 'end' timestamp")
    else if "text" !in seg.fields then Some(at + " missing 'text' field")
    else
      var start, end := seg.fields["start"], seg.fields["end"];
      if !IsNumeric(start) || !IsNumeric(end) then Some(at + " timestamps must be numeric")
      else if NumValue(start) < 0.0 || NumValue(end) < 0.0 then Some(at + " has negative timestamp")
      else if NumValue(start) > NumValue(end) then Some(at + " has start time after end time")
      else None
  }

  /** Index of the first item from `i` on that fails the check. */
  function FirstInvalid(items: seq<Json>, i: nat): (k: Option<nat>)
    requires i <= |items|
    ensures k.None? <==> forall j :: i <= j < |items| ==> SegmentError(items[j], j).None?
    ensures k.Some? ==> i <= k.value < |items| && SegmentError(items[k.value], k.value).Some?
    ensures k.Some? ==> forall j :: i <= j < k.value ==> SegmentError(items[j], j).None?
    decreases |items| - i
  {
    if i == |items| then None
    else if SegmentError(items[i], i).Some? then Some(i)
    else FirstInvalid(items, i + 1)
  }

  /** `validate_segments`: `None` when it returns, the `ValueError` message when it raises. */
  function ValidateSegments(segments: Json): (err: Option<string>)
    ensures err.None? <==> segments.JList? && forall j :: 0 <= j < |segments.items| ==> SegmentError(segments.items[j], j).None?
    ensures !segments.JList? ==> err == Some("Segments must be a list")
    ensures segments.JList? && err.Some? ==>
      exists k :: 0 <= k < |segments.items| && err == SegmentError(segments.items[k], k)
        && forall j :: 0 <= j < k ==> SegmentError(segments.items[j], j).None?
  {
    if !segments.JList? then Some("Segments must be a list")
    else
      match FirstInvalid(segments.items, 0)
      case None => None
      case Some(k) => SegmentError(segments.items[k], k)
  }

  /** A segment as the dictionary the exporters receive: `speaker` and `words` only when present. */
  function Encode(seg: Segment): (j: Json)
  {
    var base := map["start" := JNum(seg.start), "end" := JNum(seg.end), "text" := JStr(seg.text)];
    var withSpeaker := if seg.speaker.Some? then base["speaker" := JStr(seg.speaker.value)] else base;
    JObj(if seg.words.Some? then withSpeaker["words" := JList(seg.words.value)] else withSpeaker)
  }

  function EncodeAll(segs: seq<Segment>): (j: Json)
    ensures j.JList? && |j.items| == |segs|
    ensures forall i :: 0 <= i < |segs| ==> j.items[i] == Encode(segs[i])
  {
    JList(seq(|segs|, i requires 0 <= i < |segs| => Encode(segs[i])))
  }

  /** What the check reports about a well-formed segment: only its times can be wrong. */
  function SpanError(seg: Segment, i: nat): (r: Option<string>)
    ensures r.None? <==> 0.0 <= seg.start <= seg.end
  {
    var at := "Segment " + IntToString(i);
    if seg.start < 0.0 || seg.end < 0.0 then Some(at + " has negative timestamp")
    else if seg.start > seg.end then Some(at + " has start time after end time")
    else None
  }

  lemma EncodedSegmentError(seg: Segment, i: nat)
    ensures SegmentError(Encode(seg), i) == SpanError(seg, i)
  {
    var j := Encode(seg);
    assert "start" in j.fields && "end" in j.fields && "text" in j.fields;
    assert j.fields["start"] == JNum(seg.start) && j.fields["end"] == JNum(seg.end);
  }

  /** The check on typed segments. */
  /** The first span error from segment `i` on, checking the segments in order. */
  function SpanCheck(segs: seq<Segment>, i: nat): Option<string>
    requires i <= |segs|
    decreases |segs| - i
  {
    if i == |segs| then None
    else if SpanError(segs[i], i).Some? then SpanError(segs[i], i)
    else SpanCheck(segs, i + 1)
  }

  /** The verdict of `validate_segments` on typed segments, stated on the segments themselves. */
  function ValidateTyped(segs: seq<Segment>): Option<string>
  {
    SpanCheck(segs, 0)
  }

  /** Validating the dictionaries of typed segments gives the verdict on their spans. */
  lemma ValidateEncoded(segs: seq<Segment>)
    ensures ValidateSegments(EncodeAll(segs)) == ValidateTyped(segs)
  {
    var items := EncodeAll(segs).items;
    forall i | 0 <= i < |segs| {
      EncodedSegmentError(segs[i], i);
    }
    FirstInvalidEncoded(segs, 0);
  }

  lemma {:induction false} FirstInvalidEncoded(segs: seq<Segment>, i: nat)
    requires i <= |segs|
    requires forall j :: 0 <= j < |segs| ==> SegmentError(EncodeAll(segs).items[j], j) == SpanError(segs[j], j)
    ensures SpanCheck(segs, i) == match FirstInvalid(EncodeAll(segs).items, i)
      case None => None
      case Some(k) => SpanError(segs[k], k)
    decreases |segs| - i
  {
    if i < |segs| {
      FirstInvalidEncoded(segs, i + 1);
    }
  }

  /**
   * Typed segments pass exactly when every one has `0 <= start <= end`;
   * `start == end` is accepted. Otherwise the message names the first bad one.
   */
  lemma ValidateTypedSpans(segs: seq<Segment>)
    ensures ValidateTyped(segs).None? <==> forall i :: 0 <= i < |segs| ==> 0.0 <= segs[i].start <= segs[i].end
    ensures ValidateTyped(segs).Some? ==>
      exists k :: 0 <= k < |segs| && ValidateTyped(segs) == SpanError(segs[k], k)
        && forall j :: 0 <= j < k ==> 0.0 <= segs[j].start <= segs[j].end
  {
    SpanCheckFrom(segs, 0);
  }

  lemma SpanCheckFrom(segs: seq<Segment>, i: nat)
    requires i <= |segs|
    ensures SpanCheck(segs, i).None? <==> forall j :: i <= j < |segs| ==> 0.0 <= segs[j].start <= segs[j].end
    ensures SpanCheck(segs, i).Some? ==>
      exists k :: i <= k < |segs| && SpanCheck(segs, i) == SpanError(segs[k], k)
        && forall j :: i <= j < k ==> 0.0 <= segs[j].start <= segs[j].end
  {
    SpanCheckPasses(segs, i);
    if SpanCheck(segs, i).Some? {
      SpanCheckNames(segs, i);
    }
  }

  /** The check passes from `i` on exactly when every span from `i` on is ordered and non-negative. */
  lemma {:induction false} SpanCheckPasses(segs: seq<Segment>, i: nat)
    requires i <= |segs|
    ensures SpanCheck(segs, i).None? <==> forall j :: i <= j < |segs| ==> 0.0 <= segs[j].start <= segs[j].end
    decreases |segs| - i
  {
    if i < |segs| {
      SpanCheckPasses(segs, i + 1);
    }
  }

  /** `k` is an index from `i` on, and every span from `i` up to `k` is ordered and non-negative. */
  predicate FirstBadSpan(segs: seq<Segment>, i: nat, k: nat)
  {
    i <= k < |segs| && forall j :: i <= j < k ==> 0.0 <= segs[j].start <= segs[j].end
  }

  /** A failing check reports the first bad segment from `i` on. */
  lemma {:induction false} SpanCheckNames(segs: seq<Segment>, i: nat)
    requires i <= |segs| && SpanCheck(segs, i).Some?
    ensures exists k: nat :: FirstBadSpan(segs, i, k) && SpanCheck(segs, i) == SpanError(segs[k], k)
    decreases |segs| - i
  {
    if SpanError(segs[i], i).None? {
      SpanCheckNames(segs, i + 1);
      var k: nat :| FirstBadSpan(segs, i + 1, k) && SpanCheck(segs, i + 1) == SpanError(segs[k], k);
      assert FirstBadSpan(segs, i, k);
      assert SpanCheck(segs, i) == SpanError(segs[k], k);
    }
  }

  // -----------------------------------------------------------------------
  // Files made of one block of lines per segment
  // -----------------------------------------------------------------------

  /** The blocks `block(1, xs[0]), block(2, xs[1]), ...` one after another. */
  function Blocks<T>(xs: seq<T>, block: (nat, T) -> seq<string>): seq<string>
  {
    if xs == [] then []
    else Blocks(xs[..|xs| - 1], block) + block(|xs|, xs[|xs| - 1])
  }

  /** With four-line blocks, lines `4k .. 4k+3` are block `k + 1`. */
  lemma {:induction false} Blocks4<T>(xs: seq<T>, block: (nat, T) -> seq<string>)
    requires forall n, x :: |block(n, x)| == 4
    ensures |Blocks(xs, block)| == 4 * |xs|
    ensures forall k :: 0 <= k < |xs| ==> Blocks(xs, block)[4 * k .. 4 * k + 4] == block(k + 1, xs[k])
  {
    if xs != [] {
      var init := xs[..|xs| - 1];
      var li := Blocks(init, block);
      var ls := Blocks(xs, block);
      Blocks4(init, block);
      assert ls == li + block(|xs|, xs[|xs| - 1]);
      forall k | 0 <= k < |xs|
        ensures ls[4 * k .. 4 * k + 4] == block(k + 1, xs[k])
      {
        if k < |init| {
          assert ls[4 * k .. 4 * k + 4] == li[4 * k .. 4 * k + 4];
          assert init[k] == xs[k];
        }
      }
    }
  }

  // -----------------------------------------------------------------------
  // TXT
  // -----------------------------------------------------------------------

  /**
   * One TXT line: `" ".join` of the optional `[start --> end]`, the optional
   * `speaker:` and the text.
   */
  function TxtLine(seg: Segment, includeTimestamps: bool, includeSpeakers: bool): string
  {
    TxtStamps(seg, includeTimestamps)
    + (if includeSpeakers && seg.speaker.Some? then seg.speaker.value + ": " else "")
    + seg.text
  }

  /** The `[start --> end] ` part of a TXT line, empty without timestamps. */
  function TxtStamps(seg: Segment, includeTimestamps: bool): string
  {
    if includeTimestamps then "[" + Stamp(seg.start, '.') + " --> " + Stamp(seg.end, '.') + "] " else ""
  }

  function TxtLines(segs: seq<Segment>, includeTimestamps: bool, includeSpeakers: bool): (ls: seq<string>)
    ensures |ls| == |segs| && forall i :: 0 <= i < |segs| ==> ls[i] == TxtLine(segs[i], includeTimestamps, includeSpeakers)
  {
    seq(|segs|, i requires 0 <= i < |segs| => TxtLine(segs[i], includeTimestamps, includeSpeakers))
  }

  /** `export_txt`: the file content, or the validation error before anything is written. */
  method ExportTxt(segs: seq<Segment>, includeTimestamps: bool, includeSpeakers: bool) returns (r: Result<string>)
    ensures ValidateTyped(segs).Some? ==> r == Err(ValueError(ValidateTyped(segs).value))
    ensures ValidateTyped(segs).None? ==> r == Ok(Lines(TxtLines(segs, includeTimestamps, includeSpeakers)))
  {
    var err := ValidateSegments(EncodeAll(segs));
    ValidateEncoded(segs);
    if err.Some? {
      return Err(ValueError(err.value));
    }
    var out := "";
    var i := 0;
    while i < |segs|
      invariant 0 <= i <= |segs|
      invariant out == Lines(TxtLines(segs[..i], includeTimestamps, includeSpeakers))
    {
      var line := TxtLine(segs[i], includeTimestamps, includeSpeakers);
      TxtLinesStep(segs, i, includeTimestamps, includeSpeakers);
      out := out + line + "\n";
      i := i + 1;
    }
    assert segs[..i] == segs;
    return Ok(out);
  }

  /** One more segment adds its line to the text file. */
  lemma TxtLinesStep(segs: seq<Segment>, i: nat, includeTimestamps: bool, includeSpeakers: bool)
    requires i < |segs|
    ensures Lines(TxtLines(segs[..i + 1], includeTimestamps, includeSpeakers))
      == Lines(TxtLines(segs[..i], includeTimestamps, includeSpeakers)) + TxtLine(segs[i], includeTimestamps, includeSpeakers) + "\n"
  {
    var line := TxtLine(segs[i], includeTimestamps, includeSpeakers);
    LinesStep(TxtLines(segs[..i], includeTimestamps, includeSpeakers), [line]);
    assert TxtLines(segs[..i + 1], includeTimestamps, includeSpeakers)
      == TxtLines(segs[..i], includeTimestamps, includeSpeakers) + [line];
  }

  /** `Lines` of a sequence extended by some lines. */
  lemma LinesStep(a: seq<string>, b: seq<string>)
    ensures Lines(a + b) == Lines(a) + Lines(b)
  {
    LinesAppend(a, b);
  }

  /** `Lines` of a list extended by one line. */
  lemma LinesSnoc(ls: seq<string>, x: string)
    ensures Lines(ls + [x]) == Lines(ls) + x + "\n"
  {
    assert (ls + [x])[..|ls|] == ls;
  }

  /** `x` then a newline then a blank line's newline is `x` followed by "\n\n". */
  lemma BlankLineAfter(x: string)
    ensures x + "\n" + "" + "\n" == x + "\n\n"
  {
    assert x + "\n" + "" == x + "\n";
  }

  /** The lines `b`, `c` and a blank line. */
  lemma LinesOfThree(b: string, c: string)
    ensures Lines([b, c, ""]) == b + "\n" + c + "\n\n"
  {
    LinesSnoc([], b);
    assert [] + [b] == [b];
    assert "" + b == b;
    LinesSnoc([b], c);
    assert [b] + [c] == [b, c];
    LinesSnoc([b, c], "");
    assert [b, c] + [""] == [b, c, ""];
    BlankLineAfter(b + "\n" + c);
  }

  /** The lines `a`, `b`, `c` and a blank line. */
  lemma LinesOfFour(a: string, b: string, c: string)
    ensures Lines([a, b, c, ""]) == a + "\n" + b + "\n" + c + "\n\n"
  {
    LinesSnoc([], a);
    assert [] + [a] == [a];
    assert "" + a == a;
    LinesSnoc([a], b);
    assert [a] + [b] == [a, b];
    LinesSnoc([a, b], c);
    assert [a, b] + [c] == [a, b, c];
    LinesSnoc([a, b, c], "");
    assert [a, b, c] + [""] == [a, b, c, ""];
    BlankLineAfter(a + "\n" + b + "\n" + c);
  }

  /** The WebVTT header lines. */
  lemma LinesOfHeader()
    ensures Lines(VttHeader) == "WEBVTT\n\n"
  {
    LinesSnoc([], "WEBVTT");
    assert [] + ["WEBVTT"] == ["WEBVTT"];
    LinesSnoc(["WEBVTT"], "");
    assert ["WEBVTT"] + [""] == VttHeader;
  }

  /** Digits, ':' and the separator: a stamp never holds a newline. */
  lemma StampHasNoNewline(x: real, sep: char)
    requires x >= 0.0 && sep != '\n'
    ensures '\n' !in Stamp(x, sep)
  {
    var f := ClockFields(x);
    FormatIntNoNewline(f.0, 2);
    FormatIntNoNewline(f.1, 2);
    FormatIntNoNewline(f.2, 2);
    FormatIntNoNewline(Millis(x), 3);
  }

  /** Newline-free texts and speakers: the TXT file splits into one line per segment. */
  lemma TxtReadsBackLineBySegment(segs: seq<Segment>, includeTimestamps: bool, includeSpeakers: bool)
    requires forall i :: 0 <= i < |segs| ==> 0.0 <= segs[i].start <= segs[i].end
    requires forall i :: 0 <= i < |segs| ==> '\n' !in segs[i].text && (segs[i].speaker.Some? ==> '\n' !in segs[i].speaker.value)
    ensures Split(Lines(TxtLines(segs, includeTimestamps, includeSpeakers)), "\n")
      == TxtLines(segs, includeTimestamps, includeSpeakers) + [""]
  {
    var ls := TxtLines(segs, includeTimestamps, includeSpeakers);
    forall i | 0 <= i < |ls|
      ensures '\n' !in ls[i]
    {
      TxtLineHasNoNewline(segs[i], includeTimestamps, includeSpeakers);
    }
    SplitLines(ls);
  }

  lemma TxtLineHasNoNewline(seg: Segment, includeTimestamps: bool, includeSpeakers: bool)
    requires 0.0 <= seg.start <= seg.end
    requires '\n' !in seg.text && (seg.speaker.Some? ==> '\n' !in seg.speaker.value)
    ensures '\n' !in TxtLine(seg, includeTimestamps, includeSpeakers)
  {
    TxtStampsHaveNoNewline(seg, includeTimestamps);
  }

  lemma TxtStampsHaveNoNewline(seg: Segment, includeTimestamps: bool)
    requires 0.0 <= seg.start <= seg.end
    ensures '\n' !in TxtStamps(seg, includeTimestamps)
  {
    StampHasNoNewline(seg.start, '.');
    StampHasNoNewline(seg.end, '.');
  }

  // -----------------------------------------------------------------------
  // SRT
  // -----------------------------------------------------------------------

  /** The timing line `start --> end` (the stamps of `format_timestamp_srt`). */
  function SrtTiming(seg: Segment): string
  {
    Stamp(seg.start, ',') + " --> " + Stamp(seg.end, ',')
  }

  /** The payload: `speaker: text` when speakers are shown and present, else the text. */
  function SrtPayload(seg: Segment, includeSpeakers: bool): string
  {
    if includeSpeakers && seg.speaker.Some? then seg.speaker.value + ": " + seg.text else seg.text
  }

  /** The lines of SRT block `n`: its number, its timing, its payload, a blank line. */
  function SrtBlock(n: nat, seg: Segment, includeSpeakers: bool): seq<string>
  {
    [IntToString(n), SrtTiming(seg), SrtPayload(seg, includeSpeakers), ""]
  }

  /** The three writes of one block: `f"{i}\n"`, the timing line, `f"{text}\n\n"`. */
  function SrtBlockText(n: nat, seg: Segment, includeSpeakers: bool): string
  {
    IntToString(n) + "\n" + SrtTiming(seg) + "\n" + SrtPayload(seg, includeSpeakers) + "\n\n"
  }

  /** The block-building function of an SRT file. */
  function SrtBlockOf(includeSpeakers: bool): (nat, Segment) -> seq<string>
  {
    (n: nat, seg: Segment) => SrtBlock(n, seg, includeSpeakers)
  }

  function SrtLines(segs: seq<Segment>, includeSpeakers: bool): (ls: seq<string>)
  {
    Blocks(segs, SrtBlockOf(includeSpeakers))
  }

  /** Lines `4k .. 4k+3` of an SRT file are block `k + 1`: blocks are numbered from 1 in order. */
  lemma SrtLinesBlocks(segs: seq<Segment>, includeSpeakers: bool)
    ensures |SrtLines(segs, includeSpeakers)| == 4 * |segs|
    ensures forall k :: 0 <= k < |segs| ==>
      SrtLines(segs, includeSpeakers)[4 * k .. 4 * k + 4] == SrtBlock(k + 1, segs[k], includeSpeakers)
  {
    var block := SrtBlockOf(includeSpeakers);
    assert forall n, x :: |block(n, x)| == 4;
    Blocks4(segs, block);
    forall k | 0 <= k < |segs|
      ensures SrtLines(segs, includeSpeakers)[4 * k .. 4 * k + 4] == SrtBlock(k + 1, segs[k], includeSpeakers)
    {
      assert block(k + 1, segs[k]) == SrtBlock(k + 1, segs[k], includeSpeakers);
    }
  }

  lemma SrtStep(segs: seq<Segment>, i: nat, includeSpeakers: bool)
    requires i < |segs|
    ensures Lines(SrtLines(segs[..i + 1], includeSpeakers))
      == Lines(SrtLines(segs[..i], includeSpeakers)) + SrtBlockText(i + 1, segs[i], includeSpeakers)
  {
    assert segs[..i + 1][..i] == segs[..i];
    assert SrtLines(segs[..i + 1], includeSpeakers) == SrtLines(segs[..i], includeSpeakers) + SrtBlock(i + 1, segs[i], includeSpeakers);
    LinesPlusBlock(SrtLines(segs[..i], includeSpeakers), IntToString(i + 1), SrtTiming(segs[i]), SrtPayload(segs[i], includeSpeakers));
  }

  /** Appending a block of three lines and a blank line writes them with their newlines. */
  lemma LinesPlusBlock(p: seq<string>, a: string, b: string, c: string)
    ensures Lines(p + [a, b, c, ""]) == Lines(p) + (a + "\n" + b + "\n" + c + "\n\n")
  {
    LinesAppend(p, [a, b, c, ""]);
    LinesOfFour(a, b, c);
  }

  /** Appending two lines and a blank line writes them with their newlines. */
  lemma LinesPlusThree(p: seq<string>, b: string, c: string)
    ensures Lines(p + [b, c, ""]) == Lines(p) + (b + "\n" + c + "\n\n")
  {
    LinesAppend(p, [b, c, ""]);
    LinesOfThree(b, c);
  }

  /** `export_srt`. */
  method ExportSrt(segs: seq<Segment>, includeSpeakers: bool) returns (r: Result<string>)
    ensures ValidateTyped(segs).Some? ==> r == Err(ValueError(ValidateTyped(segs).value))
    ensures ValidateTyped(segs).None? ==> r == Ok(Lines(SrtLines(segs, includeSpeakers)))
  {
    var err := ValidateSegments(EncodeAll(segs));
    ValidateEncoded(segs);
    if err.Some? {
      return Err(ValueError(err.value));
    }
    var out := "";
    var i := 0;
    while i < |segs|
      invariant 0 <= i <= |segs|
      invariant out == Lines(SrtLines(segs[..i], includeSpeakers))
    {
      SrtStep(segs, i, includeSpeakers);
      out := out + SrtBlockText(i + 1, segs[i], includeSpeakers);
      i := i + 1;
    }
    assert segs[..i] == segs;
    return Ok(out);
  }

  // -----------------------------------------------------------------------
  // WebVTT
  // -----------------------------------------------------------------------

  /** The timing line `start --> end` (the stamps of `format_timestamp_vtt`). */
  function VttTiming(seg: Segment): string
  {
    Stamp(seg.start, '.') + " --> " + Stamp(seg.end, '.')
  }

  /** The lines of one cue: the speaker (when shown), the timing line, the text, a blank line. */
  function VttCue(seg: Segment, includeSpeakers: bool): seq<string>
  {
    if includeSpeakers && seg.speaker.Some? then [seg.speaker.value, VttTiming(seg), seg.text, ""]
    else [VttTiming(seg), seg.text, ""]
  }

  /** The writes of one cue. */
  function VttCueText(seg: Segment, includeSpeakers: bool): string
  {
    if includeSpeakers && seg.speaker.Some? then seg.speaker.value + "\n" + VttTiming(seg) + "\n" + seg.text + "\n\n"
    else VttTiming(seg) + "\n" + seg.text + "\n\n"
  }

  function VttCues(segs: seq<Segment>, includeSpeakers: bool): seq<string>
  {
    if segs == [] then []
    else VttCues(segs[..|segs| - 1], includeSpeakers) + VttCue(segs[|segs| - 1], includeSpeakers)
  }

  /** The header block: the signature line and a blank line. */
  const VttHeader: seq<string> := ["WEBVTT", ""]

  lemma VttStep(segs: seq<Segment>, i: nat, includeSpeakers: bool)
    requires i < |segs|
    ensures Lines(VttHeader + VttCues(segs[..i + 1], includeSpeakers))
      == Lines(VttHeader + VttCues(segs[..i], includeSpeakers)) + VttCueText(segs[i], includeSpeakers)
  {
    var seg := segs[i];
    var p := VttHeader + VttCues(segs[..i], includeSpeakers);
    assert VttCues(segs[..i + 1], includeSpeakers) == VttCues(segs[..i], includeSpeakers) + VttCue(seg, includeSpeakers) by {
      assert segs[..i + 1][..i] == segs[..i];
    }
    AppendAssoc(VttHeader, VttCues(segs[..i], includeSpeakers), VttCue(seg, includeSpeakers));
    if includeSpeakers && seg.speaker.Some? {
      LinesPlusBlock(p, seg.speaker.value, VttTiming(seg), seg.text);
    } else {
      LinesPlusThree(p, VttTiming(seg), seg.text);
    }
  }

  lemma AppendAssoc<T>(a: seq<T>, b: seq<T>, c: seq<T>)
    ensures a + (b + c) == (a + b) + c
  {
  }

  /** Every WebVTT file opens with the signature line and a blank line. */
  lemma VttStartsWithHeader(cues: seq<string>)
    ensures var out := Lines(VttHeader + cues);
      |out| >= 8 && out[..8] == "WEBVTT\n\n"
  {
    LinesAppend(VttHeader, cues);
    LinesOfHeader();
  }

  /** `export_vtt`. */
  method ExportVtt(segs: seq<Segment>, includeSpeakers: bool) returns (r: Result<string>)
    ensures ValidateTyped(segs).Some? ==> r == Err(ValueError(ValidateTyped(segs).value))
    ensures ValidateTyped(segs).None? ==> r == Ok(Lines(VttHeader + VttCues(segs, includeSpeakers)))
    ensures r.Ok? ==> |r.value| >= 8 && r.value[..8] == "WEBVTT\n\n"
  {
    var err := ValidateSegments(EncodeAll(segs));
    ValidateEncoded(segs);
    if err.Some? {
      return Err(ValueError(err.value));
    }
    var out := WriteVtt(segs, includeSpeakers);
    VttStartsWithHeader(VttCues(segs, includeSpeakers));
    return Ok(out);
  }

  /** The writes of `export_vtt` once the segments are valid: the header, then one cue per segment. */
  method WriteVtt(segs: seq<Segment>, includeSpeakers: bool) returns (out: string)
    ensures out == Lines(VttHeader + VttCues(segs, includeSpeakers))
  {
    out := "WEBVTT\n\n";
    LinesOfHeader();
    assert VttHeader + VttCues(segs[..0], includeSpeakers) == VttHeader;
    var i := 0;
    while i < |segs|
      invariant 0 <= i <= |segs|
      invariant out == Lines(VttHeader + VttCues(segs[..i], includeSpeakers))
    {
      VttStep(segs, i, includeSpeakers);
      out := out + VttCueText(segs[i], includeSpeakers);
      i := i + 1;
    }
    assert segs[..i] == segs;
  }

  // -----------------------------------------------------------------------
  // JSON
  // -----------------------------------------------------------------------

  /** One exported segment: start, end, text, `speaker` when present, `words` when wanted and present. */
  function JsonEntry(seg: Segment, includeWords: bool): (j: Json)
    ensures j.JObj?
    ensures j.fields.Keys == {"start", "end", "text"}
      + (if seg.speaker.Some? then {"speaker"} else {})
      + (if includeWords && seg.words.Some? then {"words"} else {})
  {
    var base := map["start" := JNum(seg.start), "end" := JNum(seg.end), "text" := JStr(seg.text)];
    var withSpeaker := if seg.speaker.Some? then base["speaker" := JStr(seg.speaker.value)] else base;
    JObj(if includeWords && seg.words.Some? then withSpeaker["words" := JList(seg.words.value)] else withSpeaker)
  }

  /** Reads an exported entry back into a segment. */
  function DecodeEntry(j: Json): Option<Segment>
  {
    if !j.JObj? then None
    else
      var f := j.fields;
      if "start" !in f || "end" !in f || "text" !in f then None
      else if !f["start"].JNum? || !f["end"].JNum? || !f["text"].JStr? then None
      else if "speaker" in f && !f["speaker"].JStr? then None
      else if "words" in f && !f["words"].JList? then None
      else Some(Segment(f["start"].n, f["end"].n, f["text"].s,
                        if "speaker" in f then Some(f["speaker"].s) else None,
                        if "words" in f then Some(f["words"].items) else None))
  }

  /** An exported entry reads back as the segment, without its words when they were left out. */
  lemma JsonEntryRoundTrip(seg: Segment, includeWords: bool)
    ensures DecodeEntry(JsonEntry(seg, includeWords))
      == Some(if includeWords then seg else seg.(words := None))
  {
    var j := JsonEntry(seg, includeWords);
    assert j.fields["start"] == JNum(seg.start) && j.fields["end"] == JNum(seg.end);
    assert j.fields["text"] == JStr(seg.text);
    assert seg.speaker.Some? ==> j.fields["speaker"] == JStr(seg.speaker.value);
    assert includeWords && seg.words.Some? ==> j.fields["words"] == JList(seg.words.value);
  }

  /** `{"segments": [...]}` as `export_json` dumps it. */
  method ExportJson(segs: seq<Segment>, includeWords: bool) returns (r: Result<Json>)
    ensures ValidateTyped(segs).Some? ==> r == Err(ValueError(ValidateTyped(segs).value))
    ensures ValidateTyped(segs).None? ==>
      && r.Ok? && r.value.JObj? && r.value.fields.Keys == {"segments"}
      && r.value.fields["segments"].JList?
      && |r.value.fields["segments"].items| == |segs|
      && forall i :: 0 <= i < |segs| ==> r.value.fields["segments"].items[i] == JsonEntry(segs[i], includeWords)
  {
    var err := ValidateSegments(EncodeAll(segs));
    ValidateEncoded(segs);
    if err.Some? {
      return Err(ValueError(err.value));
    }
    var entries := JsonEntries(segs, includeWords);
    return Ok(JObj(map["segments" := JList(entries)]));
  }

  /** The list comprehension of `export_json`: one entry per segment, in order. */
  method JsonEntries(segs: seq<Segment>, includeWords: bool) returns (entries: seq<Json>)
    ensures |entries| == |segs|
    ensures forall i :: 0 <= i < |segs| ==> entries[i] == JsonEntry(segs[i], includeWords)
  {
    entries := [];
    var i := 0;
    while i < |segs|
      invariant 0 <= i <= |segs| && |entries| == i
      invariant forall k :: 0 <= k < i ==> entries[k] == JsonEntry(segs[k], includeWords)
    {
      entries := entries + [JsonEntry(segs[i], includeWords)];
      i := i + 1;
    }
  }

  // -----------------------------------------------------------------------
  // export_all
  // -----------------------------------------------------------------------

  /** What an exporter writes: text, or a JSON document. */
  datatype Content = Text(text: string) | Document(doc: Json)

  const DefaultFormats: seq<string> := ["txt", "srt", "vtt", "json"]

  predicate KnownFormat(fmt: string) { fmt in {"txt", "srt", "vtt", "json"} }

  /** The formats asked for, or all four when `formats` is `None`; an empty list stays empty. */
  function Requested(formats: Option<seq<string>>): seq<string>
  {
    formats.GetOr(DefaultFormats)
  }

  /** Index of the first format without a handler, if any. */
  function FirstUnknown(formats: seq<string>): (k: Option<nat>)
    ensures k.None? <==> forall i :: 0 <= i < |formats| ==> KnownFormat(formats[i])
    ensures k.Some? ==> k.value < |formats| && !KnownFormat(formats[k.value])
    ensures k.Some? ==> forall i :: 0 <= i < k.value ==> KnownFormat(formats[i])
  {
    if formats == [] then None
    else if !KnownFormat(formats[0]) then Some(0)
    else
      var rest := FirstUnknown(formats[1..]);
      assert forall i :: 1 <= i < |formats| ==> formats[1..][i - 1] == formats[i];
      if rest.None? then None else Some(rest.value + 1)
  }

  /** The content each handler writes, with its default options, for valid segments. */
  function Render(fmt: string, segs: seq<Segment>): Content
    requires KnownFormat(fmt)
  {
    if fmt == "txt" then Text(Lines(TxtLines(segs, true, true)))
    else if fmt == "srt" then Text(Lines(SrtLines(segs, true)))
    else if fmt == "vtt" then Text(Lines(VttHeader + VttCues(segs, true)))
    else Document(JObj(map["segments" := JList(seq(|segs|, i requires 0 <= i < |segs| => JsonEntry(segs[i], true)))]))
  }

  method Handle(fmt: string, segs: seq<Segment>) returns (r: Result<Content>)
    requires KnownFormat(fmt)
    ensures ValidateTyped(segs).Some? ==> r == Err(ValueError(ValidateTyped(segs).value))
    ensures ValidateTyped(segs).None? ==> r == Ok(Render(fmt, segs))
  {
    if fmt == "txt" {
      var t := ExportTxt(segs, true, true);
      r := if t.Ok? then Ok(Text(t.value)) else Err(t.error);
    } else if fmt == "srt" {
      var t := ExportSrt(segs, true);
      r := if t.Ok? then Ok(Text(t.value)) else Err(t.error);
    } else if fmt == "vtt" {
      var t := ExportVtt(segs, true);
      r := if t.Ok? then Ok(Text(t.value)) else Err(t.error);
    } else {
      var t := ExportJson(segs, true);
      if t.Ok? {
        assert t.value == JObj(map["segments" := t.value.fields["segments"]]);
        assert t.value.fields["segments"].items == seq(|segs|, i requires 0 <= i < |segs| => JsonEntry(segs[i], true));
      }
      r := if t.Ok? then Ok(Document(t.value)) else Err(t.error);
    }
  }

  /** `output_dir / f"{base_name}{extension}"`, as a function of the format. */
  function PathOf(outputDir: string, baseName: string): string -> string
  {
    fmt => Paths.JoinPath(outputDir, baseName + "." + fmt)
  }

  /** The `{format: path}` dictionary after writing `fs` in order. */
  function FilesMap(fs: seq<string>, path: string -> string): map<string, string>
  {
    if fs == [] then map[] else FilesMap(fs[..|fs| - 1], path)[fs[|fs| - 1] := path(fs[|fs| - 1])]
  }

  lemma FilesMapStep(fs: seq<string>, i: nat, path: string -> string)
    requires i < |fs|
    ensures FilesMap(fs[..i + 1], path) == FilesMap(fs[..i], path)[fs[i] := path(fs[i])]
  {
    assert fs[..i + 1][..i] == fs[..i];
  }

  /** The dictionary has one key per format named, each mapped to its own path. */
  lemma {:induction false} FilesMapKeys(fs: seq<string>, path: string -> string)
    ensures FilesMap(fs, path).Keys == (set i | 0 <= i < |fs| :: fs[i])
    ensures forall f :: f in FilesMap(fs, path) ==> FilesMap(fs, path)[f] == path(f)
  {
    if fs != [] {
      var init := fs[..|fs| - 1];
      FilesMapKeys(init, path);
      assert (set i | 0 <= i < |fs| :: fs[i]) == (set i | 0 <= i < |init| :: init[i]) + {fs[|fs| - 1]};
    }
  }

  /**
   * The loop of `export_all`: writes the formats in order and stops at the
   * first unknown format or the first handler that raises; `|written|` is
   * where it stopped.
   */
  method WriteFormats(segs: seq<Segment>, fs: seq<string>, path: string -> string)
    returns (written: seq<(string, Content)>, outputFiles: map<string, string>, err: Option<Error>)
    ensures |written| <= |fs|
    ensures forall k :: 0 <= k < |written| ==> KnownFormat(fs[k]) && written[k] == (path(fs[k]), Render(fs[k], segs))
    ensures outputFiles == FilesMap(fs[..|written|], path)
    ensures |written| > 0 ==> ValidateTyped(segs).None?
    ensures err.None? <==> |written| == |fs|
    ensures err.Some? && !KnownFormat(fs[|written|]) ==> err == Some(ValueError("Unknown format: " + fs[|written|]))
    ensures err.Some? && KnownFormat(fs[|written|]) ==>
      ValidateTyped(segs).Some? && err == Some(ValueError(ValidateTyped(segs).value))
  {
    written, outputFiles, err := [], map[], None;
    var i := 0;
    while i < |fs|
      invariant 0 <= i <= |fs| && |written| == i
      invariant forall k :: 0 <= k < i ==> KnownFormat(fs[k]) && written[k] == (path(fs[k]), Render(fs[k], segs))
      invariant i > 0 ==> ValidateTyped(segs).None?
      invariant outputFiles == FilesMap(fs[..i], path)
    {
      var fmt := fs[i];
      if !KnownFormat(fmt) {
        return written, outputFiles, Some(ValueError("Unknown format: " + fmt));
      }
      var content := Handle(fmt, segs);
      if content.Err? {
        return written, outputFiles, Some(content.error);
      }
      FilesMapStep(fs, i, path);
      written := written + [(path(fmt), content.value)];
      outputFiles := outputFiles[fmt := path(fmt)];
      i := i + 1;
    }
  }

  /**
   * `export_all`: writes each format in turn to `output_dir/base_name.ext`
   * (all four when no list is given). Returns the files written in order,
   * the `{format: path}` result and the exception, if any.
   */
  method ExportAll(segs: seq<Segment>, outputDir: string, baseName: string, formats: Option<seq<string>>)
    returns (written: seq<(string, Content)>, outputFiles: map<string, string>, err: Option<Error>)
    ensures |written| <= |Requested(formats)|
    ensures forall k :: 0 <= k < |written| ==>
      && KnownFormat(Requested(formats)[k])
      && written[k] == (PathOf(outputDir, baseName)(Requested(formats)[k]), Render(Requested(formats)[k], segs))
    ensures FirstUnknown(Requested(formats)).None? && ValidateTyped(segs).None? ==>
      && err.None? && |written| == |Requested(formats)|
      && outputFiles == FilesMap(Requested(formats), PathOf(outputDir, baseName))
    ensures FirstUnknown(Requested(formats)).Some? && (ValidateTyped(segs).None? || FirstUnknown(Requested(formats)).value == 0) ==>
      && err == Some(ValueError("Unknown format: " + Requested(formats)[FirstUnknown(Requested(formats)).value]))
      && |written| == FirstUnknown(Requested(formats)).value
    ensures ValidateTyped(segs).Some? && Requested(formats) != [] && KnownFormat(Requested(formats)[0]) ==>
      err == Some(ValueError(ValidateTyped(segs).value)) && written == []
  {
    var fs := formats.GetOr(DefaultFormats);
    written, outputFiles, err := WriteFormats(segs, fs, PathOf(outputDir, baseName));
    var n := |written|;
    if n < |fs| && !KnownFormat(fs[n]) {
      assert FirstUnknown(fs) == Some(n);
    }
    if err.None? {
      assert fs[..n] == fs;
    }
  }
}
