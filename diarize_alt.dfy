/**
 * The deterministic half of the embedding-clustering diarizer: turning
 * per-window speaker labels into speaker turns, merging close turns of
 * one speaker (in place, through the references the merged list holds),
 * and giving every transcript segment the speaker it overlaps most.
 */
module DiarizeAlt {
  import opened Base
  import opened Strings
  import opened Segments

  /** A speaker turn dictionary: `{"start", "end", "speaker"}`. */
  datatype Turn = Turn(start: real, end: real, speaker: string)

  /** The diarizer's settings used here. */
  datatype DiarizerConfig = DiarizerConfig(windowSize: real, minSegmentDuration: real)

  function Max(a: real, b: real): real { if a >= b then a else b }

  function Min(a: real, b: real): real { if a <= b then a else b }

  // ---------------------------------------------------------------------
  // _create_segments
  // ---------------------------------------------------------------------

  /** `f"SPEAKER_{label:02d}"`. */
  function SpeakerLabel(l: int): string
  {
    "SPEAKER_" + FormatInt(l, 2)
  }

  /** Different cluster labels get different speaker names. */
  lemma SpeakerLabelInjective(a: int, b: int)
    requires SpeakerLabel(a) == SpeakerLabel(b)
    ensures a == b
  {
    assert FormatInt(a, 2) == SpeakerLabel(a)[8..];
    assert FormatInt(b, 2) == SpeakerLabel(b)[8..];
    FormatIntInjective(a, b, 2);
  }

  /** The number of windows in `[lo, hi)` whose label differs from the window before. */
  function ChangeCount(labels: seq<int>, lo: nat, hi: nat): nat
    requires 1 <= lo <= hi <= |labels|
    decreases hi - lo
  {
    if lo == hi then 0
    else (if labels[lo] != labels[lo - 1] then 1 else 0) + ChangeCount(labels, lo + 1, hi)
  }

  /** The boundary at a change window: halfway between its centre and the previous one's. */
  function Mid(ts: seq<real>, i: nat): real
    requires 1 <= i < |ts|
  {
    (ts[i - 1] + ts[i]) / 2.0
  }

  /**
   * The turns from window `i` on, the open turn having started at `start`
   * with the label of window `i - 1`; `name` spells a label as a speaker.
   */
  function TurnsFrom(ts: seq<real>, labels: seq<int>, i: nat, start: real, duration: real, w: real,
                     name: int -> string): seq<Turn>
    requires 1 <= i <= |ts| == |labels|
    decreases |ts| - i
  {
    if i == |ts| then [Turn(start, Min(duration, ts[|ts| - 1] + w / 2.0), name(labels[i - 1]))]
    else if labels[i] != labels[i - 1] then
      [Turn(start, Mid(ts, i), name(labels[i - 1]))] + TurnsFrom(ts, labels, i + 1, Mid(ts, i), duration, w, name)
    else TurnsFrom(ts, labels, i + 1, start, duration, w, name)
  }

  /** `_create_segments`: one turn per run of equal labels. */
  function CreateSegments(ts: seq<real>, labels: seq<int>, duration: real, w: real): seq<Turn>
    requires |ts| == |labels|
  {
    if ts == [] then [] else TurnsFrom(ts, labels, 1, Max(0.0, ts[0] - w / 2.0), duration, w, SpeakerLabel)
  }

  /**
   * The turns from window `i` on: one more than the label changes ahead,
   * the first opening at `start` with the label of window `i - 1`, the
   * last closing half a window after the last centre (not past the audio).
   */
  lemma {:induction false} TurnsFromShape(ts: seq<real>, labels: seq<int>, i: nat, start: real, duration: real, w: real,
                                          name: int -> string)
    requires 1 <= i <= |ts| == |labels|
    ensures |TurnsFrom(ts, labels, i, start, duration, w, name)| == 1 + ChangeCount(labels, i, |ts|)
    ensures TurnsFrom(ts, labels, i, start, duration, w, name)[0].start == start
    ensures TurnsFrom(ts, labels, i, start, duration, w, name)[0].speaker == name(labels[i - 1])
    ensures Last(TurnsFrom(ts, labels, i, start, duration, w, name)).end == Min(duration, ts[|ts| - 1] + w / 2.0)
    decreases |ts| - i
  {
    if i < |ts| {
      if labels[i] != labels[i - 1] {
        TurnsFromShape(ts, labels, i + 1, Mid(ts, i), duration, w, name);
      } else {
        TurnsFromShape(ts, labels, i + 1, start, duration, w, name);
      }
    }
  }

  /** Each turn ends where the next one starts. */
  lemma {:induction false} TurnsFromContiguous(ts: seq<real>, labels: seq<int>, i: nat, start: real, duration: real, w: real,
                                               name: int -> string)
    requires 1 <= i <= |ts| == |labels|
    ensures Contiguous(TurnsFrom(ts, labels, i, start, duration, w, name))
    decreases |ts| - i
  {
    if i < |ts| {
      if labels[i] != labels[i - 1] {
        TurnsFromContiguous(ts, labels, i + 1, Mid(ts, i), duration, w, name);
        TurnsFromShape(ts, labels, i + 1, Mid(ts, i), duration, w, name);
        var t := TurnsFrom(ts, labels, i + 1, Mid(ts, i), duration, w, name);
        var r := TurnsFrom(ts, labels, i, start, duration, w, name);
        assert r == [Turn(start, Mid(ts, i), name(labels[i - 1]))] + t;
        forall k | 0 <= k < |r| - 1
          ensures r[k].end == r[k + 1].start
        {
          if k > 0 {
            assert r[k] == t[k - 1] && r[k + 1] == t[k];
          }
        }
      } else {
        TurnsFromContiguous(ts, labels, i + 1, start, duration, w, name);
      }
    }
  }

  /** When `name` tells labels apart, no two neighbouring turns share a speaker. */
  lemma {:induction false} TurnsFromAlternating(ts: seq<real>, labels: seq<int>, i: nat, start: real, duration: real, w: real,
                                                name: int -> string)
    requires 1 <= i <= |ts| == |labels|
    requires forall a, b :: name(a) == name(b) ==> a == b
    ensures Alternating(TurnsFrom(ts, labels, i, start, duration, w, name))
    decreases |ts| - i
  {
    if i < |ts| {
      if labels[i] != labels[i - 1] {
        TurnsFromAlternating(ts, labels, i + 1, Mid(ts, i), duration, w, name);
        TurnsFromShape(ts, labels, i + 1, Mid(ts, i), duration, w, name);
        var t := TurnsFrom(ts, labels, i + 1, Mid(ts, i), duration, w, name);
        var r := TurnsFrom(ts, labels, i, start, duration, w, name);
        assert r == [Turn(start, Mid(ts, i), name(labels[i - 1]))] + t;
        forall k | 0 <= k < |r| - 1
          ensures r[k].speaker != r[k + 1].speaker
        {
          if k > 0 {
            assert r[k] == t[k - 1] && r[k + 1] == t[k];
          }
        }
      } else {
        TurnsFromAlternating(ts, labels, i + 1, start, duration, w, name);
      }
    }
  }

  function Last(r: seq<Turn>): Turn
    requires r != []
  {
    r[|r| - 1]
  }

  /** Each turn ends where the next one starts. */
  predicate Contiguous(r: seq<Turn>)
  {
    forall k :: 0 <= k < |r| - 1 ==> r[k].end == r[k + 1].start
  }

  /** No two neighbouring turns share a speaker. */
  predicate Alternating(r: seq<Turn>)
  {
    forall k :: 0 <= k < |r| - 1 ==> r[k].speaker != r[k + 1].speaker
  }

  /**
   * `_create_segments` tiles the stretch from half a window before the
   * first centre (not before 0) to half a window after the last (not past
   * the audio) with one turn per run of equal labels.
   */
  lemma CreateSegmentsTurns(ts: seq<real>, labels: seq<int>, duration: real, w: real)
    requires |ts| == |labels|
    ensures var r := CreateSegments(ts, labels, duration, w);
      && (ts == [] <==> r == [])
      && (ts != [] ==>
        && |r| == 1 + ChangeCount(labels, 1, |ts|)
        && r[0].start == Max(0.0, ts[0] - w / 2.0) && r[0].speaker == SpeakerLabel(labels[0])
        && Last(r).end == Min(duration, ts[|ts| - 1] + w / 2.0)
        && Contiguous(r) && Alternating(r))
  {
    if ts != [] {
      forall a, b | SpeakerLabel(a) == SpeakerLabel(b)
        ensures a == b
      {
        SpeakerLabelInjective(a, b);
      }
      TurnsFromShape(ts, labels, 1, Max(0.0, ts[0] - w / 2.0), duration, w, SpeakerLabel);
      TurnsFromContiguous(ts, labels, 1, Max(0.0, ts[0] - w / 2.0), duration, w, SpeakerLabel);
      TurnsFromAlternating(ts, labels, 1, Max(0.0, ts[0] - w / 2.0), duration, w, SpeakerLabel);
    }
  }

  /** The loop of `_create_segments`, closing a turn at each label change. */
  method CreateSegmentsLoop(ts: seq<real>, labels: seq<int>, duration: real, cfg: DiarizerConfig)
    returns (segments: seq<Turn>)
    requires |ts| == |labels|
    ensures segments == CreateSegments(ts, labels, duration, cfg.windowSize)
  {
    segments := [];
    if |ts| == 0 {
      return;
    }
    var w := cfg.windowSize;
    var currentSpeaker := labels[0];
    var segmentStart := Max(0.0, ts[0] - w / 2.0);
    var i := 1;
    while i < |ts|
      invariant 1 <= i <= |ts|
      invariant currentSpeaker == labels[i - 1]
      invariant segments + TurnsFrom(ts, labels, i, segmentStart, duration, w, SpeakerLabel) == CreateSegments(ts, labels, duration, w)
    {
      if labels[i] != currentSpeaker {
        var segmentEnd := (ts[i - 1] + ts[i]) / 2.0;
        segments := segments + [Turn(segmentStart, segmentEnd, SpeakerLabel(currentSpeaker))];
        currentSpeaker := labels[i];
        segmentStart := segmentEnd;
      }
      i := i + 1;
    }
    var segmentEnd := Min(duration, ts[|ts| - 1] + w / 2.0);
    segments := segments + [Turn(segmentStart, segmentEnd, SpeakerLabel(currentSpeaker))];
  }

  // ---------------------------------------------------------------------
  // _merge_segments
  // ---------------------------------------------------------------------

  /** A turn takes in the next one when the speaker is the same and the silence is under 0.5 s. */
  predicate Absorbs(last: Turn, seg: Turn)
  {
    seg.speaker == last.speaker && seg.start - last.end < 0.5
  }

  /** The merged list from the point where `cur` is its last entry and `rest` is unread. */
  function MergeFrom(cur: Turn, rest: seq<Turn>): (r: seq<Turn>)
    ensures 1 <= |r| <= 1 + |rest|
    ensures r[0].start == cur.start && r[0].speaker == cur.speaker
    decreases |rest|
  {
    if rest == [] then [cur]
    else if Absorbs(cur, rest[0]) then MergeFrom(cur.(end := rest[0].end), rest[1..])
    else [cur] + MergeFrom(rest[0], rest[1..])
  }

  /**
   * The input list, from the same point, once the loop is done: `cur` is
   * the dictionary the last merged entry refers to, `gap` the input turns
   * it has absorbed so far (left as they were) and `rest` the unread ones.
   */
  function AfterFrom(cur: Turn, gap: seq<Turn>, rest: seq<Turn>): (r: seq<Turn>)
    ensures |r| == 1 + |gap| + |rest|
    decreases |rest|
  {
    if rest == [] then [cur] + gap
    else if Absorbs(cur, rest[0]) then AfterFrom(cur.(end := rest[0].end), gap + [rest[0]], rest[1..])
    else [cur] + gap + AfterFrom(rest[0], [], rest[1..])
  }

  /** The list comprehension keeping turns at least `minDur` long. */
  function KeepLong(ts: seq<Turn>, minDur: real): (r: seq<Turn>)
    ensures |r| <= |ts|
    ensures forall k :: 0 <= k < |r| ==> r[k].end - r[k].start >= minDur && r[k] in ts
  {
    if ts == [] then []
    else (if ts[0].end - ts[0].start >= minDur then [ts[0]] else []) + KeepLong(ts[1..], minDur)
  }

  /** A turn is kept exactly when it is long enough. */
  lemma {:induction false} KeepLongExactly(ts: seq<Turn>, minDur: real, t: Turn)
    ensures t in KeepLong(ts, minDur) <==> t in ts && t.end - t.start >= minDur
  {
    if ts != [] {
      KeepLongExactly(ts[1..], minDur, t);
      assert ts == [ts[0]] + ts[1..];
    }
  }

  /** `_merge_segments` on the turns' values: the merged list, short turns dropped. */
  function MergeSegments(segs: seq<Turn>, minDur: real): seq<Turn>
  {
    if segs == [] then [] else KeepLong(MergeFrom(segs[0], segs[1..]), minDur)
  }

  /** The input turns as `_merge_segments` leaves them. */
  function InputAfterMerge(segs: seq<Turn>): (r: seq<Turn>)
    ensures |r| == |segs|
  {
    if segs == [] then [] else AfterFrom(segs[0], [], segs[1..])
  }

  /** No two neighbours could be merged: they differ in speaker or are at least 0.5 s apart. */
  predicate Separated(r: seq<Turn>)
  {
    forall k :: 0 <= k < |r| - 1 ==> !Absorbs(r[k], r[k + 1])
  }

  /** The merged list (before the length filter) has no neighbours left to merge. */
  lemma {:induction false} MergeFromSeparated(cur: Turn, rest: seq<Turn>)
    ensures Separated(MergeFrom(cur, rest))
    decreases |rest|
  {
    if rest != [] {
      if Absorbs(cur, rest[0]) {
        MergeFromSeparated(cur.(end := rest[0].end), rest[1..]);
      } else {
        MergeFromSeparated(rest[0], rest[1..]);
        var t := MergeFrom(rest[0], rest[1..]);
        var r := MergeFrom(cur, rest);
        assert r == [cur] + t;
        forall k | 0 <= k < |r| - 1
          ensures !Absorbs(r[k], r[k + 1])
        {
          if k > 0 {
            assert r[k] == t[k - 1] && r[k + 1] == t[k];
          }
        }
      }
    }
  }

  /**
   * `_merge_segments` leaves every input dictionary's start and speaker
   * alone, and the merged turns (before the length filter) are exactly the
   * dictionaries that opened a run, as they are left in the input list.
   */
  lemma {:induction false} AfterFromKeeps(cur: Turn, gap: seq<Turn>, rest: seq<Turn>)
    ensures var a := AfterFrom(cur, gap, rest); var all := [cur] + gap + rest;
      && (forall j :: 0 <= j < |all| ==> a[j].start == all[j].start && a[j].speaker == all[j].speaker)
      && (forall t :: t in MergeFrom(cur, rest) ==> t in a)
    decreases |rest|
  {
    var a := AfterFrom(cur, gap, rest);
    var all := [cur] + gap + rest;
    if rest == [] {
      assert a == all;
    } else if Absorbs(cur, rest[0]) {
      var cur' := cur.(end := rest[0].end);
      AfterFromKeeps(cur', gap + [rest[0]], rest[1..]);
      assert a == AfterFrom(cur', gap + [rest[0]], rest[1..]);
      var all' := [cur'] + (gap + [rest[0]]) + rest[1..];
      assert forall j :: 1 <= j < |all| ==> all'[j] == all[j];
    } else {
      AfterFromKeeps(rest[0], [], rest[1..]);
      var a' := AfterFrom(rest[0], [], rest[1..]);
      assert a == [cur] + gap + a';
      var all' := [rest[0]] + [] + rest[1..];
      forall j | 0 <= j < |all|
        ensures a[j].start == all[j].start && a[j].speaker == all[j].speaker
      {
        if j > |gap| {
          assert a[j] == a'[j - 1 - |gap|] && all[j] == all'[j - 1 - |gap|];
        }
      }
      forall t | t in MergeFrom(cur, rest) ensures t in a {
        assert MergeFrom(cur, rest) == [cur] + MergeFrom(rest[0], rest[1..]);
        if t != cur {
          assert t in a';
        }
      }
    }
  }

  /** The turns at the referenced positions. */
  function Refs(work: seq<Turn>, refs: seq<nat>): (r: seq<Turn>)
    requires forall k :: 0 <= k < |refs| ==> refs[k] < |work|
    ensures |r| == |refs| && forall k :: 0 <= k < |refs| ==> r[k] == work[refs[k]]
  {
    seq(|refs|, k requires 0 <= k < |refs| => work[refs[k]])
  }

  /**
   * The loop's state before reading turn `i`: `work` is the input list,
   * `refs` the positions the merged list refers to before its last entry,
   * which refers to position `last`; from there on the loop yields the
   * merged list and leaves the input as the specification says.
   */
  predicate MergeState(work: seq<Turn>, refs: seq<nat>, last: nat, i: nat, segments: seq<Turn>)
  {
    && 1 <= i <= |segments| && |work| == |segments| && last < i
    && (forall k :: 0 <= k < |refs| ==> refs[k] < last)
    && (forall j :: i <= j < |segments| ==> work[j] == segments[j])
    && Refs(work, refs) + MergeFrom(work[last], segments[i..]) == MergeFrom(segments[0], segments[1..])
    && work[..last] + AfterFrom(work[last], work[last + 1..i], segments[i..]) == InputAfterMerge(segments)
  }

  /**
   * `_merge_segments`: `merged` holds references to the input
   * dictionaries (here, their positions in `work`, the input list), and
   * extending the last merged turn writes its `end` into the input list.
   */
  method MergeSegmentsLoop(segments: seq<Turn>, cfg: DiarizerConfig)
    returns (merged: seq<Turn>, segmentsAfter: seq<Turn>)
    ensures merged == MergeSegments(segments, cfg.minSegmentDuration)
    ensures segmentsAfter == InputAfterMerge(segments)
  {
    if segments == [] {
      return [], [];
    }
    var work := segments;
    var refs: seq<nat> := [];
    var last: nat := 0;
    var i := 1;
    MergeStart(segments);
    while i < |segments|
      invariant MergeState(work, refs, last, i, segments)
      decreases |segments| - i
    {
      work, refs, last := MergeStep(work, refs, last, i, segments);
      i := i + 1;
    }
    MergeDone(work, refs, last, segments);
    merged := KeepLong(Refs(work, refs + [last]), cfg.minSegmentDuration);
    segmentsAfter := work;
  }

  lemma MergeStart(segments: seq<Turn>)
    requires segments != []
    ensures MergeState(segments, [], 0, 1, segments)
  {
    assert segments[1..1] == [] && segments[..0] == [];
  }

  /** Once every turn is read, the references are the merged list and `work` is the input as left. */
  lemma MergeDone(work: seq<Turn>, refs: seq<nat>, last: nat, segments: seq<Turn>)
    requires MergeState(work, refs, last, |segments|, segments)
    ensures forall k :: 0 <= k < |refs + [last]| ==> (refs + [last])[k] < |work|
    ensures Refs(work, refs + [last]) == MergeFrom(segments[0], segments[1..])
    ensures work == InputAfterMerge(segments)
  {
    assert segments[|segments|..] == [];
    assert Refs(work, refs + [last]) == Refs(work, refs) + [work[last]];
    assert work[..last] + [work[last]] + work[last + 1..|segments|] == work;
  }

  /** One pass of the loop: extend the last merged turn, or start a new one at `i`. */
  method MergeStep(work: seq<Turn>, refs: seq<nat>, last: nat, i: nat, ghost segments: seq<Turn>)
    returns (work': seq<Turn>, refs': seq<nat>, last': nat)
    requires MergeState(work, refs, last, i, segments) && i < |segments|
    ensures MergeState(work', refs', last', i + 1, segments)
  {
    var segment := work[i];
    var lastTurn := work[last];
    if segment.speaker == lastTurn.speaker && segment.start - lastTurn.end < 0.5 {
      MergeStepAbsorb(work, refs, last, i, segments);
      work', refs', last' := work[last := lastTurn.(end := segment.end)], refs, last;
    } else {
      MergeStepAppend(work, refs, last, i, segments);
      work', refs', last' := work, refs + [last], i;
    }
  }

  /** The loop step that extends the last merged turn. */
  lemma MergeStepAbsorb(work: seq<Turn>, refs: seq<nat>, last: nat, i: nat, segments: seq<Turn>)
    requires MergeState(work, refs, last, i, segments) && i < |segments|
    requires Absorbs(work[last], work[i])
    ensures MergeState(work[last := work[last].(end := work[i].end)], refs, last, i + 1, segments)
  {
    var cur' := work[last].(end := work[i].end);
    var work' := work[last := cur'];
    assert segments[i..] == [work[i]] + segments[i + 1..];
    assert Refs(work', refs) == Refs(work, refs);
    assert work'[..last] == work[..last];
    assert work'[last + 1..i + 1] == work[last + 1..i] + [work[i]];
  }

  /** The loop step that starts a new merged turn. */
  lemma MergeStepAppend(work: seq<Turn>, refs: seq<nat>, last: nat, i: nat, segments: seq<Turn>)
    requires MergeState(work, refs, last, i, segments) && i < |segments|
    requires !Absorbs(work[last], work[i])
    ensures MergeState(work, refs + [last], i, i + 1, segments)
  {
    assert segments[i..] == [work[i]] + segments[i + 1..];
    AppendRefs(work, refs, last, i, segments);
    AppendInput(work, last, i, segments);
  }

  lemma AppendRefs(work: seq<Turn>, refs: seq<nat>, last: nat, i: nat, segments: seq<Turn>)
    requires 1 <= i < |segments| && |work| == |segments| && last < i && work[i] == segments[i]
    requires forall k :: 0 <= k < |refs| ==> refs[k] < last
    requires !Absorbs(work[last], work[i])
    requires Refs(work, refs) + MergeFrom(work[last], segments[i..]) == MergeFrom(segments[0], segments[1..])
    ensures Refs(work, refs + [last]) + MergeFrom(work[i], segments[i + 1..]) == MergeFrom(segments[0], segments[1..])
  {
    assert segments[i..] == [work[i]] + segments[i + 1..];
    AppendMerged(work[last], work[i], segments[i + 1..]);
    assert Refs(work, refs + [last]) == Refs(work, refs) + [work[last]];
  }

  lemma AppendInput(work: seq<Turn>, last: nat, i: nat, segments: seq<Turn>)
    requires 1 <= i < |segments| && |work| == |segments| && last < i && work[i] == segments[i]
    requires !Absorbs(work[last], work[i])
    requires work[..last] + AfterFrom(work[last], work[last + 1..i], segments[i..]) == InputAfterMerge(segments)
    ensures work[..i] + AfterFrom(work[i], work[i + 1..i + 1], segments[i + 1..]) == InputAfterMerge(segments)
  {
    assert segments[i..] == [work[i]] + segments[i + 1..];
    AppendAfter(work[last], work[last + 1..i], work[i], segments[i + 1..]);
    assert work[..last] + [work[last]] + work[last + 1..i] == work[..i];
    assert work[i + 1..i + 1] == [];
  }

  lemma AppendMerged(cur: Turn, seg: Turn, rest: seq<Turn>)
    requires !Absorbs(cur, seg)
    ensures MergeFrom(cur, [seg] + rest) == [cur] + MergeFrom(seg, rest)
  {
    assert ([seg] + rest)[1..] == rest;
  }

  lemma AppendAfter(cur: Turn, gap: seq<Turn>, seg: Turn, rest: seq<Turn>)
    requires !Absorbs(cur, seg)
    ensures AfterFrom(cur, gap, [seg] + rest) == [cur] + gap + AfterFrom(seg, [], rest)
  {
    assert ([seg] + rest)[1..] == rest;
  }

  // ---------------------------------------------------------------------
  // _align_with_transcript
  // ---------------------------------------------------------------------

  /** `max(0, min(te, s.end) - max(ts, s.start))`: how long `s` overlaps `[ts, te]`. */
  function Overlap(s: Turn, ts: real, te: real): (o: real)
    ensures o >= 0.0
  {
    Max(0.0, Min(te, s.end) - Max(ts, s.start))
  }

  /**
   * The inner scan over the first `n` speaker turns: the best overlap so
   * far (0 to begin with) and the turn it came from, replaced only on a
   * strictly greater overlap.
   */
  function Scan(spk: seq<Turn>, ts: real, te: real, n: nat): (r: (real, Option<nat>))
    requires n <= |spk|
    ensures r.0 >= 0.0
    ensures r.1.None? <==> r.0 == 0.0
    ensures r.1.Some? ==> r.1.value < n && r.0 == Overlap(spk[r.1.value], ts, te)
  {
    if n == 0 then (0.0, None)
    else
      var p := Scan(spk, ts, te, n - 1);
      var o := Overlap(spk[n - 1], ts, te);
      if o > p.0 then (o, Some(n - 1)) else p
  }

  /**
   * The scan finds the greatest overlap: it is no smaller than any turn's,
   * it is 0 (no winner) exactly when no turn overlaps positively, and the
   * winner is the first turn with the greatest overlap.
   */
  lemma {:induction false} ScanIsFirstMax(spk: seq<Turn>, ts: real, te: real, n: nat)
    requires n <= |spk|
    ensures var r := Scan(spk, ts, te, n);
      && (forall k :: 0 <= k < n ==> Overlap(spk[k], ts, te) <= r.0)
      && (r.1.None? <==> forall k :: 0 <= k < n ==> Overlap(spk[k], ts, te) == 0.0)
      && (r.1.Some? ==> forall k :: 0 <= k < r.1.value ==> Overlap(spk[k], ts, te) < r.0)
  {
    if n > 0 {
      ScanIsFirstMax(spk, ts, te, n - 1);
    }
  }

  /** The speaker given to a transcript segment: the winner's, or "SPEAKER_00" when nothing overlaps. */
  function BestSpeaker(spk: seq<Turn>, ts: real, te: real): string
  {
    var r := Scan(spk, ts, te, |spk|);
    if r.1.Some? then spk[r.1.value].speaker else "SPEAKER_00"
  }

  /** `_align_with_transcript`: a copy of each transcript segment, in order, with its best speaker. */
  function AlignWithTranscript(spk: seq<Turn>, trans: seq<Segment>): (r: seq<Segment>)
    ensures |r| == |trans|
    ensures forall i :: 0 <= i < |trans| ==>
      r[i].(speaker := trans[i].speaker) == trans[i] && r[i].speaker.Some?
  {
    seq(|trans|, i requires 0 <= i < |trans| =>
      trans[i].(speaker := Some(BestSpeaker(spk, trans[i].start, trans[i].end))))
  }

  /**
   * The speaker given is "SPEAKER_00" when no turn overlaps the segment
   * positively; otherwise it is the speaker of a turn whose overlap is the
   * greatest and strictly greater than that of every earlier turn.
   */
  lemma AlignPicksFirstMax(spk: seq<Turn>, trans: seq<Segment>, i: nat)
    requires i < |trans|
    ensures var r := AlignWithTranscript(spk, trans); var ts, te := trans[i].start, trans[i].end;
      && ((forall k :: 0 <= k < |spk| ==> Overlap(spk[k], ts, te) == 0.0) ==> r[i].speaker == Some("SPEAKER_00"))
      && ((exists k :: 0 <= k < |spk| && Overlap(spk[k], ts, te) > 0.0) ==>
            exists j :: 0 <= j < |spk| && r[i].speaker == Some(spk[j].speaker)
              && Overlap(spk[j], ts, te) > 0.0
              && (forall k :: 0 <= k < |spk| ==> Overlap(spk[k], ts, te) <= Overlap(spk[j], ts, te))
              && (forall k :: 0 <= k < j ==> Overlap(spk[k], ts, te) < Overlap(spk[j], ts, te)))
  {
    ScanIsFirstMax(spk, trans[i].start, trans[i].end, |spk|);
  }

  /** The nested loops of `_align_with_transcript`. */
  method AlignWithTranscriptLoop(spk: seq<Turn>, trans: seq<Segment>) returns (aligned: seq<Segment>)
    ensures aligned == AlignWithTranscript(spk, trans)
  {
    aligned := [];
    var i := 0;
    while i < |trans|
      invariant 0 <= i <= |trans|
      invariant aligned == AlignWithTranscript(spk, trans[..i])
    {
      var transSeg := trans[i];
      var transStart, transEnd := transSeg.start, transSeg.end;
      var bestSpeaker := "SPEAKER_00";
      var bestOverlap := 0.0;
      ghost var bestIndex: Option<nat> := None;
      var j := 0;
      while j < |spk|
        invariant 0 <= j <= |spk|
        invariant (bestOverlap, bestIndex) == Scan(spk, transStart, transEnd, j)
        invariant bestSpeaker == if bestIndex.Some? then spk[bestIndex.value].speaker else "SPEAKER_00"
      {
        var spkSeg := spk[j];
        var overlapStart := Max(transStart, spkSeg.start);
        var overlapEnd := Min(transEnd, spkSeg.end);
        var overlap := Max(0.0, overlapEnd - overlapStart);
        if overlap > bestOverlap {
          bestOverlap := overlap;
          bestSpeaker := spkSeg.speaker;
          bestIndex := Some(j);
        }
        j := j + 1;
      }
      assert trans[..i + 1] == trans[..i] + [transSeg];
      aligned := aligned + [transSeg.(speaker := Some(bestSpeaker))];
      i := i + 1;
    }
    assert trans[..i] == trans;
  }
}
