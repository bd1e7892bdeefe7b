/**
 * Speaker post-processing: renaming raw diarisation labels to
 * "Speaker 1", "Speaker 2", ... in sorted label order, and merging short
 * utterances of one speaker into the utterance before them.
 */
module PostprocessSpeakers {
  import opened Base
  import opened Strings
  import opened Sorting
  import opened Segments

  // ---------------------------------------------------------------------
  // normalize_speaker_names
  // ---------------------------------------------------------------------

  /** The distinct `speaker` values of `segs`, in order of first appearance. */
  function Labels(segs: seq<Segment>): (ls: seq<string>)
    ensures forall i, j :: 0 <= i < j < |ls| ==> ls[i] != ls[j]
    ensures forall l :: l in ls <==> exists i :: 0 <= i < |segs| && segs[i].speaker == Some(l)
  {
    if segs == [] then []
    else
      var init := segs[..|segs| - 1];
      var p := Labels(init);
      var s := segs[|segs| - 1].speaker;
      assert forall i :: 0 <= i < |init| ==> init[i] == segs[i];
      if s.Some? && s.value !in p then p + [s.value] else p
  }

  /** The labels in ascending code-point order (`unique_speakers.sort()`). */
  function SortedLabels(segs: seq<Segment>): (ls: seq<string>)
    ensures SortedStrings(ls) && multiset(ls) == multiset(Labels(segs))
  {
    SortStrings(Labels(segs))
  }

  /** Position of the first occurrence of `x` in `s`. */
  function Rank(s: seq<string>, x: string): (k: nat)
    requires x in s
    ensures k < |s| && s[k] == x
    ensures forall j :: 0 <= j < k ==> s[j] != x
  {
    if s[0] == x then 0 else 1 + Rank(s[1..], x)
  }

  /** `f"{prefix} {n}"`. */
  function SpeakerName(prefix: string, n: nat): string
  {
    prefix + " " + IntToString(n)
  }

  /** The number the label `l` is given: its 1-based place among the sorted labels. */
  function SpeakerNumber(segs: seq<Segment>, l: string): (n: nat)
    requires l in Labels(segs)
    ensures 1 <= n <= |Labels(segs)|
  {
    var sorted := SortedLabels(segs);
    assert l in multiset(sorted);
    assert |sorted| == |multiset(sorted)| == |multiset(Labels(segs))| == |Labels(segs)|;
    Rank(sorted, l) + 1
  }

  /**
   * `normalize_speaker_names`: each segment with a `speaker` gets the name
   * of its label's number; nothing else about any segment changes.
   */
  function NormalizeSpeakerNames(segs: seq<Segment>, prefix: string): (r: seq<Segment>)
    ensures |r| == |segs|
    ensures forall i :: 0 <= i < |segs| ==> r[i].(speaker := segs[i].speaker) == segs[i]
    ensures forall i :: 0 <= i < |segs| ==> (r[i].speaker.Some? <==> segs[i].speaker.Some?)
    ensures forall i :: 0 <= i < |segs| && segs[i].speaker.Some? ==>
      segs[i].speaker.value in Labels(segs) &&
      r[i].speaker == Some(SpeakerName(prefix, SpeakerNumber(segs, segs[i].speaker.value)))
  {
    if segs == [] then segs
    else
      assert forall i :: 0 <= i < |segs| && segs[i].speaker.Some? ==> segs[i].speaker.value in Labels(segs);
      seq(|segs|, i requires 0 <= i < |segs| =>
        if segs[i].speaker.Some?
        then segs[i].(speaker := Some(SpeakerName(prefix, SpeakerNumber(segs, segs[i].speaker.value))))
        else segs[i])
  }

  lemma SpeakerNameInjective(prefix: string, m: nat, n: nat)
    requires SpeakerName(prefix, m) == SpeakerName(prefix, n)
    ensures m == n
  {
    var k := |prefix| + 1;
    assert SpeakerName(prefix, m)[k..] == IntToString(m);
    assert SpeakerName(prefix, n)[k..] == IntToString(n);
    ParseIntOfIntToString(m);
    ParseIntOfIntToString(n);
  }

  /** Two segments get the same new name exactly when they had the same label. */
  lemma NormalizeInjective(segs: seq<Segment>, prefix: string, i: nat, j: nat)
    requires i < |segs| && j < |segs|
    requires segs[i].speaker.Some? && segs[j].speaker.Some?
    ensures NormalizeSpeakerNames(segs, prefix)[i].speaker == NormalizeSpeakerNames(segs, prefix)[j].speaker
      <==> segs[i].speaker == segs[j].speaker
  {
    var r := NormalizeSpeakerNames(segs, prefix);
    var a, b := segs[i].speaker.value, segs[j].speaker.value;
    assert a in Labels(segs) && b in Labels(segs);
    var m, n := SpeakerNumber(segs, a), SpeakerNumber(segs, b);
    assert r[i].speaker == Some(SpeakerName(prefix, m));
    assert r[j].speaker == Some(SpeakerName(prefix, n));
    if SpeakerName(prefix, m) == SpeakerName(prefix, n) {
      SpeakerNameInjective(prefix, m, n);
      var sorted := SortedLabels(segs);
      assert sorted[m - 1] == a && sorted[n - 1] == b;
    }
  }

  /** A label that sorts earlier gets a smaller number. */
  lemma NumbersFollowSortOrder(segs: seq<Segment>, a: string, b: string)
    requires a in Labels(segs) && b in Labels(segs)
    requires StrLe(a, b) && a != b
    ensures SpeakerNumber(segs, a) < SpeakerNumber(segs, b)
  {
    var sorted := SortedLabels(segs);
    var ra, rb := SpeakerNumber(segs, a) - 1, SpeakerNumber(segs, b) - 1;
    assert sorted[ra] == a && sorted[rb] == b;
    if rb < ra {
      assert StrLe(b, a);
      StrLeAntisymmetric(a, b);
    }
  }

  lemma {:induction false} DistinctCount(s: seq<string>, x: string)
    requires forall i, j :: 0 <= i < j < |s| ==> s[i] != s[j]
    ensures multiset(s)[x] <= 1
  {
    if s != [] {
      var init := s[..|s| - 1];
      assert s == init + [s[|s| - 1]];
      DistinctCount(init, x);
      if x == s[|s| - 1] {
        assert x !in init;
      }
    }
  }

  lemma {:induction false} RepeatCount(s: seq<string>, a: nat, b: nat)
    requires a < b < |s| && s[a] == s[b]
    ensures multiset(s)[s[a]] >= 2
  {
    var x := s[a];
    assert s == s[..b] + [x] + s[b + 1..];
    assert x in s[..b];
  }

  /** The numbers handed out are exactly 1 .. the number of distinct labels. */
  lemma NumbersOnto(segs: seq<Segment>, n: nat)
    requires 1 <= n <= |Labels(segs)|
    ensures exists l :: l in Labels(segs) && SpeakerNumber(segs, l) == n
  {
    var sorted := SortedLabels(segs);
    var labels := Labels(segs);
    assert |sorted| == |labels| by {
      assert |sorted| == |multiset(sorted)| == |multiset(labels)| == |labels|;
    }
    var l := sorted[n - 1];
    assert l in labels by {
      assert l in multiset(sorted);
    }
    assert Rank(sorted, l) == n - 1 by {
      DistinctCount(labels, l);
      RankOfSingle(sorted, n - 1);
    }
    assert SpeakerNumber(segs, l) == n;
  }

  /** An element that occurs once is found at its own position. */
  lemma RankOfSingle(s: seq<string>, idx: nat)
    requires idx < |s| && multiset(s)[s[idx]] <= 1
    ensures Rank(s, s[idx]) == idx
  {
    var k := Rank(s, s[idx]);
    if k < idx {
      RepeatCount(s, k, idx);
      assert false;
    }
  }

  // ---------------------------------------------------------------------
  // merge_short_utterances
  // ---------------------------------------------------------------------

  /** `segment.get("speaker", "")`: a missing speaker compares as the empty label. */
  function SpeakerKey(s: Segment): string { s.speaker.GetOr("") }

  /**
   * Whether `seg` is folded into the utterance `cur` being built: same
   * speaker, a silence under 2 s, and either `seg` is shorter than the
   * minimum or the silence is under 1 s.
   */
  predicate Joins(cur: Segment, seg: Segment, minSec: real)
  {
    var gap := seg.start - cur.end;
    && SpeakerKey(seg) == SpeakerKey(cur)
    && gap < 2.0
    && (seg.end - seg.start < minSec || gap < 1.0)
  }

  /** The text of two utterances run together: both stripped, with one space between. */
  function JoinTexts(a: string, b: string): (t: string)
    ensures |t| <= |a| + |b| + 1
  {
    Strip(a) + " " + Strip(b)
  }

  /**
   * The current utterance after taking in `seg`: its end, the two texts
   * combined by `join`, and the word lists concatenated when both have one.
   */
  function Absorb(cur: Segment, seg: Segment, join: (string, string) -> string): (m: Segment)
    ensures m.start == cur.start && m.end == seg.end && m.speaker == cur.speaker
    ensures m.text == join(cur.text, seg.text)
  {
    cur.(end := seg.end,
         text := join(cur.text, seg.text),
         words := if seg.words.Some? && cur.words.Some? then Some(cur.words.value + seg.words.value) else cur.words)
  }

  /**
   * The utterances the merge loop emits from the point where `cur` is being
   * built and `rest` is unread, texts being combined by `join`.
   */
  function MergeFrom(cur: Segment, rest: seq<Segment>, minSec: real, join: (string, string) -> string): (r: seq<Segment>)
    ensures 1 <= |r| <= 1 + |rest|
    decreases |rest|
  {
    if rest == [] then [cur]
    else if Joins(cur, rest[0], minSec) then MergeFrom(Absorb(cur, rest[0], join), rest[1..], minSec, join)
    else [cur] + MergeFrom(rest[0], rest[1..], minSec, join)
  }

  /** `min_duration_ms / 1000.0`. */
  function MinSeconds(minDurationMs: int): real { minDurationMs as real / 1000.0 }

  /** `merge_short_utterances`: the input itself when empty or when the minimum is not positive. */
  function MergeShortUtterances(segs: seq<Segment>, minDurationMs: int): seq<Segment>
  {
    if segs == [] || minDurationMs <= 0 then segs
    else MergeFrom(segs[0], segs[1..], MinSeconds(minDurationMs), JoinTexts)
  }

  /**
   * For each segment of `rest`, the number of the utterance it ends up in,
   * counting the utterance `cur` belongs to as number `b`.
   */
  function OwnerFrom(cur: Segment, rest: seq<Segment>, minSec: real, join: (string, string) -> string, b: nat): (o: seq<nat>)
    ensures |o| == |rest|
    decreases |rest|
  {
    if rest == [] then []
    else if Joins(cur, rest[0], minSec) then [b] + OwnerFrom(Absorb(cur, rest[0], join), rest[1..], minSec, join, b)
    else [b + 1] + OwnerFrom(rest[0], rest[1..], minSec, join, b + 1)
  }

  /** The owners of `[cur] + rest`, `cur` itself being in utterance `b`. */
  function AllOwners(cur: Segment, rest: seq<Segment>, minSec: real, join: (string, string) -> string, b: nat): (o: seq<nat>)
    ensures |o| == |rest| + 1 && o[0] == b
  {
    [b] + OwnerFrom(cur, rest, minSec, join, b)
  }

  /** For each input segment, the index of the merged utterance it contributes to. */
  function Owners(segs: seq<Segment>, minDurationMs: int): (o: seq<nat>)
    requires segs != [] && minDurationMs > 0
    ensures |o| == |segs|
  {
    AllOwners(segs[0], segs[1..], MinSeconds(minDurationMs), JoinTexts, 0)
  }

  /** Input `i` opens an utterance: it is the first, or its owner differs from the previous one's. */
  predicate OpensChunk(o: seq<nat>, i: nat)
    requires i < |o|
  {
    i == 0 || o[i] != o[i - 1]
  }

  /** Input `i` closes an utterance: it is the last, or the next input belongs elsewhere. */
  predicate ClosesChunk(o: seq<nat>, i: nat)
    requires i < |o|
  {
    i == |o| - 1 || o[i + 1] != o[i]
  }

  /** Owners that climb by 0 or 1 at a time from utterance 0 to utterance `n - 1`. */
  predicate Climbs(o: seq<nat>, n: nat)
  {
    && o != [] && o[0] == 0 && o[|o| - 1] == n - 1
    && forall i :: 0 <= i < |o| - 1 ==> o[i + 1] == o[i] || o[i + 1] == o[i] + 1
  }

  /** The first utterance starts with `cur`: its start and speaker. */
  lemma {:induction false} MergeHead(cur: Segment, rest: seq<Segment>, minSec: real, join: (string, string) -> string)
    ensures var m := MergeFrom(cur, rest, minSec, join)[0];
      m.start == cur.start && m.speaker == cur.speaker
    decreases |rest|
  {
    if rest != [] && Joins(cur, rest[0], minSec) {
      MergeHead(Absorb(cur, rest[0], join), rest[1..], minSec, join);
    }
  }

  /** Every owner is a valid utterance number, and owners climb by 0 or 1. */
  lemma {:induction false} OwnerSteps(cur: Segment, rest: seq<Segment>, minSec: real, join: (string, string) -> string, b: nat, i: nat)
    requires i <= |rest|
    ensures var a := AllOwners(cur, rest, minSec, join, b);
      && b <= a[i] < b + |MergeFrom(cur, rest, minSec, join)|
      && (i < |rest| ==> a[i + 1] == a[i] || a[i + 1] == a[i] + 1)
    decreases |rest|
  {
    if rest != [] && i > 0 {
      if Joins(cur, rest[0], minSec) {
        var next := Absorb(cur, rest[0], join);
        assert AllOwners(cur, rest, minSec, join, b) == [b] + AllOwners(next, rest[1..], minSec, join, b);
        OwnerSteps(next, rest[1..], minSec, join, b, i - 1);
      } else {
        assert AllOwners(cur, rest, minSec, join, b) == [b] + AllOwners(rest[0], rest[1..], minSec, join, b + 1);
        OwnerSteps(rest[0], rest[1..], minSec, join, b + 1, i - 1);
      }
    }
  }

  /** The last input belongs to the last utterance. */
  lemma {:induction false} OwnerLast(cur: Segment, rest: seq<Segment>, minSec: real, join: (string, string) -> string, b: nat)
    ensures AllOwners(cur, rest, minSec, join, b)[|rest|] == b + |MergeFrom(cur, rest, minSec, join)| - 1
    decreases |rest|
  {
    if rest != [] {
      var joined := Joins(cur, rest[0], minSec);
      var next := if joined then Absorb(cur, rest[0], join) else rest[0];
      var b' := if joined then b else b + 1;
      assert AllOwners(cur, rest, minSec, join, b) == [b] + AllOwners(next, rest[1..], minSec, join, b');
      OwnerLast(next, rest[1..], minSec, join, b');
    }
  }

  /**
   * Input `i` of `[cur] + rest` and its utterance: when it opens the utterance
   * it gives it its start and speaker, when it closes it it gives it its end,
   * and it has the utterance's speaker key.
   */
  lemma {:induction false} ChunkAt(cur: Segment, rest: seq<Segment>, minSec: real, join: (string, string) -> string, b: nat, i: nat)
    requires i <= |rest|
    ensures var a := AllOwners(cur, rest, minSec, join, b); var m := MergeFrom(cur, rest, minSec, join); var all := [cur] + rest;
      && b <= a[i] < b + |m|
      && (OpensChunk(a, i) ==> m[a[i] - b].start == all[i].start && m[a[i] - b].speaker == all[i].speaker)
      && (ClosesChunk(a, i) ==> m[a[i] - b].end == all[i].end)
      && SpeakerKey(m[a[i] - b]) == SpeakerKey(all[i])
    decreases |rest|
  {
    if i == 0 {
      ChunkFirst(cur, rest, minSec, join, b);
    } else if Joins(cur, rest[0], minSec) {
      ChunkAt(Absorb(cur, rest[0], join), rest[1..], minSec, join, b, i - 1);
      ChunkJoined(cur, rest, minSec, join, b, i);
    } else {
      ChunkAt(rest[0], rest[1..], minSec, join, b + 1, i - 1);
      ChunkSplit(cur, rest, minSec, join, b, i);
    }
  }

  /** What `ChunkAt` states of input `i`. */
  predicate ChunkFact(cur: Segment, rest: seq<Segment>, minSec: real, join: (string, string) -> string, b: nat, i: nat)
    requires i <= |rest|
  {
    var a := AllOwners(cur, rest, minSec, join, b); var m := MergeFrom(cur, rest, minSec, join); var all := [cur] + rest;
    && b <= a[i] < b + |m|
    && (OpensChunk(a, i) ==> m[a[i] - b].start == all[i].start && m[a[i] - b].speaker == all[i].speaker)
    && (ClosesChunk(a, i) ==> m[a[i] - b].end == all[i].end)
    && SpeakerKey(m[a[i] - b]) == SpeakerKey(all[i])
  }

  /** `cur` opens the first utterance. */
  lemma ChunkFirst(cur: Segment, rest: seq<Segment>, minSec: real, join: (string, string) -> string, b: nat)
    ensures ChunkFact(cur, rest, minSec, join, b, 0)
  {
    MergeHead(cur, rest, minSec, join);
    var a := AllOwners(cur, rest, minSec, join, b);
    var m := MergeFrom(cur, rest, minSec, join);
    if rest == [] {
      assert m == [cur];
    } else if Joins(cur, rest[0], minSec) {
      assert a == [b] + AllOwners(Absorb(cur, rest[0], join), rest[1..], minSec, join, b);
      assert !ClosesChunk(a, 0);
    } else {
      assert m == [cur] + MergeFrom(rest[0], rest[1..], minSec, join);
    }
  }

  /** When `rest[0]` is absorbed, input `i` keeps the utterance it has in the rest of the merge. */
  lemma ChunkJoined(cur: Segment, rest: seq<Segment>, minSec: real, join: (string, string) -> string, b: nat, i: nat)
    requires 0 < i <= |rest| && Joins(cur, rest[0], minSec)
    requires ChunkFact(Absorb(cur, rest[0], join), rest[1..], minSec, join, b, i - 1)
    ensures ChunkFact(cur, rest, minSec, join, b, i)
  {
    var next := Absorb(cur, rest[0], join);
    var a := AllOwners(cur, rest, minSec, join, b);
    var a' := AllOwners(next, rest[1..], minSec, join, b);
    assert a == [b] + a';
    assert ([cur] + rest)[i] == ([next] + rest[1..])[i - 1] || i == 1;
    if i == 1 {
      assert !OpensChunk(a, i);
      assert next.end == rest[0].end;
      assert SpeakerKey(next) == SpeakerKey(rest[0]);
    }
  }

  /** When `rest[0]` opens a new utterance, input `i` is in the same utterance, one place on. */
  lemma ChunkSplit(cur: Segment, rest: seq<Segment>, minSec: real, join: (string, string) -> string, b: nat, i: nat)
    requires 0 < i <= |rest| && !Joins(cur, rest[0], minSec)
    requires ChunkFact(rest[0], rest[1..], minSec, join, b + 1, i - 1)
    ensures ChunkFact(cur, rest, minSec, join, b, i)
  {
    var a := AllOwners(cur, rest, minSec, join, b);
    var a' := AllOwners(rest[0], rest[1..], minSec, join, b + 1);
    var m := MergeFrom(cur, rest, minSec, join);
    var m' := MergeFrom(rest[0], rest[1..], minSec, join);
    assert a == [b] + a';
    assert m == [cur] + m';
    assert ([cur] + rest)[i] == ([rest[0]] + rest[1..])[i - 1];
    assert m[a[i] - b] == m'[a'[i - 1] - (b + 1)];
  }

  /** Every input meets its utterance as `ChunkAt` says. */
  predicate ChunkFacts(all: seq<Segment>, o: seq<nat>, r: seq<Segment>)
    requires |o| == |all|
  {
    forall i :: 0 <= i < |all| ==>
      && o[i] < |r|
      && (OpensChunk(o, i) ==> r[o[i]].start == all[i].start && r[o[i]].speaker == all[i].speaker)
      && (ClosesChunk(o, i) ==> r[o[i]].end == all[i].end)
      && SpeakerKey(r[o[i]]) == SpeakerKey(all[i])
  }

  /** `ChunkAt` for every input, with the first utterance numbered 0. */
  lemma ChunkingFrom(cur: Segment, rest: seq<Segment>, minSec: real, join: (string, string) -> string)
    ensures var o := AllOwners(cur, rest, minSec, join, 0); var r := MergeFrom(cur, rest, minSec, join);
      Climbs(o, |r|) && ChunkFacts([cur] + rest, o, r)
  {
    OwnersClimb(cur, rest, minSec, join);
    ChunkFactsFrom(cur, rest, minSec, join);
  }

  lemma OwnersClimb(cur: Segment, rest: seq<Segment>, minSec: real, join: (string, string) -> string)
    ensures Climbs(AllOwners(cur, rest, minSec, join, 0), |MergeFrom(cur, rest, minSec, join)|)
  {
    var o := AllOwners(cur, rest, minSec, join, 0);
    OwnerLast(cur, rest, minSec, join, 0);
    forall i | 0 <= i < |o| - 1
      ensures o[i + 1] == o[i] || o[i + 1] == o[i] + 1
    {
      OwnerSteps(cur, rest, minSec, join, 0, i);
    }
  }

  lemma ChunkFactsFrom(cur: Segment, rest: seq<Segment>, minSec: real, join: (string, string) -> string)
    ensures ChunkFacts([cur] + rest, AllOwners(cur, rest, minSec, join, 0), MergeFrom(cur, rest, minSec, join))
  {
    var o := AllOwners(cur, rest, minSec, join, 0);
    var r := MergeFrom(cur, rest, minSec, join);
    var all := [cur] + rest;
    forall i | 0 <= i < |o|
      ensures o[i] < |r|
      ensures OpensChunk(o, i) ==> r[o[i]].start == all[i].start && r[o[i]].speaker == all[i].speaker
      ensures ClosesChunk(o, i) ==> r[o[i]].end == all[i].end
      ensures SpeakerKey(r[o[i]]) == SpeakerKey(all[i])
    {
      ChunkAt(cur, rest, minSec, join, 0, i);
    }
  }

  /**
   * The merge partitions the input into consecutive runs, one per output
   * utterance and in order: each input lands in exactly one utterance, the
   * owners climb by 0 or 1 from the first utterance to the last, an
   * utterance starts where its first segment starts (with that segment's
   * speaker) and ends where its last one ends, and every segment in it has
   * the same speaker key.
   */
  lemma MergeIsChunking(segs: seq<Segment>, minDurationMs: int)
    requires segs != [] && minDurationMs > 0
    ensures var r := MergeShortUtterances(segs, minDurationMs); var o := Owners(segs, minDurationMs);
      && 1 <= |r| <= |segs|
      && Climbs(o, |r|)
      && ChunkFacts(segs, o, r)
  {
    assert segs == [segs[0]] + segs[1..];
    ChunkingFrom(segs[0], segs[1..], MinSeconds(minDurationMs), JoinTexts);
  }

  /**
   * The loop of `merge_short_utterances`: keeps the utterance being built
   * and the list of finished ones, and emits the last utterance at the end.
   */
  method MergeShortUtterancesLoop(segs: seq<Segment>, minDurationMs: int) returns (merged: seq<Segment>)
    ensures merged == MergeShortUtterances(segs, minDurationMs)
    ensures |merged| <= |segs|
  {
    if segs == [] || minDurationMs <= 0 {
      return segs;
    }
    var minSec := MinSeconds(minDurationMs);
    merged := [];
    var cur := segs[0];
    var i := 1;
    while i < |segs|
      invariant 1 <= i <= |segs|
      invariant merged + MergeFrom(cur, segs[i..], minSec, JoinTexts) == MergeFrom(segs[0], segs[1..], minSec, JoinTexts)
    {
      var seg := segs[i];
      assert segs[i..][1..] == segs[i + 1..];
      if Joins(cur, seg, minSec) {
        cur := Absorb(cur, seg, JoinTexts);
      } else {
        assert merged + MergeFrom(cur, segs[i..], minSec, JoinTexts) == (merged + [cur]) + MergeFrom(seg, segs[i + 1..], minSec, JoinTexts);
        merged := merged + [cur];
        cur := seg;
      }
      i := i + 1;
    }
    merged := merged + [cur];
  }

  // ---------------------------------------------------------------------
  // postprocess_speakers
  // ---------------------------------------------------------------------

  /**
   * `postprocess_speakers`: merging (when a positive minimum is given)
   * before renaming (when asked), so that merging compares raw labels.
   */
  function PostprocessSpeakers(segs: seq<Segment>, normalizeNames: bool, prefix: string, minUtteranceMs: Option<int>)
    : (r: seq<Segment>)
  {
    var merged := if minUtteranceMs.Some? && minUtteranceMs.value > 0
      then MergeShortUtterances(segs, minUtteranceMs.value) else segs;
    if normalizeNames then NormalizeSpeakerNames(merged, prefix) else merged
  }

  /**
   * The pipeline never lengthens the transcript, keeps it unchanged when
   * both steps are off, and, when renaming, every speaker it outputs is one
   * of the numbered names.
   */
  lemma PostprocessShape(segs: seq<Segment>, normalizeNames: bool, prefix: string, minUtteranceMs: Option<int>)
    ensures var r := PostprocessSpeakers(segs, normalizeNames, prefix, minUtteranceMs);
      && |r| <= |segs|
      && (!normalizeNames && (minUtteranceMs.None? || minUtteranceMs.value <= 0) ==> r == segs)
      && (normalizeNames ==> forall i :: 0 <= i < |r| && r[i].speaker.Some? ==>
            exists n :: 1 <= n <= |r| && r[i].speaker == Some(SpeakerName(prefix, n)))
  {
    var merged := if minUtteranceMs.Some? && minUtteranceMs.value > 0
      then MergeShortUtterances(segs, minUtteranceMs.value) else segs;
    if minUtteranceMs.Some? && minUtteranceMs.value > 0 && segs != [] {
      MergeIsChunking(segs, minUtteranceMs.value);
    }
    if normalizeNames {
      var r := NormalizeSpeakerNames(merged, prefix);
      forall i | 0 <= i < |r| && r[i].speaker.Some?
        ensures exists n :: 1 <= n <= |r| && r[i].speaker == Some(SpeakerName(prefix, n))
      {
        var l := merged[i].speaker.value;
        var n := SpeakerNumber(merged, l);
        LabelsAtMost(merged);
        assert 1 <= n <= |r| && r[i].speaker == Some(SpeakerName(prefix, n));
      }
    }
  }

  /** There are never more distinct labels than segments. */
  lemma {:induction false} LabelsAtMost(segs: seq<Segment>)
    ensures |Labels(segs)| <= |segs|
  {
    if segs != [] {
      LabelsAtMost(segs[..|segs| - 1]);
    }
  }
}
