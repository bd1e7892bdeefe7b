/**
 * Benchmark metrics: the real-time factor, transcript normalisation and
 * the word error rate computed with a word-level edit-distance table.
 */
module Metrics {
  import opened Base
  import opened Strings

  /** `calculate_rtf`: processing time per second of audio; the duration must be positive. */
  function CalculateRtf(audioDuration: real, processTime: real): (r: Result<real>)
    ensures r.Ok? <==> audioDuration > 0.0
    ensures r.Ok? ==> r.value * audioDuration == processTime
    ensures r.Err? ==> r.error == ValueError("Audio duration must be positive")
  {
    if audioDuration <= 0.0 then Err(ValueError("Audio duration must be positive"))
    else Ok(processTime / audioDuration)
  }

  // ---------------------------------------------------------------------
  // normalize_text
  // ---------------------------------------------------------------------

  /** `re.sub(r"[^\w\s]", "", s)`: keep word characters and whitespace. */
  function KeepWordOrSpace(s: string): (r: string)
    ensures |r| <= |s|
    ensures forall i :: 0 <= i < |r| ==> IsWordChar(r[i]) || IsSpace(r[i])
  {
    if s == [] then []
    else (if IsWordChar(s[0]) || IsSpace(s[0]) then [s[0]] else []) + KeepWordOrSpace(s[1..])
  }

  /** `re.sub(r"\s+", " ", s)`: every run of whitespace becomes one space. */
  function Collapse(s: string): (r: string)
    ensures |r| <= |s| && (r == [] <==> s == [])
    ensures s != [] && !IsSpace(s[0]) ==> r[0] == s[0]
    ensures forall i :: 0 <= i < |r| - 1 ==> !(r[i] == ' ' && r[i + 1] == ' ')
    decreases |s|
  {
    if s == [] then []
    else if IsSpace(s[0]) then [' '] + Collapse(LStrip(s[1..]))
    else [s[0]] + Collapse(s[1..])
  }

  /** `normalize_text`: lower-case, drop punctuation, collapse whitespace, strip. */
  function NormalizeText(text: string): string
  {
    Strip(Collapse(KeepWordOrSpace(Lower(text))))
  }

  /** Lower-case word characters, and whitespace. */
  predicate CleanChars(s: string)
  {
    forall i :: 0 <= i < |s| ==> (IsWordChar(s[i]) && !IsUpper(s[i])) || IsSpace(s[i])
  }

  /** What normalised text looks like: lower-case word characters separated by single spaces. */
  predicate Normalized(r: string)
  {
    && (forall i :: 0 <= i < |r| ==> (IsWordChar(r[i]) && !IsUpper(r[i])) || r[i] == ' ')
    && (r == [] || (r[0] != ' ' && r[|r| - 1] != ' '))
    && (forall i :: 0 <= i < |r| - 1 ==> !(r[i] == ' ' && r[i + 1] == ' '))
  }

  lemma {:induction false} KeepClean(s: string)
    requires forall i :: 0 <= i < |s| ==> !IsUpper(s[i])
    ensures CleanChars(KeepWordOrSpace(s))
  {
    if s != [] {
      KeepClean(s[1..]);
      var t := KeepWordOrSpace(s[1..]);
      var r := KeepWordOrSpace(s);
      assert r == (if IsWordChar(s[0]) || IsSpace(s[0]) then [s[0]] else []) + t;
    }
  }

  /** Collapsing whitespace in clean text leaves lower-case word characters and single spaces. */
  lemma {:induction false} CollapseClean(s: string)
    requires CleanChars(s)
    ensures forall i :: 0 <= i < |Collapse(s)| ==> (IsWordChar(Collapse(s)[i]) && !IsUpper(Collapse(s)[i])) || Collapse(s)[i] == ' '
    decreases |s|
  {
    if s != [] {
      var t := if IsSpace(s[0]) then LStrip(s[1..]) else s[1..];
      assert CleanChars(t) by {
        CleanSuffix(s, 1);
        if IsSpace(s[0]) {
          CleanSuffix(s[1..], |s[1..]| - |t|);
        }
      }
      CollapseClean(t);
      var h := if IsSpace(s[0]) then ' ' else s[0];
      assert Collapse(s) == [h] + Collapse(t);
      ConsClean(h, Collapse(t));
    }
  }

  lemma CleanSuffix(s: string, k: nat)
    requires CleanChars(s) && k <= |s|
    ensures CleanChars(s[k..])
  {
    forall i | 0 <= i < |s| - k
      ensures (IsWordChar(s[k..][i]) && !IsUpper(s[k..][i])) || IsSpace(s[k..][i])
    {
      assert s[k..][i] == s[k + i];
    }
  }

  lemma ConsClean(h: char, r: string)
    requires (IsWordChar(h) && !IsUpper(h)) || h == ' '
    requires forall i :: 0 <= i < |r| ==> (IsWordChar(r[i]) && !IsUpper(r[i])) || r[i] == ' '
    ensures forall i :: 0 <= i < |[h] + r| ==> (IsWordChar(([h] + r)[i]) && !IsUpper(([h] + r)[i])) || ([h] + r)[i] == ' '
  {
    forall i | 0 <= i < |[h] + r|
      ensures (IsWordChar(([h] + r)[i]) && !IsUpper(([h] + r)[i])) || ([h] + r)[i] == ' '
    {
      if i > 0 {
        assert ([h] + r)[i] == r[i - 1];
      }
    }
  }

  /** The result of `normalize_text` is always normalised. */
  lemma NormalizeTextNormalized(text: string)
    ensures Normalized(NormalizeText(text))
  {
    var l := Lower(text);
    assert forall i :: 0 <= i < |l| ==> !IsUpper(l[i]);
    KeepClean(l);
    var c := Collapse(KeepWordOrSpace(l));
    CollapseClean(KeepWordOrSpace(l));
    StripOfNormalized(c);
  }

  lemma StripOfNormalized(c: string)
    requires forall i :: 0 <= i < |c| ==> (IsWordChar(c[i]) && !IsUpper(c[i])) || c[i] == ' '
    requires forall i :: 0 <= i < |c| - 1 ==> !(c[i] == ' ' && c[i + 1] == ' ')
    ensures Normalized(Strip(c))
  {
    var r := Strip(c);
    StripSpec(c);
    var p := StripStart(c);
    assert forall i :: 0 <= i < |r| ==> r[i] == c[p + i];
  }

  lemma KeepWordOrSpaceFixed(s: string)
    requires forall i :: 0 <= i < |s| ==> IsWordChar(s[i]) || s[i] == ' '
    ensures KeepWordOrSpace(s) == s
  {
  }

  lemma {:induction false} CollapseFixed(s: string)
    requires forall i :: 0 <= i < |s| ==> !IsSpace(s[i]) || s[i] == ' '
    requires forall i :: 0 <= i < |s| - 1 ==> !(s[i] == ' ' && s[i + 1] == ' ')
    ensures Collapse(s) == s
    decreases |s|
  {
    if s != [] {
      CollapseFixed(s[1..]);
      if IsSpace(s[0]) {
        assert s[1..] == [] || !IsSpace(s[1]);
        assert LStrip(s[1..]) == s[1..];
      }
    }
  }

  /** Normalising normalised text changes nothing, so `normalize_text` is idempotent. */
  lemma NormalizedFixed(r: string)
    requires Normalized(r)
    ensures NormalizeText(r) == r
  {
    assert Lower(r) == r;
    assert KeepWordOrSpace(r) == r by {
      KeepWordOrSpaceFixed(r);
    }
    assert Collapse(r) == r by {
      CollapseFixed(r);
    }
    assert Strip(r) == r by {
      StripNoEdgeSpace(r);
    }
  }

  lemma NormalizeTextIdempotent(text: string)
    ensures NormalizeText(NormalizeText(text)) == NormalizeText(text)
  {
    NormalizeTextNormalized(text);
    NormalizedFixed(NormalizeText(text));
  }

  // ---------------------------------------------------------------------
  // calculate_wer
  // ---------------------------------------------------------------------

  function Min3(x: nat, y: nat, z: nat): nat
  {
    if x <= y && x <= z then x else if y <= z then y else z
  }

  /**
   * The word-level edit distance between the first `i` words of `a` and
   * the first `j` words of `b`, by the recurrence the table follows.
   */
  function Dist(a: seq<string>, b: seq<string>, i: nat, j: nat): nat
    requires i <= |a| && j <= |b|
    decreases i + j
  {
    if i == 0 then j
    else if j == 0 then i
    else if a[i - 1] == b[j - 1] then Dist(a, b, i - 1, j - 1)
    else 1 + Min3(Dist(a, b, i - 1, j), Dist(a, b, i, j - 1), Dist(a, b, i - 1, j - 1))
  }

  /** The distance is 0 exactly when the two prefixes are the same words. */
  lemma {:induction false} DistZeroIff(a: seq<string>, b: seq<string>, i: nat, j: nat)
    requires i <= |a| && j <= |b|
    ensures Dist(a, b, i, j) == 0 <==> a[..i] == b[..j]
    decreases i + j
  {
    if i > 0 && j > 0 {
      DistZeroIff(a, b, i - 1, j - 1);
      assert a[..i] == a[..i - 1] + [a[i - 1]];
      assert b[..j] == b[..j - 1] + [b[j - 1]];
      if a[..i] == b[..j] {
        assert a[i - 1] == a[..i][i - 1];
      }
    } else if i > 0 {
      assert |a[..i]| != |b[..j]|;
    } else if j > 0 {
      assert |a[..i]| != |b[..j]|;
    }
  }

  /** The distance never exceeds the longer prefix. */
  lemma {:induction false} DistUpper(a: seq<string>, b: seq<string>, i: nat, j: nat)
    requires i <= |a| && j <= |b|
    ensures Dist(a, b, i, j) <= if i >= j then i else j
    decreases i + j
  {
    if i > 0 && j > 0 {
      DistUpper(a, b, i - 1, j - 1);
      DistStep(a, b, i, j);
      assert Dist(a, b, i, j) <= 1 + Dist(a, b, i - 1, j - 1);
    }
  }

  /** The distance is at least the difference in length. */
  lemma {:induction false} DistLower(a: seq<string>, b: seq<string>, i: nat, j: nat)
    requires i <= |a| && j <= |b|
    ensures Dist(a, b, i, j) >= if i >= j then i - j else j - i
    decreases i + j
  {
    if i > 0 && j > 0 {
      DistLower(a, b, i - 1, j - 1);
      DistLower(a, b, i - 1, j);
      DistLower(a, b, i, j - 1);
      DistStep(a, b, i, j);
      LowerStep(Dist(a, b, i, j), Dist(a, b, i - 1, j), Dist(a, b, i, j - 1), Dist(a, b, i - 1, j - 1), i, j, a[i - 1] == b[j - 1]);
    }
  }

  /** The length-difference bound carries over one step of the recurrence. */
  lemma LowerStep(d: nat, up: nat, left: nat, diag: nat, i: nat, j: nat, same: bool)
    requires i >= 1 && j >= 1
    requires d == if same then diag else 1 + Min3(up, left, diag)
    requires diag >= (if i >= j then i - j else j - i)
    requires up >= (if i - 1 >= j then i - 1 - j else j - (i - 1))
    requires left >= (if i >= j - 1 then i - (j - 1) else j - 1 - i)
    ensures d >= if i >= j then i - j else j - i
  {
  }

  /** One step of the recurrence. */
  lemma DistStep(a: seq<string>, b: seq<string>, i: nat, j: nat)
    requires 1 <= i <= |a| && 1 <= j <= |b|
    ensures Dist(a, b, i, j) == if a[i - 1] == b[j - 1] then Dist(a, b, i - 1, j - 1)
      else 1 + Min3(Dist(a, b, i - 1, j), Dist(a, b, i, j - 1), Dist(a, b, i - 1, j - 1))
  {
  }

  /** The reference and hypothesis words after normalisation. */
  function WerWords(text: string): seq<string>
  {
    Words(NormalizeText(text))
  }

  /** The word error rate of hypothesis words `h` against reference words `r`. */
  function WerOf(r: seq<string>, h: seq<string>): real
  {
    if |r| == 0 then (if |h| == 0 then 0.0 else 1.0)
    else Dist(r, h, |r|, |h|) as real / |r| as real
  }

  /** `calculate_wer`: the edit distance over the number of reference words. */
  function CalculateWer(reference: string, hypothesis: string): real
  {
    WerOf(WerWords(reference), WerWords(hypothesis))
  }

  /**
   * The word error rate is never negative, and is 0 exactly when the two
   * word sequences are the same.
   */
  lemma WerOfZeroIff(r: seq<string>, h: seq<string>)
    ensures WerOf(r, h) == 0.0 <==> r == h
    ensures 0.0 <= WerOf(r, h)
  {
    if |r| > 0 {
      DistZeroIff(r, h, |r|, |h|);
      assert r[..|r|] == r && h[..|h|] == h;
      Ratio(WerOf(r, h), Dist(r, h, |r|, |h|), |r|);
    } else {
      assert r == h <==> |h| == 0;
    }
  }

  /** `d / n` for a positive count `n`: zero exactly when `d` is, and times `n` gives `d` back. */
  lemma Ratio(w: real, d: nat, n: nat)
    requires n > 0 && w == d as real / n as real
    ensures w >= 0.0
    ensures w == 0.0 <==> d == 0
  {
  }

  /** In terms of the transcripts: 0 exactly when their normalised words agree. */
  lemma WerZeroIff(reference: string, hypothesis: string)
    ensures CalculateWer(reference, hypothesis) == 0.0 <==> WerWords(reference) == WerWords(hypothesis)
    ensures 0.0 <= CalculateWer(reference, hypothesis)
  {
    WerOfZeroIff(WerWords(reference), WerWords(hypothesis));
  }

  /** The table filling of `calculate_wer`: `dp[i, j]` is the distance between the prefixes. */
  method EditDistance(a: seq<string>, b: seq<string>) returns (d: nat)
    ensures d == Dist(a, b, |a|, |b|)
  {
    var n, m := |a|, |b|;
    var dp := new nat[n + 1, m + 1];
    var i := 0;
    while i <= n
      invariant 0 <= i <= n + 1
      invariant forall p :: 0 <= p < i ==> dp[p, 0] == p
    {
      dp[i, 0] := i;
      i := i + 1;
    }
    var j := 0;
    while j <= m
      invariant 0 <= j <= m + 1
      invariant forall p :: 0 <= p <= n ==> dp[p, 0] == p
      invariant forall q :: 0 <= q < j ==> dp[0, q] == q
    {
      dp[0, j] := j;
      j := j + 1;
    }
    i := 1;
    while i <= n
      invariant 1 <= i <= n + 1
      invariant forall p, q {:trigger dp[p, q]} :: 0 <= p < i && 0 <= q <= m ==> dp[p, q] == Dist(a, b, p, q)
      invariant forall p :: i <= p <= n ==> dp[p, 0] == p
    {
      FillRow(dp, a, b, i);
      i := i + 1;
    }
    d := dp[n, m];
  }

  /** The inner loop: row `i` of the table from the row above it. */
  method FillRow(dp: array2<nat>, a: seq<string>, b: seq<string>, i: nat)
    requires dp.Length0 == |a| + 1 && dp.Length1 == |b| + 1 && 1 <= i <= |a|
    requires forall p, q {:trigger dp[p, q]} :: 0 <= p < i && 0 <= q <= |b| ==> dp[p, q] == Dist(a, b, p, q)
    requires dp[i, 0] == i
    modifies dp
    ensures forall p, q {:trigger dp[p, q]} :: 0 <= p <= i && 0 <= q <= |b| ==> dp[p, q] == Dist(a, b, p, q)
    ensures forall p, q :: 0 <= p < dp.Length0 && 0 <= q < dp.Length1 && p != i ==> dp[p, q] == old(dp[p, q])
  {
    var m := |b|;
    var j := 1;
    while j <= m
      invariant 1 <= j <= m + 1
      invariant forall p, q :: 0 <= p < dp.Length0 && 0 <= q < dp.Length1 && p != i ==> dp[p, q] == old(dp[p, q])
      invariant forall q {:trigger dp[i, q]} :: 0 <= q < j ==> dp[i, q] == Dist(a, b, i, q)
    {
      var v: nat;
      if a[i - 1] == b[j - 1] {
        v := dp[i - 1, j - 1];
      } else {
        v := Min3(dp[i - 1, j] + 1, dp[i, j - 1] + 1, dp[i - 1, j - 1] + 1);
      }
      DistStep(a, b, i, j);
      assert v == Dist(a, b, i, j);
      dp[i, j] := v;
      j := j + 1;
    }
  }

  /** `calculate_wer` with its table. */
  method CalculateWerTable(reference: string, hypothesis: string) returns (wer: real)
    ensures wer == CalculateWer(reference, hypothesis)
  {
    var refWords := Words(NormalizeText(reference));
    var hypWords := Words(NormalizeText(hypothesis));
    var n, m := |refWords|, |hypWords|;
    if n == 0 {
      return if m == 0 then 0.0 else 1.0;
    }
    var d := EditDistance(refWords, hypWords);
    wer := d as real / n as real;
  }
}
