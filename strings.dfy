/**
 * The Python string operations the core relies on (`strip`, `split`, `join`,
 * `replace`, `lower`, `int(...)`, `f"{n:02d}"`, `f"{x:.2f}"`), stated over
 * `seq<char>` with ASCII character classes, with the round trips that tie
 * each formatter to its parser.
 */
module Strings {
  import opened Base

  // ---------------------------------------------------------------------
  // Character classes (ASCII)
  // ---------------------------------------------------------------------

  /** The characters Python's `str.split()` / `str.strip()` treat as blank. */
  predicate IsSpace(c: char) {
    c == ' ' || c == '\t' || c == '\n' || c == '\r' || c == '\U{B}' || c == '\U{C}'
  }

  predicate IsDigit(c: char) { '0' <= c <= '9' }

  predicate IsUpper(c: char) { 'A' <= c <= 'Z' }

  predicate IsLowerLetter(c: char) { 'a' <= c <= 'z' }

  /** Characters matched by the regular expression class `\w`. */
  predicate IsWordChar(c: char) { IsDigit(c) || IsUpper(c) || IsLowerLetter(c) || c == '_' }

  predicate NoSpace(s: string) { forall i :: 0 <= i < |s| ==> !IsSpace(s[i]) }

  predicate AllDigits(s: string) { forall i :: 0 <= i < |s| ==> IsDigit(s[i]) }

  predicate StartsWith(s: string, p: string) { |p| <= |s| && s[..|p|] == p }

  /** `p` occurs somewhere in `s`. */
  predicate Occurs(p: string, s: string) {
    exists i :: 0 <= i <= |s| - |p| && OccursAt(p, s, i)
  }

  predicate OccursAt(p: string, s: string, i: int)
    requires 0 <= i <= |s| - |p|
  {
    s[i..i + |p|] == p
  }

  // ---------------------------------------------------------------------
  // strip
  // ---------------------------------------------------------------------

  function LStrip(s: string): (r: string)
    ensures |r| <= |s| && r == s[|s| - |r|..]
    ensures r == [] || !IsSpace(r[0])
  {
    if s != [] && IsSpace(s[0]) then LStrip(s[1..]) else s
  }

  lemma {:induction false} LStripBlanks(s: string)
    ensures forall k :: 0 <= k < |s| - |LStrip(s)| ==> IsSpace(s[k])
  {
    if s != [] && IsSpace(s[0]) {
      LStripBlanks(s[1..]);
      forall k | 1 <= k < |s| - |LStrip(s)| ensures IsSpace(s[k]) {
        assert s[k] == s[1..][k - 1];
      }
    }
  }

  function RStrip(s: string): (r: string)
    ensures |r| <= |s| && r == s[..|r|]
    ensures r == [] || !IsSpace(r[|r| - 1])
  {
    if s != [] && IsSpace(s[|s| - 1]) then RStrip(s[..|s| - 1]) else s
  }

  lemma {:induction false} RStripBlanks(s: string)
    ensures forall k :: |RStrip(s)| <= k < |s| ==> IsSpace(s[k])
  {
    if s != [] && IsSpace(s[|s| - 1]) {
      RStripBlanks(s[..|s| - 1]);
      forall k | |RStrip(s)| <= k < |s| - 1 ensures IsSpace(s[k]) {
        assert s[k] == s[..|s| - 1][k];
      }
    }
  }

  /** Python `s.strip()`: `s` without its leading and trailing blanks. */
  function Strip(s: string): string
  {
    RStrip(LStrip(s))
  }

  /** Where the stripped text starts in `s`: after the leading blanks. */
  function StripStart(s: string): (i: nat)
    ensures i <= |s|
  {
    |s| - |LStrip(s)|
  }

  /** The stripped text is a blank-free-edged slice of `s`. */
  lemma StripSpec(s: string)
    ensures var r := Strip(s); var i := StripStart(s);
      && i + |r| <= |s| && r == s[i..i + |r|]
      && (r == [] || (!IsSpace(r[0]) && !IsSpace(r[|r| - 1])))
  {
    SliceOfSlice(s, LStrip(s), RStrip(LStrip(s)));
  }

  lemma SliceOfSlice(s: string, l: string, r: string)
    requires |l| <= |s| && l == s[|s| - |l|..] && |r| <= |l| && r == l[..|r|]
    requires l == [] || !IsSpace(l[0])
    requires r == [] || !IsSpace(r[|r| - 1])
    ensures |s| - |l| + |r| <= |s| && r == s[|s| - |l|..|s| - |l| + |r|]
    ensures r == [] || (!IsSpace(r[0]) && !IsSpace(r[|r| - 1]))
  {
  }

  /** Only blanks were cut. */
  lemma StripCutsBlanks(s: string)
    ensures var r := Strip(s); var i := StripStart(s);
      && i + |r| <= |s|
      && (forall k :: 0 <= k < i ==> IsSpace(s[k]))
      && (forall k :: i + |r| <= k < |s| ==> IsSpace(s[k]))
  {
    var l := LStrip(s);
    var r := RStrip(l);
    var i := |s| - |l|;
    LStripBlanks(s);
    RStripBlanks(l);
    forall k | i + |r| <= k < |s|
      ensures IsSpace(s[k])
    {
      assert s[k] == l[k - i];
    }
  }

  lemma {:induction false} StripNoEdgeSpace(s: string)
    requires s == [] || (!IsSpace(s[0]) && !IsSpace(s[|s| - 1]))
    ensures Strip(s) == s
  {
    assert LStrip(s) == s;
    assert RStrip(s) == s;
  }

  // ---------------------------------------------------------------------
  // split() on whitespace and join
  // ---------------------------------------------------------------------

  /** The longest blank-free prefix of `s`. */
  function TakeWord(s: string): (w: string)
    ensures |w| <= |s| && w == s[..|w|] && NoSpace(w)
    ensures |w| < |s| ==> IsSpace(s[|w|])
  {
    if s == [] || IsSpace(s[0]) then [] else [s[0]] + TakeWord(s[1..])
  }

  /** Python `s.split()`: the maximal blank-free runs of `s`, in order. */
  function Words(s: string): seq<string>
    decreases |s|
  {
    var t := LStrip(s);
    if t == [] then []
    else
      var w := TakeWord(t);
      [w] + Words(t[|w|..])
  }

  /** Every word is non-empty and blank-free. */
  lemma {:induction false} WordsAreBlankFree(s: string)
    ensures forall i :: 0 <= i < |Words(s)| ==> Words(s)[i] != [] && NoSpace(Words(s)[i])
    decreases |s|
  {
    var t := LStrip(s);
    if t != [] {
      var w := TakeWord(t);
      assert w != [] by {
        assert !IsSpace(t[0]);
      }
      var rest := Words(t[|w|..]);
      WordsAreBlankFree(t[|w|..]);
      var ws := Words(s);
      assert ws == [w] + rest;
      forall i | 0 <= i < |ws|
        ensures ws[i] != [] && NoSpace(ws[i])
      {
        if i > 0 {
          assert ws[i] == rest[i - 1];
        }
      }
    }
  }

  /** Python `sep.join(parts)`. */
  function Join(sep: string, parts: seq<string>): string
  {
    if |parts| == 0 then ""
    else if |parts| == 1 then parts[0]
    else parts[0] + sep + Join(sep, parts[1..])
  }

  lemma JoinAppend(sep: string, parts: seq<string>, x: string)
    requires |parts| > 0
    ensures Join(sep, parts + [x]) == Join(sep, parts) + sep + x
  {
    if |parts| == 1 {
      assert parts + [x] == [parts[0], x];
    } else {
      assert (parts + [x])[1..] == parts[1..] + [x];
      JoinAppend(sep, parts[1..], x);
    }
  }

  /** A blank-free word standing alone is its own split. */
  lemma {:induction false} WordsOfWordPrefix(w: string, rest: string)
    requires w != [] && NoSpace(w)
    requires rest == [] || IsSpace(rest[0])
    ensures Words(w + rest) == [w] + Words(rest)
  {
    var s := w + rest;
    assert LStrip(s) == s;
    TakeWordExact(w, rest);
    assert s[|w|..] == rest;
  }

  lemma {:induction false} TakeWordExact(w: string, rest: string)
    requires NoSpace(w)
    requires rest == [] || IsSpace(rest[0])
    ensures TakeWord(w + rest) == w
    decreases |w|
  {
    if w == [] {
    } else {
      assert (w + rest)[1..] == w[1..] + rest;
      TakeWordExact(w[1..], rest);
    }
  }

  /** Splitting a single-space join of blank-free words gives the words back. */
  lemma {:induction false} WordsOfJoin(ws: seq<string>)
    requires forall i :: 0 <= i < |ws| ==> ws[i] != [] && NoSpace(ws[i])
    ensures Words(Join(" ", ws)) == ws
  {
    if |ws| <= 1 {
      WordsOfJoinShort(ws);
    } else {
      WordsOfJoin(ws[1..]);
      WordsOfJoinCons(ws);
    }
  }

  lemma WordsOfJoinShort(ws: seq<string>)
    requires |ws| <= 1 && (|ws| == 1 ==> ws[0] != [] && NoSpace(ws[0]))
    ensures Words(Join(" ", ws)) == ws
  {
    if |ws| == 0 {
      assert Words("") == [];
    } else {
      WordsOfWord(ws[0]);
    }
  }

  lemma WordsOfWord(w: string)
    requires w != [] && NoSpace(w)
    ensures Words(w) == [w]
  {
    WordsOfWordPrefix(w, "");
    assert w + "" == w;
    assert Words("") == [];
  }

  lemma WordsOfJoinCons(ws: seq<string>)
    requires |ws| >= 2 && ws[0] != [] && NoSpace(ws[0])
    requires Words(Join(" ", ws[1..])) == ws[1..]
    ensures Words(Join(" ", ws)) == ws
  {
    var rest := Join(" ", ws[1..]);
    var tail := " " + rest;
    JoinCons(" ", ws);
    WordsOfWordPrefix(ws[0], tail);
    WordsIgnoresLeadingBlank(rest);
    assert ws == [ws[0]] + ws[1..];
  }

  lemma JoinCons(sep: string, ws: seq<string>)
    requires |ws| >= 2
    ensures Join(sep, ws) == ws[0] + (sep + Join(sep, ws[1..]))
  {
  }

  lemma WordsIgnoresLeadingBlank(s: string)
    ensures Words(" " + s) == Words(s)
  {
    assert (" " + s)[1..] == s;
    assert LStrip(" " + s) == LStrip(s);
  }

  // ---------------------------------------------------------------------
  // split(sep) and replace
  // ---------------------------------------------------------------------

  /** Python `s.split(sep)` for a non-empty separator: scans left to right. */
  function Split(s: string, sep: string): (r: seq<string>)
    requires |sep| > 0
    ensures |r| >= 1
    decreases |s|
  {
    if |s| < |sep| then [s]
    else if s[..|sep|] == sep then [""] + Split(s[|sep|..], sep)
    else
      var rest := Split(s[1..], sep);
      [[s[0]] + rest[0]] + rest[1..]
  }

  /** Joining the pieces of a split with the separator restores the string. */
  lemma {:induction false} JoinSplit(s: string, sep: string)
    requires |sep| > 0
    ensures Join(sep, Split(s, sep)) == s
    decreases |s|
  {
    if |s| < |sep| {
    } else if s[..|sep|] == sep {
      JoinSplit(s[|sep|..], sep);
      var rest := Split(s[|sep|..], sep);
      assert Split(s, sep) == [""] + rest;
      assert ([""] + rest)[1..] == rest;
      assert s == sep + s[|sep|..];
    } else {
      JoinSplit(s[1..], sep);
      var rest := Split(s[1..], sep);
      var r := [[s[0]] + rest[0]] + rest[1..];
      assert Split(s, sep) == r;
      assert s == [s[0]] + s[1..];
      if |rest| == 1 {
        assert Join(sep, rest) == rest[0];
      } else {
        assert r[1..] == rest[1..];
        assert Join(sep, rest) == rest[0] + sep + Join(sep, rest[1..]);
      }
    }
  }

  /** A prefix free of the one-character separator joins the first piece. */
  lemma {:induction false} SplitPrefix(a: string, rest: string, c: char)
    requires c !in a
    ensures Split(a + rest, [c]) == [a + Split(rest, [c])[0]] + Split(rest, [c])[1..]
    decreases |a|
  {
    if a != [] {
      var s := a + rest;
      assert s[..1] == [a[0]] && [a[0]] != [c];
      assert s[1..] == a[1..] + rest;
      SplitPrefix(a[1..], rest, c);
      assert [a[0]] + (a[1..] + Split(rest, [c])[0]) == a + Split(rest, [c])[0];
    } else {
      var r := Split(rest, [c]);
      assert a + rest == rest && a + r[0] == r[0];
      assert r == [r[0]] + r[1..];
    }
  }

  /** Splitting a join on a separator character no part contains gives the parts back. */
  lemma {:induction false} SplitJoin(parts: seq<string>, c: char)
    requires |parts| >= 1
    requires forall i :: 0 <= i < |parts| ==> c !in parts[i]
    ensures Split(Join([c], parts), [c]) == parts
  {
    if |parts| == 1 {
      SplitPrefix(parts[0], "", c);
      assert parts[0] + "" == parts[0];
    } else {
      var tail := Join([c], parts[1..]);
      assert Join([c], parts) == parts[0] + ([c] + tail);
      SplitPrefix(parts[0], [c] + tail, c);
      assert ([c] + tail)[..1] == [c] && ([c] + tail)[1..] == tail;
      var r := Split([c] + tail, [c]);
      assert r == [""] + Split(tail, [c]);
      SplitJoin(parts[1..], c);
      assert r[0] == "" && r[1..] == parts[1..];
      assert parts[0] + r[0] == parts[0];
      assert parts == [parts[0]] + parts[1..];
    }
  }

  /** Each line followed by a newline, as successive `write(line + "\n")` calls leave a file. */
  function Lines(ls: seq<string>): string
  {
    if ls == [] then "" else Lines(ls[..|ls| - 1]) + ls[|ls| - 1] + "\n"
  }

  lemma {:induction false} LinesAppend(a: seq<string>, b: seq<string>)
    ensures Lines(a + b) == Lines(a) + Lines(b)
    decreases |b|
  {
    if b == [] {
      assert a + b == a;
    } else {
      var b' := b[..|b| - 1];
      assert (a + b)[..|a + b| - 1] == a + b';
      LinesAppend(a, b');
    }
  }

  /** The lines written out are the newline-join of the lines and a final empty piece. */
  lemma {:induction false} LinesJoin(ls: seq<string>)
    ensures Lines(ls) == Join("\n", ls + [""])
    decreases |ls|
  {
    if ls != [] {
      var init := ls[..|ls| - 1];
      var last := ls[|ls| - 1];
      LinesJoin(init);
      assert ls + [""] == (init + [last]) + [""];
      assert ls == init + [last];
      JoinAppend("\n", init + [last], "");
      if init == [] {
        assert init + [last] == [last];
      } else {
        JoinAppend("\n", init, last);
        JoinAppend("\n", init, "");
      }
    }
  }

  /** A file of newline-free lines splits on newlines into those lines and a final empty piece. */
  lemma SplitLines(ls: seq<string>)
    requires forall i :: 0 <= i < |ls| ==> '\n' !in ls[i]
    ensures Split(Lines(ls), "\n") == ls + [""]
  {
    var all := ls + [""];
    forall i | 0 <= i < |all|
      ensures '\n' !in all[i]
    {
      if i < |ls| {
        assert all[i] == ls[i];
      }
    }
    assert Lines(ls) == Join("\n", all) by {
      LinesJoin(ls);
    }
    SplitJoin(all, '\n');
  }

  /** Python `s.replace(p, r)`: non-overlapping occurrences, left to right. */
  function Replace(s: string, p: string, r: string): string
    requires |p| > 0
    decreases |s|
  {
    if |s| < |p| then s
    else if s[..|p|] == p then r + Replace(s[|p|..], p, r)
    else [s[0]] + Replace(s[1..], p, r)
  }

  /** A prefix that cannot start an occurrence of `p` is copied unchanged. */
  lemma {:induction false} ReplaceSkip(a: string, rest: string, p: string, r: string)
    requires |p| > 0 && p[0] !in a
    ensures Replace(a + rest, p, r) == a + Replace(rest, p, r)
    decreases |a|
  {
    if a == [] {
      assert a + rest == rest;
    } else {
      var s := a + rest;
      assert s[0] == a[0] && a[0] != p[0];
      assert s[1..] == a[1..] + rest;
      if |s| < |p| {
        assert |rest| < |p|;
      } else {
        assert s[..|p|][0] != p[0];
        ReplaceSkip(a[1..], rest, p, r);
      }
    }
  }

  /** An occurrence at the very start is replaced and scanning resumes after it. */
  lemma ReplaceAtStart(p: string, rest: string, r: string)
    requires |p| > 0
    ensures Replace(p + rest, p, r) == r + Replace(rest, p, r)
  {
    var s := p + rest;
    assert s[..|p|] == p;
    assert s[|p|..] == rest;
  }

  /** A character in neither the input nor the replacement is not in the result. */
  lemma {:induction false} ReplaceKeepsAbsent(s: string, p: string, r: string, c: char)
    requires |p| > 0 && c !in s && c !in r
    ensures c !in Replace(s, p, r)
    decreases |s|
  {
    if |s| < |p| {
    } else if s[..|p|] == p {
      ReplaceKeepsAbsent(s[|p|..], p, r, c);
    } else {
      ReplaceKeepsAbsent(s[1..], p, r, c);
    }
  }

  /** A pattern holding a character the text lacks does not occur in it. */
  lemma AbsentCharNoOccurrence(p: string, s: string, c: char)
    requires c in p && c !in s
    ensures !Occurs(p, s)
  {
    var j :| 0 <= j < |p| && p[j] == c;
    forall i | 0 <= i <= |s| - |p|
      ensures !OccursAt(p, s, i)
    {
      assert s[i + j] != c;
      assert s[i..i + |p|][j] == s[i + j];
    }
  }

  /** Replacing every occurrence of a one-character pattern by text without it leaves none. */
  lemma {:induction false} ReplaceRemovesChar(s: string, c: char, r: string)
    requires c !in r
    ensures c !in Replace(s, [c], r)
    decreases |s|
  {
    if |s| < 1 {
    } else if s[..1] == [c] {
      ReplaceRemovesChar(s[1..], c, r);
    } else {
      ReplaceRemovesChar(s[1..], c, r);
      assert s[0] != c;
    }
  }

  /**
   * When every occurrence of `p`'s first character opens an occurrence of
   * `p`, and the replacement lacks that character, none is left.
   */
  lemma {:induction false} ReplaceFillsAll(s: string, p: string, r: string)
    requires |p| > 0 && p[0] !in r
    requires forall i :: 0 <= i < |s| && s[i] == p[0] ==> i + |p| <= |s| && s[i..i + |p|] == p
    ensures p[0] !in Replace(s, p, r)
    decreases |s|
  {
    if |s| < |p| {
      forall i | 0 <= i < |s|
        ensures s[i] != p[0]
      {
      }
    } else {
      assert s[0] == p[0] ==> s[..|p|] == p by {
        if s[0] == p[0] {
          assert s[0..|p|] == p;
        }
      }
      var d := if s[..|p|] == p then |p| else 1;
      var t := s[d..];
      forall i | 0 <= i < |t| && t[i] == p[0]
        ensures i + |p| <= |t| && t[i..i + |p|] == p
      {
        assert s[d + i] == t[i];
        SliceOfSuffix(s, d, i, |p|);
      }
      ReplaceFillsAll(t, p, r);
    }
  }

  lemma SliceOfSuffix(s: string, d: nat, i: nat, n: nat)
    requires d + i + n <= |s|
    ensures s[d..][i..i + n] == s[d + i..d + i + n]
  {
  }

  /** A pattern that does not occur leaves the string as it is. */
  lemma {:induction false} ReplaceAbsent(s: string, p: string, r: string)
    requires |p| > 0 && !Occurs(p, s)
    ensures Replace(s, p, r) == s
    decreases |s|
  {
    if |s| < |p| {
    } else {
      assert !OccursAt(p, s, 0);
      assert !Occurs(p, s[1..]) by {
        forall i | 0 <= i <= |s[1..]| - |p|
          ensures !OccursAt(p, s[1..], i)
        {
          assert s[1..][i..i + |p|] == s[i + 1..i + 1 + |p|];
          assert !OccursAt(p, s, i + 1);
        }
      }
      ReplaceAbsent(s[1..], p, r);
    }
  }

  // ---------------------------------------------------------------------
  // Case mapping
  // ---------------------------------------------------------------------

  function LowerChar(c: char): char {
    if IsUpper(c) then (c as int + 32) as char else c
  }

  function UpperChar(c: char): char {
    if IsLowerLetter(c) then (c as int - 32) as char else c
  }

  /** Python `s.lower()` on ASCII letters. */
  function Lower(s: string): (r: string)
    ensures |r| == |s| && forall i :: 0 <= i < |s| ==> r[i] == LowerChar(s[i])
  {
    seq(|s|, i requires 0 <= i < |s| => LowerChar(s[i]))
  }

  /** Python `s.upper()` on ASCII letters. */
  function Upper(s: string): (r: string)
    ensures |r| == |s| && forall i :: 0 <= i < |s| ==> r[i] == UpperChar(s[i])
  {
    seq(|s|, i requires 0 <= i < |s| => UpperChar(s[i]))
  }

  // ---------------------------------------------------------------------
  // Integers: str(n), f"{n:0Wd}", int(s)
  // ---------------------------------------------------------------------

  function DigitChar(d: nat): (c: char)
    requires d < 10
    ensures IsDigit(c)
  {
    ('0' as int + d) as char
  }

  function DigitValue(c: char): nat
    requires IsDigit(c)
  {
    c as int - '0' as int
  }

  /** Decimal digits of `n`, without leading zeros (`str(n)` for n >= 0). */
  function NatToString(n: nat): (s: string)
    ensures |s| >= 1 && AllDigits(s)
  {
    if n < 10 then [DigitChar(n)] else NatToString(n / 10) + [DigitChar(n % 10)]
  }

  /** The number a string of decimal digits denotes. */
  function DigitsValue(s: string): nat
    requires AllDigits(s)
  {
    if s == [] then 0 else DigitsValue(s[..|s| - 1]) * 10 + DigitValue(s[|s| - 1])
  }

  lemma {:induction false} DigitsValueOfNatToString(n: nat)
    ensures DigitsValue(NatToString(n)) == n
  {
    if n >= 10 {
      DigitsValueOfNatToString(n / 10);
      var s := NatToString(n);
      assert s[..|s| - 1] == NatToString(n / 10);
    }
  }

  lemma {:induction false} DigitsValueLeadingZero(s: string)
    requires AllDigits(s)
    ensures DigitsValue("0" + s) == DigitsValue(s)
    decreases |s|
  {
    if s != [] {
      var t := "0" + s;
      assert t[..|t| - 1] == "0" + s[..|s| - 1];
      DigitsValueLeadingZero(s[..|s| - 1]);
    }
  }

  function Zeros(k: nat): (z: string)
    ensures |z| == k && AllDigits(z)
  {
    if k == 0 then "" else "0" + Zeros(k - 1)
  }

  lemma {:induction false} DigitsValueZeros(k: nat, s: string)
    requires AllDigits(s)
    ensures DigitsValue(Zeros(k) + s) == DigitsValue(s)
  {
    if k == 0 {
      assert Zeros(k) + s == s;
    } else {
      var t := Zeros(k - 1) + s;
      assert Zeros(k) + s == "0" + t;
      DigitsValueZeros(k - 1, s);
      DigitsValueLeadingZero(t);
    }
  }

  /** Left-pads `s` with zeros to at least `w` characters. */
  function ZeroPad(s: string, w: nat): (r: string)
    ensures |r| == if |s| >= w then |s| else w
    ensures AllDigits(s) ==> AllDigits(r)
  {
    if |s| >= w then s else Zeros(w - |s|) + s
  }

  /** Python `f"{n:0{w}d}"`: the sign counts towards the width. */
  function FormatInt(n: int, w: nat): string
  {
    if n >= 0 then ZeroPad(NatToString(n), w)
    else "-" + ZeroPad(NatToString(-n), if w > 0 then w - 1 else 0)
  }

  /** A zero-padded natural number reads back as itself. */
  lemma PaddedNatValue(n: nat, w: nat)
    ensures AllDigits(FormatInt(n, w)) && |FormatInt(n, w)| >= w
    ensures DigitsValue(FormatInt(n, w)) == n
  {
    var s := NatToString(n);
    DigitsValueOfNatToString(n);
    if |s| < w {
      DigitsValueZeros(w - |s|, s);
    }
  }

  /** A zero-padded integer has no newline. */
  lemma FormatIntNoNewline(n: int, w: nat)
    ensures '\n' !in FormatInt(n, w)
  {
    if n >= 0 {
      PaddedNatValue(n, w);
    } else {
      PaddedNatValue(-n, if w > 0 then w - 1 else 0);
      assert FormatInt(n, w) == "-" + FormatInt(-n, if w > 0 then w - 1 else 0);
    }
  }

  /** A formatted integer starts with a minus sign exactly when it is negative. */
  lemma {:induction false} FormatIntSign(n: int, w: nat)
    ensures FormatInt(n, w) != [] && (FormatInt(n, w)[0] == '-' <==> n < 0)
  {
    if n >= 0 {
      PaddedNatValue(n, w);
      assert |NatToString(n)| >= 1;
      assert IsDigit(FormatInt(n, w)[0]);
    }
  }

  /** Different integers are formatted differently, whatever the width. */
  lemma {:induction false} FormatIntInjective(a: int, b: int, w: nat)
    requires FormatInt(a, w) == FormatInt(b, w)
    ensures a == b
  {
    FormatIntSign(a, w);
    FormatIntSign(b, w);
    assert a < 0 <==> b < 0;
    if a >= 0 {
      PaddedNatInjective(a, b, w);
    } else {
      var w' := if w > 0 then w - 1 else 0;
      FormatIntNegative(a, w);
      FormatIntNegative(b, w);
      MinusInjective(FormatInt(-a, w'), FormatInt(-b, w'));
      PaddedNatInjective(-a, -b, w');
    }
  }

  lemma PaddedNatInjective(a: nat, b: nat, w: nat)
    requires FormatInt(a, w) == FormatInt(b, w)
    ensures a == b
  {
    PaddedNatValue(a, w);
    PaddedNatValue(b, w);
  }

  lemma MinusInjective(x: string, y: string)
    requires "-" + x == "-" + y
    ensures x == y
  {
    assert x == ("-" + x)[1..];
  }

  lemma FormatIntNegative(n: int, w: nat)
    requires n < 0
    ensures FormatInt(n, w) == "-" + FormatInt(-n, if w > 0 then w - 1 else 0)
  {
  }

  /** `str(n)`. */
  /** Python `str(n)`: the digits of `|n|`, after a '-' when `n` is negative. */
  function IntToString(n: int): string
  {
    if n >= 0 then NatToString(n) else "-" + NatToString(-n)
  }

  /** Digits with single underscores between them, as `int()` accepts. */
  predicate ValidDigitGroups(s: string) {
    && s != []
    && IsDigit(s[0]) && IsDigit(s[|s| - 1])
    && (forall i :: 0 <= i < |s| ==> IsDigit(s[i]) || s[i] == '_')
    && (forall i :: 0 <= i < |s| - 1 ==> s[i] == '_' ==> s[i + 1] != '_')
  }

  function RemoveUnderscores(s: string): (r: string)
    requires forall i :: 0 <= i < |s| ==> IsDigit(s[i]) || s[i] == '_'
    ensures AllDigits(r)
  {
    if s == [] then ""
    else if s[0] == '_' then RemoveUnderscores(s[1..])
    else [s[0]] + RemoveUnderscores(s[1..])
  }

  lemma RemoveUnderscoresDigits(s: string)
    requires AllDigits(s)
    ensures RemoveUnderscores(s) == s
  {
  }

  /** Python `int(s)` for base 10: `None` where Python raises `ValueError`. */
  function ParseInt(s: string): Option<int>
  {
    var t := Strip(s);
    if t == [] then None
    else if t[0] == '-' || t[0] == '+' then
      var body := t[1..];
      if ValidDigitGroups(body) then
        var v: int := DigitsValue(RemoveUnderscores(body));
        Some(if t[0] == '-' then -v else v)
      else None
    else if ValidDigitGroups(t) then Some(DigitsValue(RemoveUnderscores(t)))
    else None
  }

  /** `int(str(n)) == n`. */
  lemma ParseIntOfIntToString(n: int)
    ensures ParseInt(IntToString(n)) == Some(n)
  {
    if n >= 0 {
      ParseNatToString(n);
    } else {
      ParseNegativeToString(n);
    }
  }

  lemma ParseNatToString(n: nat)
    ensures ParseInt(IntToString(n)) == Some(n)
  {
    var d := NatToString(n);
    assert IntToString(n) == d;
    DigitsValueOfNatToString(n);
    DigitsParse(d);
    StripNoEdgeSpace(d);
    assert d[0] != '-' && d[0] != '+';
  }

  lemma ParseNegativeToString(n: int)
    requires n < 0
    ensures ParseInt(IntToString(n)) == Some(n)
  {
    var d := NatToString(-n);
    DigitsValueOfNatToString(-n);
    ParseNegatedDigits(d, n);
    assert IntToString(n) == "-" + d;
  }

  /** '-' and the digits of `-n` parse as `n`. */
  lemma ParseNegatedDigits(d: string, n: int)
    requires n < 0 && d != [] && AllDigits(d) && DigitsValue(d) == -n
    ensures ParseInt("-" + d) == Some(n)
  {
    var s := "-" + d;
    DigitsParse(d);
    assert s[1..] == d;
    assert !IsSpace(s[|s| - 1]);
    StripNoEdgeSpace(s);
  }

  lemma DigitsParse(d: string)
    requires d != [] && AllDigits(d)
    ensures ValidDigitGroups(d) && RemoveUnderscores(d) == d
    ensures !IsSpace(d[0]) && !IsSpace(d[|d| - 1])
  {
    RemoveUnderscoresDigits(d);
  }
}

/** Python's fixed-point formatting `f"{x:.Nf}"` of exact values. */
module Decimal {
  import opened Strings

  // ---------------------------------------------------------------------
  // Fixed-point formatting f"{x:.Nf}"
  // ---------------------------------------------------------------------

  /** Round to the nearest integer, ties to even (Python's `format` rounding). */
  function RoundHalfEven(v: real): (k: nat)
    requires v >= 0.0
    ensures v - 1.0 < k as real < v + 1.0
  {
    var f := v.Floor;
    var frac := v - f as real;
    if frac > 0.5 then f + 1
    else if frac < 0.5 then f
    else if f % 2 == 0 then f else f + 1
  }

  function Pow10(k: nat): (p: nat)
    ensures p >= 1
  {
    if k == 0 then 1 else 10 * Pow10(k - 1)
  }

  function Scale(v: real, p: nat): (r: real)
    requires v >= 0.0
    ensures r >= 0.0
  {
    v * p as real
  }

  /** The integer `m` read as a decimal with `places` fraction digits. */
  function FixedDigits(m: nat, places: nat): string
    requires places > 0
  {
    var p := Pow10(places);
    DivModNat(m, p);
    NatToString(m / p) + "." + FormatInt(m % p, places)
  }

  lemma DivModNat(m: nat, p: nat)
    requires p >= 1
    ensures m / p >= 0 && 0 <= m % p < p
  {
  }

  /** `f"{x:.{places}f}"` of the exact value `x`. */
  function FormatFixed(x: real, places: nat): string
  {
    var m := RoundHalfEven(Scale(if x < 0.0 then -x else x, Pow10(places)));
    (if x < 0.0 then "-" else "") + (if places == 0 then NatToString(m) else FixedDigits(m, places))
  }
}

/** Parsing a list of integers, as a comprehension over `int(...)` does. */
module IntLists {
  import opened Base
  import opened Strings

  /** `[int(p) for p in parts]`: `None` as soon as one part does not parse. */
  function ParseInts(parts: seq<string>): (r: Option<seq<int>>)
    ensures r.Some? <==> forall i :: 0 <= i < |parts| ==> ParseInt(parts[i]).Some?
    ensures r.Some? ==> |r.value| == |parts| && forall i :: 0 <= i < |parts| ==> ParseInt(parts[i]) == Some(r.value[i])
  {
    if parts == [] then Some([])
    else
      var h := ParseInt(parts[0]);
      var t := ParseInts(parts[1..]);
      assert forall i :: 1 <= i < |parts| ==> parts[1..][i - 1] == parts[i];
      if h.None? || t.None? then None else Some([h.value] + t.value)
  }

  /** Python's `repr` of a list of integers: `[0, 1, 2]`. */
  function ReprInts(xs: seq<int>): (r: string)
    ensures |r| >= 2 && r[0] == '[' && r[|r| - 1] == ']'
  {
    "[" + Join(", ", seq(|xs|, i requires 0 <= i < |xs| => IntToString(xs[i]))) + "]"
  }
}
