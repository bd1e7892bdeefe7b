/**
 * Python's `sorted`: the stable sort by a size key in descending order
 * (`sorted(files, key=size, reverse=True)`) and the ascending sort of
 * strings by code point, each given as an insertion sort with its
 * ordering and permutation properties.
 */
module Sorting {

  // ---------------------------------------------------------------------
  // Descending by a natural-number key, stable
  // ---------------------------------------------------------------------

  predicate SortedDesc<T>(s: seq<T>, key: T -> nat) {
    forall i, j :: 0 <= i < j < |s| ==> key(s[i]) >= key(s[j])
  }

  /**
   * Places `x` in front of the first element whose key is not larger, so an
   * element inserted earlier in the input stays ahead of equal-key successors.
   */
  function InsertDesc<T>(x: T, s: seq<T>, key: T -> nat): (r: seq<T>)
    requires SortedDesc(s, key)
    ensures multiset(r) == multiset(s) + multiset{x}
    ensures SortedDesc(r, key)
  {
    if s == [] || key(s[0]) <= key(x) then
      ConsSortedDesc(x, s, key);
      [x] + s
    else
      SortedDescTail(s, key);
      var tail := InsertDesc(x, s[1..], key);
      InsertedBelowHead(x, s, tail, key);
      [s[0]] + tail
  }

  lemma SortedDescTail<T>(s: seq<T>, key: T -> nat)
    requires s != [] && SortedDesc(s, key)
    ensures SortedDesc(s[1..], key)
    ensures forall y :: y in multiset(s[1..]) ==> key(s[0]) >= key(y)
  {
    forall y | y in multiset(s[1..])
      ensures key(s[0]) >= key(y)
    {
      var j :| 0 <= j < |s[1..]| && s[1..][j] == y;
      assert s[j + 1] == y;
    }
  }

  /** A head no smaller than anything after it keeps a descending sequence descending. */
  lemma ConsSortedDesc<T>(h: T, s: seq<T>, key: T -> nat)
    requires SortedDesc(s, key) && (s == [] || key(s[0]) <= key(h))
    ensures SortedDesc([h] + s, key)
  {
    var r := [h] + s;
    forall i, j | 0 <= i < j < |r|
      ensures key(r[i]) >= key(r[j])
    {
      if i == 0 {
        assert r[j] == s[j - 1];
        if j > 1 {
          assert key(s[0]) >= key(s[j - 1]);
        }
      } else {
        assert r[i] == s[i - 1] && r[j] == s[j - 1];
      }
    }
  }

  lemma InsertedBelowHead<T>(x: T, s: seq<T>, tail: seq<T>, key: T -> nat)
    requires s != [] && key(s[0]) > key(x)
    requires forall y :: y in multiset(s[1..]) ==> key(s[0]) >= key(y)
    requires SortedDesc(tail, key) && multiset(tail) == multiset(s[1..]) + multiset{x}
    ensures multiset([s[0]] + tail) == multiset(s) + multiset{x}
    ensures SortedDesc([s[0]] + tail, key)
  {
    assert s == [s[0]] + s[1..];
    var r := [s[0]] + tail;
    forall i, j | 0 <= i < j < |r|
      ensures key(r[i]) >= key(r[j])
    {
      assert r[j] == tail[j - 1];
      if i == 0 {
        assert tail[j - 1] in multiset(tail);
      } else {
        assert r[i] == tail[i - 1];
      }
    }
  }

  /** `sorted(s, key=key, reverse=True)`. */
  function SortDesc<T>(s: seq<T>, key: T -> nat): (r: seq<T>)
    ensures |r| == |s|
    ensures multiset(r) == multiset(s)
    ensures SortedDesc(r, key)
  {
    if s == [] then []
    else
      var r := InsertDesc(s[0], SortDesc(s[1..], key), key);
      assert s == [s[0]] + s[1..];
      assert |r| == |multiset(r)| == |multiset(s)| == |s|;
      r
  }

  /** The elements of `s` whose key is `v`, in their order in `s`. */
  function WithKey<T>(s: seq<T>, key: T -> nat, v: nat): seq<T>
  {
    if s == [] then [] else (if key(s[0]) == v then [s[0]] else []) + WithKey(s[1..], key, v)
  }

  /** Inserting `x` puts it ahead of every element with the same key. */
  lemma {:induction false} InsertDescWithKey<T>(x: T, s: seq<T>, key: T -> nat, v: nat)
    requires SortedDesc(s, key)
    ensures WithKey(InsertDesc(x, s, key), key, v) == (if key(x) == v then [x] else []) + WithKey(s, key, v)
  {
    var own := if key(x) == v then [x] else [];
    if s == [] || key(s[0]) <= key(x) {
      var r := [x] + s;
      assert InsertDesc(x, s, key) == r;
      assert r[1..] == s;
    } else {
      SortedDescTail(s, key);
      var tail := InsertDesc(x, s[1..], key);
      var r := [s[0]] + tail;
      assert InsertDesc(x, s, key) == r;
      var head := if key(s[0]) == v then [s[0]] else [];
      assert WithKey(r, key, v) == head + WithKey(tail, key, v) by {
        assert r[1..] == tail;
      }
      assert WithKey(tail, key, v) == own + WithKey(s[1..], key, v) by {
        InsertDescWithKey(x, s[1..], key, v);
      }
      // `x` and the head cannot both have key `v`, since the head's key is larger
      assert head == [] || own == [];
    }
  }

  /**
   * `sorted` is stable: the elements sharing any one key come out in the
   * order they went in.
   */
  lemma {:induction false} SortDescStable<T>(s: seq<T>, key: T -> nat, v: nat)
    ensures WithKey(SortDesc(s, key), key, v) == WithKey(s, key, v)
  {
    if s != [] {
      SortDescStable(s[1..], key, v);
      InsertDescWithKey(s[0], SortDesc(s[1..], key), key, v);
    }
  }

  // ---------------------------------------------------------------------
  // Strings in ascending code-point order
  // ---------------------------------------------------------------------

  /** Python's `a <= b` on `str`: lexicographic by code point. */
  predicate StrLe(a: string, b: string) {
    if a == [] then true
    else if b == [] then false
    else if a[0] != b[0] then a[0] < b[0]
    else StrLe(a[1..], b[1..])
  }

  lemma StrLeTotal(a: string, b: string)
    ensures StrLe(a, b) || StrLe(b, a)
  {
  }

  lemma StrLeTransitive(a: string, b: string, c: string)
    requires StrLe(a, b) && StrLe(b, c)
    ensures StrLe(a, c)
  {
  }

  lemma StrLeAntisymmetric(a: string, b: string)
    requires StrLe(a, b) && StrLe(b, a)
    ensures a == b
  {
    if a != [] && b != [] {
      StrLeAntisymmetric(a[1..], b[1..]);
      assert a == [a[0]] + a[1..] && b == [b[0]] + b[1..];
    }
  }

  predicate SortedStrings(s: seq<string>) {
    forall i, j :: 0 <= i < j < |s| ==> StrLe(s[i], s[j])
  }

  function InsertString(x: string, s: seq<string>): (r: seq<string>)
    requires SortedStrings(s)
    ensures multiset(r) == multiset(s) + multiset{x}
    ensures SortedStrings(r)
  {
    if s == [] || StrLe(x, s[0]) then
      ConsSortedStrings(x, s);
      [x] + s
    else
      StrLeTotal(x, s[0]);
      SortedStringsTail(s);
      var tail := InsertString(x, s[1..]);
      HeadBelowInsert(x, s, tail);
      ConsAboveSorted(s[0], tail);
      assert s == [s[0]] + s[1..];
      [s[0]] + tail
  }

  lemma SortedStringsTail(s: seq<string>)
    requires s != [] && SortedStrings(s)
    ensures SortedStrings(s[1..])
  {
    forall i, j | 0 <= i < j < |s| - 1
      ensures StrLe(s[1..][i], s[1..][j])
    {
      assert s[1..][i] == s[i + 1] && s[1..][j] == s[j + 1];
    }
  }

  /** A string no greater than the first of a sorted sequence keeps it sorted in front. */
  lemma ConsSortedStrings(x: string, s: seq<string>)
    requires SortedStrings(s) && (s == [] || StrLe(x, s[0]))
    ensures SortedStrings([x] + s)
  {
    forall j | 0 <= j < |s|
      ensures StrLe(x, s[j])
    {
      if j > 0 {
        StrLeTransitive(x, s[0], s[j]);
      }
    }
    ConsAboveSorted(x, s);
  }

  lemma ConsAboveSorted(h: string, s: seq<string>)
    requires SortedStrings(s) && forall j | 0 <= j < |s| :: StrLe(h, s[j])
    ensures SortedStrings([h] + s)
  {
    var r := [h] + s;
    forall i, j | 0 <= i < j < |r|
      ensures StrLe(r[i], r[j])
    {
      assert r[j] == s[j - 1];
      if i > 0 {
        assert r[i] == s[i - 1];
      }
    }
  }

  lemma HeadBelowInsert(x: string, s: seq<string>, tail: seq<string>)
    requires s != [] && SortedStrings(s) && StrLe(s[0], x)
    requires multiset(tail) == multiset(s[1..]) + multiset{x}
    ensures forall j | 0 <= j < |tail| :: StrLe(s[0], tail[j])
  {
    forall j | 0 <= j < |tail| ensures StrLe(s[0], tail[j]) {
      assert tail[j] in multiset(tail);
      if tail[j] != x {
        assert tail[j] in multiset(s[1..]);
        var k :| 0 <= k < |s[1..]| && s[1..][k] == tail[j];
        assert s[k + 1] == tail[j];
      }
    }
  }

  /** `sorted(s)` for a list of strings. */
  function SortStrings(s: seq<string>): (r: seq<string>)
    ensures |r| == |s|
    ensures multiset(r) == multiset(s)
    ensures SortedStrings(r)
  {
    if s == [] then []
    else
      var r := InsertString(s[0], SortStrings(s[1..]));
      assert s == [s[0]] + s[1..];
      assert |r| == |multiset(r)| == |multiset(s)| == |s|;
      r
  }

  /** A sorted sequence without repetitions is strictly increasing. */
  lemma SortedDistinctIndex(s: seq<string>, i: int, j: int)
    requires SortedStrings(s)
    requires forall a, b :: 0 <= a < b < |s| ==> s[a] != s[b]
    requires 0 <= i < |s| && 0 <= j < |s| && s[i] == s[j]
    ensures i == j
  {
  }
}
