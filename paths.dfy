/**
 * The `pathlib.Path` accessors the core uses (`name`, `stem`, `suffix`,
 * `parent`, `/`), over POSIX path strings separated by '/'.
 */
module Paths {

  /** Index of the last occurrence of `c` in `s`, or -1 (Python `rfind`). */
  function RFind(s: string, c: char): (i: int)
    ensures -1 <= i < |s|
    ensures i >= 0 ==> s[i] == c
    ensures forall k :: i < k < |s| ==> s[k] != c
  {
    if s == [] then -1
    else if s[|s| - 1] == c then |s| - 1
    else RFind(s[..|s| - 1], c)
  }

  /** `Path(p).name`: the final component. */
  function Name(p: string): (n: string)
    ensures '/' !in n
    ensures |n| <= |p| && n == p[|p| - |n|..]
  {
    var i := RFind(p, '/');
    p[i + 1..]
  }

  /** `Path(p).parent`: everything before the final component, "." if none. */
  function Parent(p: string): string
  {
    var i := RFind(p, '/');
    if i < 0 then "." else p[..i]
  }

  /** `dir / name` for a relative `name`. */
  function JoinPath(dir: string, name: string): string
  {
    if dir == "" || dir == "." then name else dir + "/" + name
  }

  /** `Path(p).suffix`: from the last '.' of the name, unless that dot leads or ends it. */
  function Suffix(p: string): (s: string)
    ensures s == [] || s[0] == '.'
  {
    var n := Name(p);
    var i := RFind(n, '.');
    if 0 < i < |n| - 1 then n[i..] else ""
  }

  /** `Path(p).stem`: the name without its suffix. */
  function Stem(p: string): string
  {
    var n := Name(p);
    var i := RFind(n, '.');
    if 0 < i < |n| - 1 then n[..i] else n
  }

  /** The stem followed by the suffix is the name. */
  lemma StemAndSuffix(p: string)
    ensures Stem(p) + Suffix(p) == Name(p)
  {
    var n := Name(p);
    var i := RFind(n, '.');
    if 0 < i < |n| - 1 {
      assert n[..i] + n[i..] == n;
    } else {
      assert n + "" == n;
    }
  }

  /** Joining a name onto a directory and taking the name back gives the name. */
  lemma NameOfJoin(dir: string, name: string)
    requires '/' !in name
    ensures Name(JoinPath(dir, name)) == name
  {
    var p := JoinPath(dir, name);
    if dir != "" && dir != "." {
      assert p[|dir|] == '/';
      assert forall k :: |dir| < k < |p| ==> p[k] == name[k - |dir| - 1];
      assert p[|dir| + 1..] == name;
    } else {
      assert p == name;
    }
  }
}
