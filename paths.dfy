/**
 * POSIX path operations of Python's `os.path` used by the modelled code:
 * `join` (two components), `basename` and the root part of `splitext`.
 */
module Paths {
  import opened Wrappers
  import opened Strings

  /** The last index below `j` holding `c`, or -1. */
  function RFindBefore(s: string, c: char, j: nat): (i: int)
    requires j <= |s|
    ensures -1 <= i < j
    ensures i >= 0 ==> s[i] == c
    ensures forall k :: i < k < j ==> s[k] != c
  {
    if j == 0 then -1
    else if s[j - 1] == c then j - 1
    else RFindBefore(s, c, j - 1)
  }

  /** The last index of `c` in `s`, or -1 (Python's `str.rfind`). */
  function RFind(s: string, c: char): (i: int)
    ensures -1 <= i < |s|
    ensures i >= 0 ==> s[i] == c
    ensures forall k :: i < k < |s| ==> s[k] != c
  {
    RFindBefore(s, c, |s|)
  }

  /** An occurrence with no later occurrence is the one `rfind` finds. */
  lemma RFindIs(s: string, c: char, i: int)
    requires -1 <= i < |s|
    requires i >= 0 ==> s[i] == c
    requires forall k :: i < k < |s| ==> s[k] != c
    ensures RFind(s, c) == i
  {
  }

  /** `os.path.join(a, b)`. */
  function PathJoin(a: string, b: string): string {
    if StartsWith(b, "/") then b
    else if a == [] || EndsWith(a, "/") then a + b
    else a + "/" + b
  }

  /** `os.path.basename(p)`: everything after the last '/'. */
  function Basename(p: string): (r: string)
    ensures '/' !in r
    ensures EndsWith(p, r)
  {
    var i := RFind(p, '/') + 1;
    assert forall k :: 0 <= k < |p[i..]| ==> p[i..][k] == p[i + k];
    p[i..]
  }

  /** Whether some character strictly between positions `lo` and `hi` of `p` is not a dot. */
  predicate NonDotBetween(p: string, lo: int, hi: int)
    requires -1 <= lo && hi <= |p|
  {
    exists k :: lo < k < hi && 0 <= k && p[k] != '.'
  }

  /**
   * `os.path.splitext(p)[0]`: the path without its last extension. A dot only starts an
   * extension when it comes after the last '/' and after some non-dot character of the
   * final component (so ".bashrc" has no extension).
   */
  function SplitExtRoot(p: string): (r: string)
    ensures StartsWith(p, r)
  {
    var sep := RFind(p, '/');
    var dot := RFind(p, '.');
    if dot > sep && NonDotBetween(p, sep, dot) then p[..dot] else p
  }

  /** The file name of a path built by joining a directory with a bare name is that name. */
  lemma BasenameOfJoin(dir: string, name: string)
    requires '/' !in name
    ensures Basename(PathJoin(dir, name)) == name
  {
    assert |name| > 0 ==> name[..1] != "/" by {
      if |name| > 0 { assert name[..1][0] == name[0]; }
    }
    var p := PathJoin(dir, name);
    var start := |p| - |name|;
    if dir == [] || EndsWith(dir, "/") {
      assert p == dir + name;
      assert dir != [] ==> p[|dir| - 1] == dir[|dir| - 1] == '/';
    } else {
      assert p == dir + "/" + name;
      assert p[|dir|] == '/';
    }
    assert forall k :: start <= k < |p| ==> p[k] == name[k - start];
    RFindIs(p, '/', start - 1);
    assert p[start..] == name;
  }

  /** `splitext` removes exactly the last extension of a plain file name. */
  lemma SplitExtStem(stem: string, ext: string)
    requires '/' !in stem && '/' !in ext && '.' !in ext
    requires |stem| > 0 && stem[0] != '.'
    ensures SplitExtRoot(stem + "." + ext) == stem
  {
    var p := stem + "." + ext;
    assert p[|stem|] == '.';
    assert forall k :: |stem| < k < |p| ==> p[k] == ext[k - |stem| - 1];
    assert forall k :: 0 <= k < |stem| ==> p[k] == stem[k];
    RFindIs(p, '.', |stem|);
    RFindIs(p, '/', -1);
    assert p[0] == stem[0];
    assert NonDotBetween(p, -1, |stem|);
    assert p[..|stem|] == stem;
  }
}
