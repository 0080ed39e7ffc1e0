/**
 * The POSIX flavour of Python's `os.path`: `basename`, `dirname` and `join`,
 * with `/` as the only separator.
 */
module Paths {

  /** Index of the last `/` in `p`, or -1 (`p.rfind('/')`). */
  function LastSlash(p: string): (i: int)
    ensures -1 <= i < |p|
    ensures i >= 0 ==> p[i] == '/'
    ensures forall j :: i < j < |p| ==> p[j] != '/'
    decreases |p|
  {
    if p == [] then -1
    else if p[|p| - 1] == '/' then |p| - 1
    else LastSlash(p[..|p| - 1])
  }

  /** `os.path.basename(p)`: everything after the last `/`. */
  function Basename(p: string): (b: string)
    ensures '/' !in b
    ensures |b| <= |p| && p[|p| - |b|..] == b
  {
    p[LastSlash(p) + 1..]
  }

  predicate AllSlashes(s: string) {
    forall i :: 0 <= i < |s| ==> s[i] == '/'
  }

  /** `s.rstrip('/')`. */
  function RStripSlashes(s: string): (r: string)
    ensures |r| <= |s| && s[..|r|] == r
    ensures r == [] || r[|r| - 1] != '/'
    decreases |s|
  {
    if s != [] && s[|s| - 1] == '/' then RStripSlashes(s[..|s| - 1]) else s
  }

  /**
   * `os.path.dirname(p)`: everything up to the last `/`, with trailing
   * slashes removed unless it consists of slashes only.
   */
  function Dirname(p: string): string {
    var head := p[..LastSlash(p) + 1];
    if head != [] && !AllSlashes(head) then RStripSlashes(head) else head
  }

  /** `os.path.join(a, b)`: an absolute `b` replaces `a`; otherwise one `/` goes between. */
  function PathJoin(a: string, b: string): (r: string)
    ensures |b| > 0 && b[0] == '/' ==> r == b
    ensures !(|b| > 0 && b[0] == '/') ==> |r| >= |b| && r[|r| - |b|..] == b
  {
    if |b| > 0 && b[0] == '/' then b
    else if a == [] || a[|a| - 1] == '/' then a + b
    else a + "/" + b
  }

  /** A path that never has two separators in a row. */
  predicate NoDoubleSlash(p: string) {
    forall j :: 0 <= j < |p| - 1 ==> !(p[j] == '/' && p[j + 1] == '/')
  }

  /** Joining a path's directory and base names rebuilds the path. */
  lemma DirnameBasenameJoin(p: string)
    requires NoDoubleSlash(p)
    ensures PathJoin(Dirname(p), Basename(p)) == p
  {
    var i := LastSlash(p);
    var head := p[..i + 1];
    var base := Basename(p);
    assert p == head + base;
    assert !(|base| > 0 && base[0] == '/');
    if i == -1 {
      assert Dirname(p) == [];
      assert PathJoin([], base) == base;
    } else if i == 0 {
      assert head == "/";
      assert Dirname(p) == "/";
      assert PathJoin("/", base) == "/" + base;
    } else {
      assert p[i] == '/';
      assert p[i - 1] != '/';
      assert !AllSlashes(head) by { assert head[i - 1] != '/'; }
      StripOneSlash(head);
      var dir := p[..i];
      assert head[..i] == dir;
      assert Dirname(p) == dir;
      assert dir != [] && dir[|dir| - 1] != '/';
      assert PathJoin(dir, base) == dir + "/" + base;
      assert p == dir + "/" + base;
    }
  }

  /** A single trailing slash after a non-slash character is all that `rstrip` removes. */
  lemma StripOneSlash(s: string)
    requires |s| >= 2 && s[|s| - 1] == '/' && s[|s| - 2] != '/'
    ensures RStripSlashes(s) == s[..|s| - 1]
  {
    assert RStripSlashes(s) == RStripSlashes(s[..|s| - 1]);
  }

  /**
   * Joining one directory with names that share their first character is
   * injective: different names give different paths.
   */
  lemma PathJoinInjective(a: string, b1: string, b2: string)
    requires |b1| > 0 && |b2| > 0 && b1[0] == b2[0]
    requires PathJoin(a, b1) == PathJoin(a, b2)
    ensures b1 == b2
  {
    if b1[0] != '/' {
      var r1, r2 := PathJoin(a, b1), PathJoin(a, b2);
      assert |r1| - |b1| == |r2| - |b2|;
      assert b1 == r1[|r1| - |b1|..];
    }
  }

  /** Joining a separator-free name onto any directory keeps it as the base name. */
  lemma BasenameOfJoin(a: string, b: string)
    requires '/' !in b
    ensures Basename(PathJoin(a, b)) == b
  {
    var r := PathJoin(a, b);
    var n := |r| - |b|;
    assert r[n..] == b;
    var i := LastSlash(r);
    if n == 0 {
      assert forall j :: 0 <= j < |r| ==> r[j] == b[j];
      assert i == -1;
    } else {
      assert r[n - 1] == '/';
      assert i >= n - 1;
      assert forall j :: n <= j < |r| ==> r[j] == b[j - n];
      assert i == n - 1;
    }
  }
}
