/** The POSIX path helpers the image pipelines and the video writer use (`os.path`). */
module Paths {

  /** `os.path.basename(p)`: the longest suffix of `p` without a `/`. */
  function Basename(p: string): (b: string)
    ensures '/' !in b
    ensures |b| <= |p| && b == p[|p| - |b|..]
    ensures |b| == |p| || p[|p| - |b| - 1] == '/'
    ensures forall k :: |p| - |b| <= k < |p| ==> p[k] != '/'
  {
    if p == [] || p[|p| - 1] == '/' then []
    else
      var b := Basename(p[..|p| - 1]) + [p[|p| - 1]];
      assert p[..|p| - 1][|p| - |b|..] + [p[|p| - 1]] == p[|p| - |b|..];
      b
  }

  /** `s.rstrip("/")`. */
  function RStripSlashes(s: string): (r: string)
    ensures |r| <= |s| && r == s[..|r|]
    ensures forall i :: |r| <= i < |s| ==> s[i] == '/'
    ensures r == [] || r[|r| - 1] != '/'
  {
    if s == [] || s[|s| - 1] != '/' then s else RStripSlashes(s[..|s| - 1])
  }

  /** Everything before the basename ends with a `/`, and holds every `/` of the path. */
  lemma BeforeBasename(p: string)
    ensures |p| - |Basename(p)| > 0 ==> p[|p| - |Basename(p)| - 1] == '/'
    ensures '/' in p <==> |p| - |Basename(p)| > 0
  {
    var n := |p| - |Basename(p)|;
    if '/' in p {
      var j :| 0 <= j < |p| && p[j] == '/';
      assert j < n;
    }
    if n > 0 {
      assert p[n - 1] in p;
    }
  }

  /**
   * `os.path.dirname(p)`: everything before the basename, with the trailing
   * slashes removed unless the head consists of slashes only.
   */
  function Dirname(p: string): (d: string)
    ensures d == [] <==> '/' !in p
    ensures |d| <= |p| - |Basename(p)| && d == p[..|d|]
    ensures forall i :: |d| <= i < |p| - |Basename(p)| ==> p[i] == '/'
    ensures d != [] && d[|d| - 1] == '/' ==> forall i :: 0 <= i < |d| ==> d[i] == '/'
    ensures (forall i :: 0 <= i < |p| - |Basename(p)| ==> p[i] == '/') ==> |d| == |p| - |Basename(p)|
  {
    var head := p[..|p| - |Basename(p)|];
    var stripped := RStripSlashes(head);
    BeforeBasename(p);
    if stripped != [] then
      assert head[|stripped| - 1] != '/';
      stripped
    else head
  }

  /** Example: a head made of slashes only is kept whole. */
  lemma DirnameAllSlashes()
    ensures Dirname("///x") == "///"
  {
    assert Basename("///x") == "x";
  }

  /** `os.path.join(a, b)` for two components. */
  function PathJoin(a: string, b: string): string
  {
    if |b| > 0 && b[0] == '/' then b
    else if a == [] || a[|a| - 1] == '/' then a + b
    else a + "/" + b
  }

  /** A slash-free name appended after a separator (or to nothing) is the basename. */
  lemma BasenameAfterSeparator(x: string, b: string)
    requires x == [] || x[|x| - 1] == '/'
    requires '/' !in b
    ensures Basename(x + b) == b
  {
    var p := x + b;
    var n := Basename(p);
    assert forall k :: |x| <= k < |p| ==> p[k] == b[k - |x|];
    assert forall k :: |x| <= k < |p| ==> p[k] != '/';
    assert x != [] ==> p[|x| - 1] == '/';
    assert |n| == |b|;
    assert p[|x|..] == b;
  }

  /** Joining a directory and a slash-free file name keeps that name as the basename. */
  lemma JoinKeepsName(dir: string, name: string)
    requires '/' !in name
    ensures Basename(PathJoin(dir, name)) == name
  {
    if dir == [] || dir[|dir| - 1] == '/' {
      BasenameAfterSeparator(dir, name);
    } else {
      BasenameAfterSeparator(dir + "/", name);
      assert dir + "/" + name == (dir + "/") + name;
    }
  }
}
