/** Slash-separated paths. `Base` and `Join` stand for Go's `filepath.Base` and
    `filepath.Join` on paths that are already clean: `Base` is what follows the
    last '/', `Join` puts one '/' between its parts. */
module Paths {

  /** The last segment of `p`: its longest suffix without a '/'. */
  function Base(p: string): (r: string)
    ensures '/' !in r
    ensures |r| <= |p| && r == p[|p| - |r|..]
    ensures |r| < |p| ==> p[|p| - |r| - 1] == '/'
  {
    if p == [] || p[|p| - 1] == '/' then []
    else
      var q := p[..|p| - 1];
      assert p == q + [p[|p| - 1]];
      Base(q) + [p[|p| - 1]]
  }

  function Join(dir: string, name: string): string {
    dir + "/" + name
  }

  /** The three properties in `Base`'s contract determine its result. */
  lemma BaseUnique(p: string, s: string)
    requires '/' !in s
    requires |s| <= |p| && s == p[|p| - |s|..]
    requires |s| < |p| ==> p[|p| - |s| - 1] == '/'
    ensures Base(p) == s
  {
    var r := Base(p);
    assert |r| == |s| by {
      if |r| < |s| {
        assert false;
      } else if |s| < |r| {
        assert false;
      }
    }
  }

  /** A path without a '/' is its own last segment. */
  lemma BaseOfSlashFree(s: string)
    requires '/' !in s
    ensures Base(s) == s
  {
    BaseUnique(s, s);
  }

  /** `Base` takes the last segment back out of a join. */
  lemma BaseOfJoin(dir: string, name: string)
    requires '/' !in name
    ensures Base(Join(dir, name)) == name
  {
    var p := Join(dir, name);
    assert p[|p| - |name|..] == name;
    assert p[|p| - |name| - 1] == '/';
    BaseUnique(p, name);
  }

  /** Joining the same name onto two directories gives two different paths. */
  lemma JoinInjective(d1: string, d2: string, name: string)
    requires Join(d1, name) == Join(d2, name)
    ensures d1 == d2
  {
    assert |d1| == |d2|;
    assert d1 == Join(d1, name)[..|d1|];
    assert d2 == Join(d2, name)[..|d2|];
  }
}
