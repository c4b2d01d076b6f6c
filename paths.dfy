/** The two functions of Python's `os.path` (POSIX flavour) that `makedata` and `plotrt` use. */
module Paths {

  const Sep: char := '/'

  /** The file name that follows the station name in an event list. */
  const ListSuffix: string := "finallist.dat"

  /** `os.path.join(a, b)`: an absolute `b` replaces `a`; otherwise one separator is
      inserted unless `a` is empty or already ends with one. */
  function Join(a: string, b: string): string
  {
    if |b| > 0 && b[0] == Sep then b
    else if a == [] || a[|a| - 1] == Sep then a + b
    else a + [Sep] + b
  }

  /** A join ends in `b`; unless `b` is absolute, `a` comes before it, followed by one
      separator exactly when `a` is non-empty and does not already end in one. */
  lemma JoinShape(a: string, b: string)
    ensures var r := Join(a, b);
      |r| >= |b| && r[|r| - |b|..] == b &&
      ((|b| > 0 && b[0] == Sep) ||
       r[..|r| - |b|] == if a == [] || a[|a| - 1] == Sep then a else a + [Sep])
  {
  }

  /** `os.path.basename(p)`: everything after the last separator. */
  function Basename(p: string): (r: string)
    ensures |r| <= |p| && r == p[|p| - |r|..]
    ensures Sep !in r
    ensures |r| < |p| ==> p[|p| - |r| - 1] == Sep
    decreases |p|
  {
    if p == [] || p[|p| - 1] == Sep then []
    else Basename(p[..|p| - 1]) + [p[|p| - 1]]
  }

  /** A path component: non-empty and free of separators. */
  predicate IsComponent(name: string)
  {
    name != [] && Sep !in name
  }

  /** The last component of a path ending in `name` after a separator (or of `name` alone)
      is `name`. */
  lemma {:induction false} BasenameAfterSeparator(prefix: string, name: string)
    requires prefix == [] || prefix[|prefix| - 1] == Sep
    requires IsComponent(name)
    ensures Basename(prefix + name) == name
  {
    var p := prefix + name;
    var r := Basename(p);
    assert p[|prefix|..] == name;
  }

  /** Joining a directory and a component, then taking the basename, gives the component back. */
  lemma BasenameOfJoin(dir: string, name: string)
    requires IsComponent(name)
    ensures Basename(Join(dir, name)) == name
  {
    if dir == [] || dir[|dir| - 1] == Sep {
      BasenameAfterSeparator(dir, name);
    } else {
      assert Join(dir, name) == (dir + [Sep]) + name;
      BasenameAfterSeparator(dir + [Sep], name);
    }
  }

  /** A path joined onto a component ends in that component, not in a separator. */
  lemma JoinEndsInComponent(dir: string, name: string)
    requires IsComponent(name)
    ensures var p := Join(dir, name); p != [] && p[|p| - 1] == name[|name| - 1] != Sep
  {
    JoinShape(dir, name);
    assert name[|name| - 1] in name;
  }

  /** One separator after a directory that does not already end in one changes no join. */
  lemma JoinAfterTrailingSeparator(dir: string, b: string)
    requires dir != [] && dir[|dir| - 1] != Sep
    ensures Join(dir + [Sep], b) == Join(dir, b)
  {
  }

  /** The event list of a station inside its RF directory: `join(dir, station + 'finallist.dat')`. */
  function FinalListPath(dir: string, station: string): string
  {
    Join(dir, station + ListSuffix)
  }
}
