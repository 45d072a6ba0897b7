/** From which directories a walk reaches every module, and none twice. */
module RiderRoots {
  import opened Sorting
  import opened RiderPaths

  function Dirs(modules: seq<Module>): seq<Path> {
    seq(|modules|, i requires 0 <= i < |modules| => modules[i].dir)
  }

  /** Shorter text first; among texts of one length, the order of characters. */
  predicate Before(a: Path, b: Path) {
    var x, y := Render(a), Render(b);
    if |x| != |y| then |x| < |y| else Less(x, y)
  }

  predicate Less(x: string, y: string) {
    y != [] && (x == [] || x[0] < y[0] || (x[0] == y[0] && Less(x[1..], y[1..])))
  }

  lemma {:induction false} LessIsOrder(x: string, y: string, z: string)
    ensures !(Less(x, y) && Less(y, x))
    ensures !Less(x, y) && !Less(y, z) ==> !Less(x, z)
  {
    if x != [] && y != [] && z != [] {
      LessIsOrder(x[1..], y[1..], z[1..]);
    } else if x != [] && y != [] {
      LessIsOrder(x[1..], y[1..], []);
    }
  }

  lemma BeforeIsOrder()
    ensures IsOrder(Before)
  {
    forall a, b, c ensures !(Before(a, b) && Before(b, a)) && (!Before(a, b) && !Before(b, c) ==> !Before(a, c)) {
      LessIsOrder(Render(a), Render(b), Render(c));
    }
  }

  method SortDirs(modules: seq<Module>) returns (dirs: seq<Path>)
    ensures Sorted(dirs, Before)
    ensures forall dir :: dir in dirs <==> dir in Dirs(modules)
  {
    BeforeIsOrder();
    dirs := Sort(Dirs(modules), Before);
    assert forall dir :: dir in dirs <==> dir in multiset(dirs);
    assert forall dir :: dir in Dirs(modules) <==> dir in multiset(dirs);
  }

  /** The roots are module directories, none under another, and every module directory is under one. */
  ghost predicate AreWalkRoots(windows: bool, roots: seq<Path>, dirs: seq<Path>) {
    && (forall root :: root in roots ==> root in dirs)
    && (forall i, j :: 0 <= i < |roots| && 0 <= j < |roots| && i != j ==> !Covers(windows, roots[i], roots[j]))
    && (forall dir :: dir in dirs ==> Covered(windows, roots, dir))
  }

  ghost predicate Covered(windows: bool, roots: seq<Path>, dir: Path) {
    exists i :: 0 <= i < |roots| && Covers(windows, roots[i], dir)
  }

  function KeySet(windows: bool, roots: seq<Path>): set<Path> {
    set i | 0 <= i < |roots| :: Key(windows, roots[i])
  }

  lemma KeySetGrows(windows: bool, roots: seq<Path>, dir: Path)
    ensures KeySet(windows, roots + [dir]) == KeySet(windows, roots) + {Key(windows, dir)}
  {
    var more := roots + [dir];
    assert more[|roots|] == dir;
    assert forall i :: 0 <= i < |roots| ==> more[i] == roots[i];
  }

  method IsCovered(windows: bool, rootKeys: set<Path>, dir: Path, ghost roots: seq<Path>) returns (covered: bool)
    requires rootKeys == KeySet(windows, roots)
    ensures covered <==> Covered(windows, roots, dir)
  {
    var current := dir;
    covered := false;
    while true
      invariant !covered && (Covered(windows, roots, dir) <==> Covered(windows, roots, current))
      decreases |current.names|
    {
      if Key(windows, current) in rootKeys {
        return true;
      }
      CoveredAbove(windows, roots, current);
      if Parent(current) == current {
        break;
      }
      current := Parent(current);
    }
  }

  lemma CoveredAbove(windows: bool, roots: seq<Path>, dir: Path)
    requires forall i :: 0 <= i < |roots| ==> Key(windows, roots[i]) != Key(windows, dir)
    ensures Covered(windows, roots, dir) <==> dir.names != [] && Covered(windows, roots, Parent(dir))
  {
    ParentKey(windows, dir);
    forall i | 0 <= i < |roots|
      ensures Covers(windows, roots[i], dir) <==> dir.names != [] && Covers(windows, roots[i], Parent(dir))
    {
      AboveParent(Key(windows, roots[i]), Key(windows, dir));
    }
  }

  method RiderModuleWalkRoots(windows: bool, modules: seq<Module>) returns (roots: seq<Path>)
    requires forall i :: 0 <= i < |modules| ==> Clean(modules[i].dir)
    ensures AreWalkRoots(windows, roots, Dirs(modules)) && Sorted(roots, Before)
  {
    var dirs := SortDirs(modules);
    roots := [];
    var rootKeys: set<Path> := {};
    for i := 0 to |dirs|
      invariant rootKeys == KeySet(windows, roots)
      invariant AreWalkRoots(windows, roots, dirs[..i]) && Sorted(roots, Before)
    {
      var dir := dirs[i];
      assert dirs[..i + 1] == dirs[..i] + [dir];
      var covered := IsCovered(windows, rootKeys, dir, roots);
      if !covered {
        NoRootBelow(windows, dirs, i, roots);
        RootAdded(windows, roots, dirs[..i], dir);
        StaysSorted(roots, dirs, i);
        KeySetGrows(windows, roots, dir);
        roots := roots + [dir];
        rootKeys := rootKeys + {Key(windows, dir)};
      }
    }
    assert dirs[..|dirs|] == dirs;
  }

  /** The roots are in the order of the directories. */
  lemma StaysSorted(roots: seq<Path>, dirs: seq<Path>, i: nat)
    requires i < |dirs| && Sorted(dirs, Before) && Sorted(roots, Before)
    requires forall root :: root in roots ==> root in dirs[..i]
    ensures Sorted(roots + [dirs[i]], Before)
  {
    forall j | 0 <= j < |roots| ensures !Before(dirs[i], roots[j]) {
      assert roots[j] in roots;
      var k :| 0 <= k < i && dirs[k] == roots[j];
    }
  }

  /** What comes earlier is not longer, so it is not under what comes later. */
  lemma NoRootBelow(windows: bool, dirs: seq<Path>, i: nat, roots: seq<Path>)
    requires i < |dirs| && Sorted(dirs, Before) && forall dir :: dir in dirs ==> Clean(dir)
    requires forall root :: root in roots ==> root in dirs[..i]
    requires !Covered(windows, roots, dirs[i])
    ensures forall j :: 0 <= j < |roots| ==> !Covers(windows, dirs[i], roots[j])
  {
    var dir := dirs[i];
    forall j | 0 <= j < |roots| ensures !Covers(windows, dir, roots[j]) {
      assert roots[j] in roots;
      var k :| 0 <= k < i && dirs[k] == roots[j];
      BelowComesLater(windows, dir, dirs[k]);
    }
  }

  lemma BelowComesLater(windows: bool, a: Path, b: Path)
    requires Clean(b)
    ensures Covers(windows, a, b) ==> Covers(windows, b, a) || Before(a, b)
  {
    if Covers(windows, a, b) && Key(windows, a) != Key(windows, b) { CoverIsShorter(windows, a, b); }
  }

  lemma RootAdded(windows: bool, roots: seq<Path>, dirs: seq<Path>, dir: Path)
    requires AreWalkRoots(windows, roots, dirs) && !Covered(windows, roots, dir)
    requires forall j :: 0 <= j < |roots| ==> !Covers(windows, dir, roots[j])
    ensures AreWalkRoots(windows, roots + [dir], dirs + [dir])
  {
    var more := roots + [dir];
    assert more[|roots|] == dir;
    assert forall i :: 0 <= i < |roots| ==> more[i] == roots[i];
    assert Covers(windows, dir, dir);
    forall d | d in dirs ensures Covered(windows, more, d) {
      var i :| 0 <= i < |roots| && Covers(windows, roots[i], d);
      assert Covers(windows, more[i], d);
    }
  }

  /** No file is reached from two roots. */
  lemma NoFileIsReachedTwice(windows: bool, roots: seq<Path>, dirs: seq<Path>, file: Path, i: nat, j: nat)
    requires AreWalkRoots(windows, roots, dirs) && i < |roots| && j < |roots|
    requires Covers(windows, roots[i], file) && Covers(windows, roots[j], file)
    ensures i == j
  {
    CoversComparable(windows, roots[i], roots[j], file);
  }

  /** No other choice of module directories that reaches every module can do without one of the roots. */
  lemma WalkRootsAreMinimal(windows: bool, roots: seq<Path>, dirs: seq<Path>, others: seq<Path>, i: nat)
    requires AreWalkRoots(windows, roots, dirs) && i < |roots|
    requires forall other :: other in others ==> other in dirs
    requires forall dir :: dir in dirs ==> Covered(windows, others, dir)
    ensures exists k :: 0 <= k < |others| && Key(windows, others[k]) == Key(windows, roots[i])
  {
    assert roots[i] in dirs;
    var k :| 0 <= k < |others| && Covers(windows, others[k], roots[i]);
    assert others[k] in dirs;
    var j :| 0 <= j < |roots| && Covers(windows, roots[j], others[k]);
    CoversTransitive(windows, roots[j], others[k], roots[i]);
    assert j == i;
    CoversBothWays(windows, roots[i], others[k]);
  }
}
