/** Which module a file belongs to: the index, and the plain search it stands for. */
module RiderIndex {
  import opened Collections
  import opened RiderPaths

  /** Plain search: among the modules over a directory the deepest, and of those as deep the first listed. */
  function DeepestModule(windows: bool, modules: seq<Module>, dir: Path): Option<nat> {
    if modules == [] then None
    else
      var n := |modules| - 1;
      var best := DeepestModule(windows, modules[..n], dir);
      if !Covers(windows, modules[n].dir, dir) then best
      else if best.Some? && best.value < n && |modules[n].dir.names| <= |modules[best.value].dir.names| then best
      else Some(n)
  }

  /** The search's result is over the directory, is deeper than all listed before it and as deep as all others. */
  predicate IsDeepest(windows: bool, modules: seq<Module>, dir: Path, i: nat) {
    && i < |modules|
    && Covers(windows, modules[i].dir, dir)
    && (forall j :: 0 <= j < |modules| && Covers(windows, modules[j].dir, dir) ==>
          if j < i then |modules[j].dir.names| < |modules[i].dir.names|
          else |modules[j].dir.names| <= |modules[i].dir.names|)
  }

  lemma {:induction false} DeepestModuleIs(windows: bool, modules: seq<Module>, dir: Path)
    ensures var best := DeepestModule(windows, modules, dir);
      if best.None? then forall i :: 0 <= i < |modules| ==> !Covers(windows, modules[i].dir, dir)
      else IsDeepest(windows, modules, dir, best.value)
  {
    if modules != [] {
      var n := |modules| - 1;
      var before := modules[..n];
      DeepestModuleIs(windows, before, dir);
      assert forall i :: 0 <= i < n ==> before[i] == modules[i];
    }
  }

  datatype Index = Index(modules: seq<Module>, byDir: map<Path, nat>)

  /** Every module directory's key leads to the first module listed with it. */
  ghost predicate Indexes(windows: bool, index: Index, modules: seq<Module>) {
    && index.modules == modules
    && (forall i :: 0 <= i < |modules| ==> Key(windows, modules[i].dir) in index.byDir)
    && (forall key :: key in index.byDir ==>
          var i := index.byDir[key];
          && i < |modules| && Key(windows, modules[i].dir) == key
          && forall j :: 0 <= j < i ==> Key(windows, modules[j].dir) != key)
  }

  /** A key that is taken stays with the module it leads to. */
  lemma IndexesOneMore(windows: bool, byDir: map<Path, nat>, before: seq<Module>, one: Module)
    requires Indexes(windows, Index(before, byDir), before)
    ensures var key, after := Key(windows, one.dir), before + [one];
      Indexes(windows, Index(after, if key in byDir then byDir else byDir[key := |before|]), after)
  {
    var after := before + [one];
    assert forall j :: 0 <= j < |before| ==> after[j] == before[j];
  }

  method NewRiderModuleIndex(windows: bool, modules: seq<Module>) returns (index: Index)
    ensures Indexes(windows, index, modules)
  {
    var byDir: map<Path, nat> := map[];
    for i := 0 to |modules|
      invariant Indexes(windows, Index(modules[..i], byDir), modules[..i])
    {
      var key := Key(windows, modules[i].dir);
      IndexesOneMore(windows, byDir, modules[..i], modules[i]);
      assert modules[..i + 1] == modules[..i] + [modules[i]];
      if key !in byDir {
        byDir := byDir[key := i];
      }
    }
    assert modules[..|modules|] == modules;
    index := Index(modules, byDir);
  }

  /** With a module at a directory's own key, that is the deepest over it. */
  lemma HitIsDeepest(windows: bool, modules: seq<Module>, dir: Path, i: nat)
    requires i < |modules| && Key(windows, modules[i].dir) == Key(windows, dir)
    requires forall j :: 0 <= j < i ==> Key(windows, modules[j].dir) != Key(windows, dir)
    ensures IsDeepest(windows, modules, dir, i)
  {
    forall j | 0 <= j < i && Covers(windows, modules[j].dir, dir)
      ensures |modules[j].dir.names| < |modules[i].dir.names|
    {
      var (x, y) := (Key(windows, modules[j].dir), Key(windows, dir));
      assert |x.names| == |y.names| ==> x.names == y.names;
    }
  }

  lemma IsDeepestIsUnique(windows: bool, modules: seq<Module>, dir: Path, i: nat, j: nat)
    requires IsDeepest(windows, modules, dir, i) && IsDeepest(windows, modules, dir, j)
    ensures i == j
  {
  }

  /** Without a module at its own key, what is over a directory is over its parent. */
  lemma MissMovesUp(windows: bool, modules: seq<Module>, dir: Path)
    requires forall i :: 0 <= i < |modules| ==> Key(windows, modules[i].dir) != Key(windows, dir)
    ensures forall i :: 0 <= i < |modules| ==>
      (Covers(windows, modules[i].dir, dir) <==> dir.names != [] && Covers(windows, modules[i].dir, Parent(dir)))
  {
    ParentKey(windows, dir);
    forall i | 0 <= i < |modules|
      ensures Covers(windows, modules[i].dir, dir) <==> dir.names != [] && Covers(windows, modules[i].dir, Parent(dir))
    {
      AboveParent(Key(windows, modules[i].dir), Key(windows, dir));
    }
  }

  /** Walking up from the file's directory finds what the plain search finds, one probe per directory. */
  method LookupWithProbes(windows: bool, index: Index, file: Path) returns (found: Option<nat>, probes: nat)
    requires Indexes(windows, index, index.modules)
    ensures found == DeepestModule(windows, index.modules, Parent(file))
    ensures found.Some? ==> found.value < |index.modules|
    ensures found.Some? ==> probes == |Parent(file).names| - |index.modules[found.value].dir.names| + 1
    ensures found.None? ==> probes == |Parent(file).names| + 1
  {
    var modules := index.modules;
    var dir := Parent(file);
    probes := 1;
    DeepestModuleIs(windows, modules, Parent(file));
    while true
      invariant probes == |Parent(file).names| - |dir.names| + 1
      invariant forall i :: 0 <= i < |modules| ==>
        (Covers(windows, modules[i].dir, Parent(file)) <==> Covers(windows, modules[i].dir, dir))
      decreases |dir.names|
    {
      var key := Key(windows, dir);
      if key in index.byDir {
        var i := index.byDir[key];
        HitIsDeepest(windows, modules, dir, i);
        assert IsDeepest(windows, modules, Parent(file), i);
        IsDeepestIsUnique(windows, modules, Parent(file), i, DeepestModule(windows, modules, Parent(file)).value);
        return Some(i), probes;
      }
      MissMovesUp(windows, modules, dir);
      var parent := Parent(dir);
      if parent == dir {
        return None, probes;
      }
      dir := parent;
      probes := probes + 1;
    }
  }
}
