/** Clean and absolute paths, a volume and the names below it; how they are compared, and which cover which. */
module RiderPaths {
  import opened Text

  datatype Path = Path(volume: string, names: seq<string>)
  datatype Module = Module(name: string, dir: Path)

  /** The parent; a volume's root is its own parent. */
  function Parent(p: Path): Path {
    if p.names == [] then p else p.(names := p.names[..|p.names| - 1])
  }

  function FoldAll(names: seq<string>): (r: seq<string>)
    ensures |r| == |names| && forall i :: 0 <= i < |names| ==> r[i] == Fold(names[i])
  {
    seq(|names|, i requires 0 <= i < |names| => Fold(names[i]))
  }

  /** What paths are compared by: on Windows, letters' case does not matter. */
  function Key(windows: bool, p: Path): (key: Path)
    ensures |key.names| == |p.names|
  {
    if windows then Path(Fold(p.volume), FoldAll(p.names)) else p
  }

  /** One key is that of the same path or of one above it. */
  predicate Above(key: Path, below: Path) {
    key.volume == below.volume && key.names <= below.names
  }

  /** One directory is the other or above it. */
  predicate Covers(windows: bool, dir: Path, below: Path) {
    Above(Key(windows, dir), Key(windows, below))
  }

  /** The path as text. */
  function Render(p: Path): string
    decreases |p.names|
  {
    if p.names == [] then p.volume + "\\"
    else if |p.names| == 1 then p.volume + "\\" + p.names[0]
    else Render(Parent(p)) + "\\" + p.names[|p.names| - 1]
  }

  predicate Clean(p: Path) {
    forall i :: 0 <= i < |p.names| ==> p.names[i] != ""
  }

  /** Neither the volume nor a name holds a separator. */
  predicate Separated(p: Path) {
    '\\' !in p.volume && forall i :: 0 <= i < |p.names| ==> '\\' !in p.names[i]
  }

  lemma LastSeparator(before: string, name: string, before': string, name': string)
    requires '\\' !in name && '\\' !in name' && before + "\\" + name == before' + "\\" + name'
    ensures before == before' && name == name'
  {
    var s := before + "\\" + name;
    assert s[|before|] == '\\' && s[|before'|] == '\\';
    assert forall i :: |before| < i < |s| ==> s[i] == name[i - |before| - 1];
    assert forall i :: |before'| < i < |s| ==> s[i] == name'[i - |before'| - 1];
    assert |before| == |before'|;
    assert before == s[..|before|] == before';
    assert name == s[|before| + 1..] == name';
  }

  /** What is rendered before the last name. */
  function Stem(p: Path): string {
    if |p.names| <= 1 then p.volume else Render(Parent(p))
  }

  lemma RenderSplits(p: Path)
    requires Separated(p)
    ensures Render(p) == Stem(p) + "\\" + (if p.names == [] then "" else p.names[|p.names| - 1])
    ensures '\\' in Stem(p) <==> |p.names| > 1
    decreases |p.names|
  {
    if |p.names| > 1 {
      RenderSplits(Parent(p));
      assert Stem(p)[|Stem(Parent(p))|] == '\\';
    }
  }

  /** Different paths never render the same. */
  lemma {:induction false} RenderIsInjective(a: Path, b: Path)
    requires Clean(a) && Clean(b) && Separated(a) && Separated(b) && Render(a) == Render(b)
    ensures a == b
    decreases |a.names|
  {
    RenderSplits(a);
    RenderSplits(b);
    LastSeparator(Stem(a), if a.names == [] then "" else a.names[|a.names| - 1],
                  Stem(b), if b.names == [] then "" else b.names[|b.names| - 1]);
    if |a.names| > 1 {
      RenderIsInjective(Parent(a), Parent(b));
      assert a.names == Parent(a).names + [a.names[|a.names| - 1]];
      assert b.names == Parent(b).names + [b.names[|b.names| - 1]];
    }
  }

  lemma FoldJoin(stem: string, name: string)
    ensures Fold(stem + "\\" + name) == Fold(stem) + "\\" + Fold(name)
  {
    FoldAppend(stem + "\\", name);
    FoldAppend(stem, "\\");
  }

  lemma {:induction false} FoldRender(p: Path)
    ensures Fold(Render(p)) == Render(Key(true, p))
    decreases |p.names|
  {
    var key := Key(true, p);
    if p.names == [] {
      FoldAppend(p.volume, "\\");
    } else {
      var n := |p.names| - 1;
      assert key.names[n] == Fold(p.names[n]);
      if n == 0 {
        FoldJoin(p.volume, p.names[0]);
      } else {
        FoldJoin(Render(Parent(p)), p.names[n]);
        FoldRender(Parent(p));
        ParentKey(true, p);
      }
    }
  }

  lemma FoldKeepsSeparators(s: string)
    ensures '\\' in Fold(s) <==> '\\' in s
  {
    if '\\' in s {
      var i :| 0 <= i < |s| && s[i] == '\\';
      assert Fold(s)[i] == '\\';
    }
  }

  /** Comparing paths by their keys is comparing their texts, on Windows without regard to case. */
  lemma KeysCompareTexts(windows: bool, a: Path, b: Path)
    requires Clean(a) && Clean(b) && Separated(a) && Separated(b)
    ensures Key(windows, a) == Key(windows, b) <==>
      if windows then Fold(Render(a)) == Fold(Render(b)) else Render(a) == Render(b)
  {
    if windows {
      FoldRender(a);
      FoldRender(b);
      KeyIsProper(a);
      KeyIsProper(b);
      if Fold(Render(a)) == Fold(Render(b)) { RenderIsInjective(Key(true, a), Key(true, b)); }
    } else if Render(a) == Render(b) {
      RenderIsInjective(a, b);
    }
  }

  lemma KeyIsProper(p: Path)
    requires Clean(p) && Separated(p)
    ensures Clean(Key(true, p)) && Separated(Key(true, p))
  {
    var key := Key(true, p);
    FoldKeepsSeparators(p.volume);
    forall i | 0 <= i < |key.names| ensures key.names[i] != "" && '\\' !in key.names[i] {
      FoldKeepsSeparators(p.names[i]);
      assert |Fold(p.names[i])| == |p.names[i]|;
    }
  }

  lemma ParentKey(windows: bool, p: Path)
    ensures Key(windows, Parent(p)) == Parent(Key(windows, p))
    ensures Parent(p) == p <==> p.names == []
  {
    if p.names != [] { assert FoldAll(p.names[..|p.names| - 1]) == FoldAll(p.names)[..|p.names| - 1]; }
  }

  /** Above a path that is not a root are itself and what is above its parent. */
  lemma AboveParent(key: Path, below: Path)
    ensures Above(key, below) <==> key == below || (below.names != [] && Above(key, Parent(below)))
  {
    if below.names != [] && Above(key, below) && key != below {
      assert |key.names| == |below.names| ==> key.names == below.names;
      assert key.names == below.names[..|key.names|];
      assert Parent(below).names[..|key.names|] == key.names;
    }
    if below.names != [] && Above(key, Parent(below)) {
      assert below.names[..|key.names|] == key.names;
    }
  }

  /** Going up this many times. */
  function Up(p: Path, n: nat): Path
    decreases n
  {
    if n == 0 then p else Up(Parent(p), n - 1)
  }

  lemma {:induction false} CoversGoesUp(windows: bool, dir: Path, below: Path) returns (n: nat)
    requires Covers(windows, dir, below)
    ensures Key(windows, Up(below, n)) == Key(windows, dir)
    decreases |below.names|
  {
    ParentKey(windows, below);
    AboveParent(Key(windows, dir), Key(windows, below));
    if Key(windows, dir) == Key(windows, below) {
      n := 0;
    } else {
      n := CoversGoesUp(windows, dir, Parent(below));
      n := n + 1;
    }
  }

  lemma {:induction false} UpCovers(windows: bool, dir: Path, below: Path, n: nat)
    requires Key(windows, Up(below, n)) == Key(windows, dir)
    ensures Covers(windows, dir, below)
    decreases n
  {
    if n > 0 {
      UpCovers(windows, dir, Parent(below), n - 1);
      ParentKey(windows, below);
      AboveParent(Key(windows, dir), Key(windows, below));
    }
  }

  /** A directory is over a path exactly when going up from the path leads to it, up to its key. */
  lemma CoversIsAncestor(windows: bool, dir: Path, below: Path)
    ensures Covers(windows, dir, below) <==> exists n: nat :: Key(windows, Up(below, n)) == Key(windows, dir)
  {
    if Covers(windows, dir, below) { var n := CoversGoesUp(windows, dir, below); }
    if n: nat :| Key(windows, Up(below, n)) == Key(windows, dir) { UpCovers(windows, dir, below, n); }
  }

  lemma CoversTransitive(windows: bool, a: Path, b: Path, c: Path)
    requires Covers(windows, a, b) && Covers(windows, b, c)
    ensures Covers(windows, a, c)
  {
  }

  /** Two directories over the same one are one over the other. */
  lemma CoversComparable(windows: bool, a: Path, b: Path, c: Path)
    requires Covers(windows, a, c) && Covers(windows, b, c)
    ensures Covers(windows, a, b) || Covers(windows, b, a)
  {
    var (x, y, z) := (Key(windows, a).names, Key(windows, b).names, Key(windows, c).names);
    if |x| <= |y| { assert x == z[..|x|] == y[..|x|]; } else { assert y == z[..|y|] == x[..|y|]; }
  }

  lemma CoversBothWays(windows: bool, a: Path, b: Path)
    requires Covers(windows, a, b) && Covers(windows, b, a)
    ensures Key(windows, a) == Key(windows, b)
  {
  }

  /** What covers a clean path, under another key, is shorter as text. */
  lemma {:induction false} CoverIsShorter(windows: bool, a: Path, b: Path)
    requires Clean(b) && Covers(windows, a, b) && Key(windows, a) != Key(windows, b)
    ensures |Render(a)| < |Render(b)|
    decreases |b.names|
  {
    var up := Parent(b);
    ParentKey(windows, b);
    AboveParent(Key(windows, a), Key(windows, b));
    assert b.names != [];
    assert |Render(up)| < |Render(b)| by {
      assert b.names[|b.names| - 1] != "";
      if |b.names| == 1 { assert Render(up) == b.volume + "\\"; }
    }
    if Key(windows, a) == Key(windows, up) {
      SameKeySameLength(windows, a, up);
    } else {
      CoverIsShorter(windows, a, up);
    }
  }

  lemma {:induction false} SameKeySameLength(windows: bool, a: Path, b: Path)
    requires Key(windows, a) == Key(windows, b)
    ensures |Render(a)| == |Render(b)|
    decreases |b.names|
  {
    assert |a.names| == |b.names|;
    assert |a.volume| == |b.volume| by { if windows { assert |Fold(a.volume)| == |Fold(b.volume)|; } }
    if a.names != [] {
      var n := |a.names| - 1;
      assert |a.names[n]| == |b.names[n]| by {
        if windows {
          assert |Fold(a.names[n])| == |FoldAll(a.names)[n]| == |FoldAll(b.names)[n]| == |Fold(b.names[n])|;
        }
      }
      ParentKey(windows, a);
      ParentKey(windows, b);
      SameKeySameLength(windows, Parent(a), Parent(b));
    }
  }
}
