/** Cutting a text so that its encoded form fits a limit. */
module FitText {
  import opened Text

  // The bytes of one character of valid text.
  type Rune = s: string | |s| > 0 witness "a"

  // A text as it is decoded: whole characters, and bytes that belong to none.
  datatype Piece = Good(rune: Rune) | Bad(byte: char)

  // U+FFFD in its three bytes.
  const REPLACEMENT: Rune := ['\U{EF}', '\U{BF}', '\U{BD}']

  // ----- repairing invalid text -----

  /** Each run of stray bytes is replaced by one replacement character. */
  function Repaired(pieces: seq<Piece>): seq<Rune> {
    if pieces == [] then []
    else
      var n := |pieces| - 1;
      var before := Repaired(pieces[..n]);
      if pieces[n].Good? then before + [pieces[n].rune]
      else if n > 0 && pieces[n - 1].Bad? then before
      else before + [REPLACEMENT]
  }

  method ToValid(pieces: seq<Piece>) returns (runes: seq<Rune>)
    ensures runes == Repaired(pieces)
  {
    runes := [];
    var invalid := false;
    for i := 0 to |pieces|
      invariant runes == Repaired(pieces[..i])
      invariant invalid == (i > 0 && pieces[i - 1].Bad?)
    {
      assert pieces[..i + 1][..i] == pieces[..i];
      match pieces[i]
      case Good(rune) =>
        runes, invalid := runes + [rune], false;
      case Bad(_) =>
        runes, invalid := if invalid then runes else runes + [REPLACEMENT], true;
    }
    assert pieces[..|pieces|] == pieces;
  }

  function Decoded(runes: seq<Rune>): seq<Piece> {
    seq(|runes|, i requires 0 <= i < |runes| => Good(runes[i]))
  }

  /** Valid text is left as it is; so repairing what has been repaired changes nothing. */
  lemma {:induction false} ValidTextIsKept(runes: seq<Rune>)
    ensures Repaired(Decoded(runes)) == runes
    decreases |runes|
  {
    if runes != [] {
      var n := |runes| - 1;
      ValidTextIsKept(runes[..n]);
      assert Decoded(runes)[..n] == Decoded(runes[..n]);
    }
  }

  /** A run of stray bytes, however long, becomes one replacement character. */
  lemma {:induction false} StrayRunIsOneReplacement(before: seq<Piece>, run: seq<Piece>)
    requires run != [] && forall i :: 0 <= i < |run| ==> run[i].Bad?
    requires before == [] || before[|before| - 1].Good?
    ensures Repaired(before + run) == Repaired(before) + [REPLACEMENT]
    decreases |run|
  {
    var n := |run| - 1;
    assert (before + run)[..|before| + n] == before + run[..n];
    if n > 0 {
      StrayRunIsOneReplacement(before, run[..n]);
    } else {
      assert before + run[..n] == before;
    }
  }

  /** Two stray bytes between two letters. */
  lemma AStrayRun()
    ensures Repaired([Good("a"), Bad('\U{FF}'), Bad('\U{FE}'), Good("b")]) == ["a", "\U{EF}\U{BF}\U{BD}", "b"]
  {
    var pieces := [Good("a"), Bad('\U{FF}'), Bad('\U{FE}'), Good("b")];
    assert pieces[..3][..2][..1] == [Good("a")] && pieces[..3][..2] == pieces[..2];
    assert [Good("a")][..0] == [];
    assert Repaired(pieces[..1]) == ["a"] && pieces[..2][..1] == pieces[..1];
  }

  /** The whole characters of a text, without its stray bytes. */
  function Characters(pieces: seq<Piece>): seq<Rune> {
    if pieces == [] then []
    else
      var n := |pieces| - 1;
      if pieces[n].Good? then Characters(pieces[..n]) + [pieces[n].rune] else Characters(pieces[..n])
  }

  function WithoutReplacements(runes: seq<Rune>): seq<Rune> {
    if runes == [] then []
    else
      var n := |runes| - 1;
      if runes[n] == REPLACEMENT then WithoutReplacements(runes[..n]) else WithoutReplacements(runes[..n]) + [runes[n]]
  }

  lemma WithoutReplacementsOneMore(runes: seq<Rune>, rune: Rune)
    ensures WithoutReplacements(runes + [rune])
         == WithoutReplacements(runes) + if rune == REPLACEMENT then [] else [rune]
  {
    assert (runes + [rune])[..|runes|] == runes;
  }

  /** But for replacement characters, what is left is the text's own characters, in order. */
  lemma {:induction false} RepairKeepsCharacters(pieces: seq<Piece>)
    ensures WithoutReplacements(Repaired(pieces)) == WithoutReplacements(Characters(pieces))
    decreases |pieces|
  {
    if pieces != [] {
      var n := |pieces| - 1;
      RepairKeepsCharacters(pieces[..n]);
      WithoutReplacementsOneMore(Repaired(pieces[..n]), if pieces[n].Good? then pieces[n].rune else REPLACEMENT);
      if pieces[n].Good? { WithoutReplacementsOneMore(Characters(pieces[..n]), pieces[n].rune); }
    }
  }

  // ----- cutting -----

  function Prefix(runes: seq<Rune>, k: nat): string
    requires k <= |runes|
  {
    Concat(runes[..k])
  }

  lemma PrefixOneMore(runes: seq<Rune>, k: nat)
    requires k < |runes|
    ensures Prefix(runes, k + 1) == Prefix(runes, k) + runes[k]
  {
    assert runes[..k + 1] == runes[..k] + [runes[k]];
    ConcatAppend(runes[..k], [runes[k]]);
    assert Concat([runes[k]]) == runes[k] + Concat([]);
  }

  /** A prefix in runes is a prefix in bytes. */
  lemma PrefixIsPrefix(runes: seq<Rune>, k: nat)
    requires k <= |runes|
    ensures |Prefix(runes, k)| <= |Concat(runes)| && Concat(runes)[..|Prefix(runes, k)|] == Prefix(runes, k)
  {
    assert runes == runes[..k] + runes[k..];
    ConcatAppend(runes[..k], runes[k..]);
  }

  /** The byte offset before each rune, and the end of the text. */
  method Boundaries(runes: seq<Rune>) returns (boundaries: seq<nat>)
    ensures |boundaries| == |runes| + 1
    ensures forall i :: 0 <= i <= |runes| ==> boundaries[i] == |Prefix(runes, i)|
  {
    boundaries := [0];
    for i := 0 to |runes|
      invariant |boundaries| == i + 1
      invariant forall j :: 0 <= j <= i ==> boundaries[j] == |Prefix(runes, j)|
    {
      PrefixOneMore(runes, i);
      boundaries := boundaries + [boundaries[i] + |runes[i]|];
    }
  }

  function CutSize<T>(runes: seq<Rune>, build: (string, bool) -> T, size: T -> nat, k: nat): nat
    requires k <= |runes|
  {
    size(build(Prefix(runes, k), true))
  }

  /** A longer prefix is never encoded in fewer bytes. */
  ghost predicate Growing<T>(runes: seq<Rune>, build: (string, bool) -> T, size: T -> nat) {
    forall i, j :: 0 <= i <= j <= |runes| ==> CutSize(runes, build, size, i) <= CutSize(runes, build, size, j)
  }

  /** The longest prefix, cut between runes, that fits when marked as truncated. */
  ghost predicate LongestFit<T>(limit: int, runes: seq<Rune>, build: (string, bool) -> T, size: T -> nat, k: nat) {
    && k <= |runes|
    && CutSize(runes, build, size, k) <= limit
    && forall j :: k < j <= |runes| ==> CutSize(runes, build, size, j) > limit
  }

  /** Plain search, from the longest prefix down. */
  function LongestUpTo<T>(limit: int, runes: seq<Rune>, build: (string, bool) -> T, size: T -> nat, k: nat): (r: nat)
    requires k <= |runes|
    ensures r <= k
  {
    if k == 0 || CutSize(runes, build, size, k) <= limit then k else LongestUpTo(limit, runes, build, size, k - 1)
  }

  /** The whole text unmarked if it fits, else the longest prefix that fits when marked, or the empty one. */
  function Fitted<T>(limit: int, runes: seq<Rune>, build: (string, bool) -> T, size: T -> nat): T {
    if size(build(Concat(runes), false)) <= limit then build(Concat(runes), false)
    else build(Prefix(runes, LongestUpTo(limit, runes, build, size, |runes|)), true)
  }

  /** Plain search finds the longest fit, if there is one. */
  lemma {:induction false} LongestUpToFits<T>(limit: int, runes: seq<Rune>, build: (string, bool) -> T, size: T -> nat,
                                              k: nat)
    requires k <= |runes| && forall j :: k < j <= |runes| ==> CutSize(runes, build, size, j) > limit
    ensures var r := LongestUpTo(limit, runes, build, size, k);
      || LongestFit(limit, runes, build, size, r)
      || (r == 0 && forall j :: 0 <= j <= |runes| ==> CutSize(runes, build, size, j) > limit)
  {
    if k > 0 && CutSize(runes, build, size, k) > limit {
      LongestUpToFits(limit, runes, build, size, k - 1);
    }
  }

  /** There is only one longest fit. */
  lemma LongestFitIsUnique<T>(limit: int, runes: seq<Rune>, build: (string, bool) -> T, size: T -> nat, j: nat, k: nat)
    requires LongestFit(limit, runes, build, size, j) && LongestFit(limit, runes, build, size, k)
    ensures j == k
  {
  }

  /**
   The text is repaired, and the binary search gives what plain search gives, as long as sizes
   grow: the whole text unmarked if it fits; else the longest prefix that does; else an error.
   */
  method FitText<T>(limit: int, pieces: seq<Piece>, build: (string, bool) -> T, size: T -> nat)
      returns (value: T, ok: bool)
    requires Growing(Repaired(pieces), build, size)
    ensures var runes := Repaired(pieces);
      && value == Fitted(limit, runes, build, size)
      && (ok <==> size(value) <= limit)
      && (ok <==> size(build(Concat(runes), false)) <= limit || size(build("", true)) <= limit)
      && (ok && size(build(Concat(runes), false)) > limit ==>
            exists k :: LongestFit(limit, runes, build, size, k) && value == build(Prefix(runes, k), true))
      && (!ok ==> value == build("", true))
  {
    var runes := ToValid(pieces);
    value, ok := FitRunes(limit, runes, build, size);
  }

  method FitRunes<T>(limit: int, runes: seq<Rune>, build: (string, bool) -> T, size: T -> nat)
      returns (value: T, ok: bool)
    requires Growing(runes, build, size)
    ensures value == Fitted(limit, runes, build, size)
    ensures ok <==> size(value) <= limit
    ensures ok <==> size(build(Concat(runes), false)) <= limit || size(build("", true)) <= limit
    ensures ok && size(build(Concat(runes), false)) > limit ==>
      exists k :: LongestFit(limit, runes, build, size, k) && value == build(Prefix(runes, k), true)
    ensures !ok ==> value == build("", true)
  {
    var text := Concat(runes);
    var full := build(text, false);
    assert Prefix(runes, 0) == "";
    if size(full) <= limit {
      return full, true;
    }
    var boundaries := Boundaries(runes);
    var low, high := 0, |boundaries| - 1;
    while low < high
      invariant 0 <= low <= high <= |runes|
      invariant low > 0 ==> CutSize(runes, build, size, low) <= limit
      invariant forall j :: high < j <= |runes| ==> CutSize(runes, build, size, j) > limit
    {
      var mid := low + (high - low + 1) / 2;
      PrefixIsPrefix(runes, mid);
      var candidate := build(text[..boundaries[mid]], true);
      if size(candidate) <= limit {
        low := mid;
      } else {
        assert CutSize(runes, build, size, mid) > limit;
        high := mid - 1;
      }
    }
    PrefixIsPrefix(runes, low);
    value := build(text[..boundaries[low]], true);
    ok := size(value) <= limit;
    assert value == build(Prefix(runes, low), true);
    assert CutSize(runes, build, size, 0) <= CutSize(runes, build, size, low);
    LongestUpToFits(limit, runes, build, size, |runes|);
    if ok {
      assert LongestFit(limit, runes, build, size, low);
      LongestFitIsUnique(limit, runes, build, size, low, LongestUpTo(limit, runes, build, size, |runes|));
    }
  }

  // ----- sizes as the encoding makes them -----

  // What "true" and "false" take in the encoded form.
  function MarkSize(marked: bool): nat {
    if marked then 4 else 5
  }

  function Sum(costs: seq<nat>): nat {
    if costs == [] then 0 else Sum(costs[..|costs| - 1]) + costs[|costs| - 1]
  }

  /** A fixed part, the mark, and at least one byte for each rune. */
  ghost predicate Encodes<T>(runes: seq<Rune>, build: (string, bool) -> T, size: T -> nat, fixed: nat,
                             costs: seq<nat>)
  {
    && |costs| == |runes|
    && (forall i :: 0 <= i < |costs| ==> costs[i] > 0)
    && (forall k, marked :: 0 <= k <= |runes| ==>
          size(build(Prefix(runes, k), marked)) == fixed + MarkSize(marked) + Sum(costs[..k]))
  }

  lemma {:induction false} SumGrows(costs: seq<nat>, i: nat, j: nat)
    requires i <= j <= |costs|
    ensures Sum(costs[..i]) <= Sum(costs[..j])
    decreases j
  {
    if i < j {
      assert costs[..j][..j - 1] == costs[..j - 1];
      SumGrows(costs, i, j - 1);
    }
  }

  lemma EncodedSizesGrow<T>(runes: seq<Rune>, build: (string, bool) -> T, size: T -> nat, fixed: nat, costs: seq<nat>)
    requires Encodes(runes, build, size, fixed, costs)
    ensures Growing(runes, build, size)
  {
    forall i, j | 0 <= i <= j <= |runes| ensures CutSize(runes, build, size, i) <= CutSize(runes, build, size, j) {
      SumGrows(costs, i, j);
      assert size(build(Prefix(runes, i), true)) == fixed + MarkSize(true) + Sum(costs[..i]);
      assert size(build(Prefix(runes, j), true)) == fixed + MarkSize(true) + Sum(costs[..j]);
    }
  }

  /** A prefix encodes in as many bytes as the whole only if it is the whole. */
  lemma {:induction false} SumIsPositive(costs: seq<nat>, i: nat, j: nat)
    requires i < j <= |costs| && forall k :: 0 <= k < |costs| ==> costs[k] > 0
    ensures Sum(costs[..i]) < Sum(costs[..j])
  {
    assert costs[..j][..j - 1] == costs[..j - 1];
    SumGrows(costs, i, j - 1);
  }

  /**
   The whole text can come back marked as truncated, because the mark is a byte shorter than its
   absence: exactly when it is that one byte that does not fit.
   */
  lemma WholeTextIsMarkedExactlyWhen<T>(limit: int, runes: seq<Rune>, build: (string, bool) -> T, size: T -> nat,
                                        fixed: nat, costs: seq<nat>)
    requires Encodes(runes, build, size, fixed, costs)
    ensures var value := Fitted(limit, runes, build, size);
      (size(value) <= limit && size(build(Concat(runes), false)) > limit && value == build(Concat(runes), true))
        <==> limit == fixed + 4 + Sum(costs)
  {
    var n, k := |runes|, LongestUpTo(limit, runes, build, size, |runes|);
    assert runes[..n] == runes && costs[..n] == costs;
    assert size(build(Prefix(runes, n), false)) == fixed + MarkSize(false) + Sum(costs[..n]);
    assert size(build(Prefix(runes, n), true)) == fixed + MarkSize(true) + Sum(costs[..n]);
    assert size(build(Prefix(runes, k), true)) == fixed + MarkSize(true) + Sum(costs[..k]);
    if k < n { SumIsPositive(costs, k, n); }
    LongestUpToFits(limit, runes, build, size, n);
    if limit == fixed + 4 + Sum(costs) { assert LongestFit(limit, runes, build, size, n); }
  }

  /** One character, and a limit that is one byte short of the unmarked form. */
  lemma AWholeTextIsMarked()
    ensures var size := (p: (string, bool)) => |p.0| + MarkSize(p.1);
      var build := (text: string, marked: bool) => (text, marked);
      Encodes(["a"], build, size, 0, [1]) && Fitted(5, ["a"], build, size) == ("a", true)
  {
    var runes: seq<Rune> := ["a"];
    var size := (p: (string, bool)) => |p.0| + MarkSize(p.1);
    var build := (text: string, marked: bool) => (text, marked);
    assert Prefix(runes, 0) == "" && Prefix(runes, 1) == "a" by {
      assert runes[..1] == runes && runes[1..] == [] && runes[..0] == [];
    }
    var costs: seq<nat> := [1];
    assert Sum(costs[..0]) == 0 && Sum(costs[..1]) == 1 by {
      assert costs[..1][..0] == [];
    }
    assert Concat(runes) == "a";
    assert Encodes(runes, build, size, 0, costs);
  }

  // ----- source excerpts -----

  datatype Source = Source(path: string, start: int, end: int, text: string, truncated: bool)

  function SourceOf(path: string, start: int, end: int, truncated: bool): (string, bool) -> Source {
    (text, shortened) => Source(path, start, end, text, truncated || shortened)
  }

  /** Not marked, an excerpt is the whole repaired source, and was not truncated before it got here. */
  method FitSourceResult(limit: int, path: string, start: int, end: int, source: seq<Piece>, truncated: bool,
                         size: Source -> nat)
      returns (result: Source, ok: bool)
    requires Growing(Repaired(source), SourceOf(path, start, end, truncated), size)
    ensures result.path == path && result.start == start && result.end == end
    ensures !result.truncated ==> result.text == Concat(Repaired(source)) && !truncated && ok
    ensures ok ==>
      size(result) <= limit && exists k :: 0 <= k <= |Repaired(source)| && result.text == Prefix(Repaired(source), k)
    ensures !ok <==>
      && size(Source(path, start, end, Concat(Repaired(source)), truncated)) > limit
      && size(Source(path, start, end, "", true)) > limit
  {
    var build := SourceOf(path, start, end, truncated);
    result, ok := FitText(limit, source, build, size);
    ghost var runes := Repaired(source);
    assert runes[..|runes|] == runes;
    assert build(Concat(runes), false) == Source(path, start, end, Concat(runes), truncated);
    assert build("", true) == Source(path, start, end, "", true);
    assert Prefix(runes, |runes|) == Concat(runes);
  }
}
