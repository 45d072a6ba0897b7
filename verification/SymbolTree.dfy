/** Document symbols: a forest cut to a number of nodes, flattened, and cut again to a size. */
module SymbolTree {
  datatype Position = Position(line: nat, character: nat)
  datatype Range = Range(start: Position, end: Position)
  datatype Symbol = Symbol(name: string, kind: int, range: Range, selection: Range, children: seq<Symbol>)
  datatype Flat = Flat(name: string, kind: int, range: Range, selection: Range)

  /** A symbol without its children. */
  function Alone(symbol: Symbol): Flat {
    Flat(symbol.name, symbol.kind, symbol.range, symbol.selection)
  }

  /** The forest in pre-order: each symbol before its children. */
  function Flatten(forest: seq<Symbol>): seq<Flat> {
    if forest == [] then []
    else [Alone(forest[0])] + Flatten(forest[0].children) + Flatten(forest[1..])
  }

  /** The forest without the nodes that exceed the allowance, and what is left of the allowance. */
  function CutForest(forest: seq<Symbol>, allowance: nat): (r: (seq<Symbol>, nat))
    ensures r.1 <= allowance
  {
    if forest == [] || allowance == 0 then ([], allowance)
    else
      var (children, left) := CutForest(forest[0].children, allowance - 1);
      var (others, rest) := CutForest(forest[1..], left);
      ([forest[0].(children := children)] + others, rest)
  }

  function Take<T>(s: seq<T>, n: nat): seq<T> {
    if n < |s| then s[..n] else s
  }

  lemma FlattenCons(symbol: Symbol, others: seq<Symbol>)
    ensures Flatten([symbol] + others) == [Alone(symbol)] + Flatten(symbol.children) + Flatten(others)
  {
    assert ([symbol] + others)[1..] == others;
  }

  /** Cutting the forest is cutting its flattening: the first nodes in pre-order remain. */
  lemma {:induction false} CutIsPrefix(forest: seq<Symbol>, allowance: nat)
    ensures var (cut, left) := CutForest(forest, allowance);
      && Flatten(cut) == Take(Flatten(forest), allowance)
      && left == allowance - |Flatten(cut)|
  {
    if forest != [] && allowance > 0 {
      var symbol := forest[0];
      var (children, left) := CutForest(symbol.children, allowance - 1);
      var (others, rest) := CutForest(forest[1..], left);
      CutIsPrefix(symbol.children, allowance - 1);
      CutIsPrefix(forest[1..], left);
      FlattenCons(symbol.(children := children), others);
      var head := [Alone(symbol)];
      var below, after := Flatten(symbol.children), Flatten(forest[1..]);
      assert Flatten(forest) == head + below + after;
      TakeSplits(head, below, after, allowance);
    }
  }

  lemma TakeSplits<T>(head: seq<T>, below: seq<T>, after: seq<T>, n: nat)
    requires |head| == 1 && n > 0
    ensures Take(head + below + after, n) == head + Take(below, n - 1) + Take(after, n - 1 - |Take(below, n - 1)|)
  {
  }

  /** The trees of the one forest are the first trees of the other, each cut in the same way. */
  predicate IsPruned(cut: seq<Symbol>, forest: seq<Symbol>) {
    cut == [] ||
    (forest != [] && Alone(cut[0]) == Alone(forest[0])
     && IsPruned(cut[0].children, forest[0].children) && IsPruned(cut[1..], forest[1..]))
  }

  /** Cutting keeps the shape: what remains of a tree hangs where it hung. */
  lemma {:induction false} CutIsPruned(forest: seq<Symbol>, allowance: nat)
    ensures IsPruned(CutForest(forest, allowance).0, forest)
  {
    if forest != [] && allowance > 0 {
      var (children, left) := CutForest(forest[0].children, allowance - 1);
      var (others, rest) := CutForest(forest[1..], left);
      CutIsPruned(forest[0].children, allowance - 1);
      CutIsPruned(forest[1..], left);
      assert ([forest[0].(children := children)] + others)[1..] == others;
    }
  }

  // ----- what the flat form says of the forest -----

  /** The symbol is in the forest, at any depth. */
  predicate Occurs(symbol: Symbol, forest: seq<Symbol>) {
    forest != [] && (symbol == forest[0] || Occurs(symbol, forest[0].children) || Occurs(symbol, forest[1..]))
  }

  /** Every symbol is listed under its own name, kind, range and selection, and nothing else is. */
  lemma {:induction false} EntriesAreSymbols(forest: seq<Symbol>, entry: Flat)
    ensures entry in Flatten(forest) <==>
      exists symbol :: Occurs(symbol, forest)
        && entry.name == symbol.name && entry.kind == symbol.kind
        && entry.range == symbol.range && entry.selection == symbol.selection
  {
    if forest != [] {
      EntriesAreSymbols(forest[0].children, entry);
      EntriesAreSymbols(forest[1..], entry);
      var below, after := Flatten(forest[0].children), Flatten(forest[1..]);
      assert entry in Flatten(forest) <==> entry == Alone(forest[0]) || entry in below || entry in after;
      if entry == Alone(forest[0]) {
        assert Occurs(forest[0], forest);
      } else if entry in below {
        var symbol :| Occurs(symbol, forest[0].children) && entry == Alone(symbol);
        assert Occurs(symbol, forest);
      } else if entry in after {
        var symbol :| Occurs(symbol, forest[1..]) && entry == Alone(symbol);
        assert Occurs(symbol, forest);
      }
    }
  }

  /** A symbol comes right before its children, and these before what follows it. */
  lemma ParentsComeFirst(symbol: Symbol, others: seq<Symbol>)
    ensures var flat := Flatten([symbol] + others); var n := |Flatten(symbol.children)|;
      && flat[0] == Flat(symbol.name, symbol.kind, symbol.range, symbol.selection)
      && flat[1..n + 1] == Flatten(symbol.children) && flat[n + 1..] == Flatten(others)
  {
    FlattenCons(symbol, others);
  }

  // ----- as it runs -----

  class Allowance {
    var remaining: nat

    constructor (max: nat)
      ensures remaining == max
    {
      remaining := max;
    }

    /** Keeps as much of a forest as is left of the allowance. */
    method Visit(forest: seq<Symbol>) returns (out: seq<Symbol>)
      modifies this
      ensures CutForest(forest, old(remaining)) == (out, remaining)
      decreases forest
    {
      out := [];
      var i := 0;
      assert forest[0..] == forest;
      assert [] + CutForest(forest, remaining).0 == CutForest(forest, remaining).0;
      while i < |forest|
        invariant 0 <= i <= |forest|
        invariant var (others, rest) := CutForest(forest[i..], remaining);
          CutForest(forest, old(remaining)) == (out + others, rest)
      {
        if remaining == 0 {
          break;
        }
        var symbol := forest[i];
        remaining := remaining - 1;
        ghost var before := remaining;
        var children := Visit(symbol.children);
        symbol := symbol.(children := children);
        ghost var (others, rest) := CutForest(forest[i + 1..], remaining);
        assert forest[i..][1..] == forest[i + 1..];
        assert out + ([symbol] + others) == (out + [symbol]) + others;
        out := out + [symbol];
        i := i + 1;
      }
      assert out + [] == out;
    }
  }

  /** A limit that is not positive limits nothing. */
  method LimitDocumentSymbols(items: seq<Symbol>, max: int) returns (out: seq<Symbol>)
    ensures Flatten(out) == if max <= 0 then Flatten(items) else Take(Flatten(items), max)
    ensures out == if max <= 0 then items else CutForest(items, max).0
  {
    if max <= 0 {
      return items;
    }
    var allowance := new Allowance(max);
    out := allowance.Visit(items);
    CutIsPrefix(items, max);
  }

  class Collector {
    var out: seq<Flat>

    constructor ()
      ensures out == []
    {
      out := [];
    }

    method Walk(forest: seq<Symbol>)
      modifies this
      ensures out == old(out) + Flatten(forest)
      decreases forest
    {
      var i := 0;
      while i < |forest|
        invariant 0 <= i <= |forest|
        invariant out + Flatten(forest[i..]) == old(out) + Flatten(forest)
      {
        ghost var before := out;
        var head := Flat(forest[i].name, forest[i].kind, forest[i].range, forest[i].selection);
        out := out + [head];
        Walk(forest[i].children);
        assert forest[i..][1..] == forest[i + 1..];
        assert Flatten(forest[i..]) == [head] + Flatten(forest[i].children) + Flatten(forest[i + 1..]);
        i := i + 1;
      }
    }
  }

  method FlattenSymbols(forest: seq<Symbol>) returns (out: seq<Flat>)
    ensures out == Flatten(forest)
  {
    var collector := new Collector();
    collector.Walk(forest);
    out := collector.out;
  }

  // What one item is taken to need beyond its name.
  const ITEM_OVERHEAD := 96

  function Need(items: seq<Flat>): nat {
    if items == [] then 0 else Need(items[..|items| - 1]) + |items[|items| - 1].name| + ITEM_OVERHEAD
  }

  /** Keeps the items up to the first that exceeds the size; tells whether something is missing. */
  method TrimDocumentSymbols(items: seq<Flat>, max: int, truncated: bool) returns (out: seq<Flat>, marked: bool)
    ensures out <= items && (out != [] ==> Need(out) <= max)
    ensures out != items ==> Need(items[..|out| + 1]) > max
    ensures marked <==> truncated || out != items
  {
    out, marked := [], truncated;
    var used := 0;
    var i := 0;
    while i < |items|
      invariant 0 <= i <= |items| && out == items[..i]
      invariant used == Need(out) && (i > 0 ==> used <= max) && marked == truncated
    {
      var n := |items[i].name| + ITEM_OVERHEAD;
      assert items[..i + 1][..i] == items[..i];
      if used + n > max {
        marked := true;
        break;
      }
      out := out + [items[i]];
      used := used + n;
      i := i + 1;
    }
  }

  /** Every item needs 96 bytes beside its name. */
  lemma {:induction false} NeedAdds(first: seq<Flat>, second: seq<Flat>)
    ensures Need(first + second) == Need(first) + Need(second)
    ensures |second| == 1 ==> Need(second) == |second[0].name| + 96
    decreases |second|
  {
    if second == [] {
      assert first + second == first;
    } else {
      var n := |second| - 1;
      assert (first + second)[..|first| + n] == first + second[..n];
      NeedAdds(first, second[..n]);
    }
  }

  lemma PrefixOfTake(all: seq<Flat>, max: nat, items: seq<Flat>, out: seq<Flat>)
    requires items == Take(all, max) && out <= items
    ensures out <= all && |out| <= max
    ensures out != all <==> out != items || |all| > max
    ensures out != items ==> |out| < |all| && items[..|out| + 1] == all[..|out| + 1]
  {
  }

  datatype Listing = Listing(items: seq<Flat>, truncated: bool)

  /**
   The listing is a prefix of the whole document in pre-order, of at most the items asked for, and
   says that it is truncated exactly when something is missing. One symbol more than asked for is
   fetched so that this can be told.
   */
  method DocumentSymbols(forest: seq<Symbol>, max: nat, limit: int, size: Listing -> nat) returns (r: Listing, ok: bool)
    ensures r.items <= Flatten(forest) && |r.items| <= max
    ensures r.truncated <==> r.items != Flatten(forest)
    ensures |r.items| < max && |r.items| < |Flatten(forest)| ==> Need(Flatten(forest)[..|r.items| + 1]) > limit
    ensures r.items != [] ==> Need(r.items) <= limit
    ensures ok <==> size(r) <= limit
  {
    var cut := LimitDocumentSymbols(forest, max + 1);
    var items := FlattenSymbols(cut);
    var truncated := false;
    if |items| > max {
      items := items[..max];
      truncated := true;
    }
    var out, marked := TrimDocumentSymbols(items, limit, truncated);
    PrefixOfTake(Flatten(forest), max, items, out);
    r := Listing(out, marked);
    ok := size(r) <= limit;
  }
}
