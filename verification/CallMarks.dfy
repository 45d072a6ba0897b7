/** When a report is marked as truncated although nothing is missing. */
module CallMarks {
  import opened Collections
  import opened CallGraphModel
  import opened CallGraphProofs
  import opened CallSearchProofs
  import opened CallHierarchy

  // ----- marks left by the search below the roots are real -----

  lemma {:induction false} FollowMarkIsReal(w: World, direction: Direction, g: Graph, from: string, calls: seq<Call>,
                                            max: nat)
    requires !g.truncated && Follow(w, direction, g, from, calls, max).truncated
    ensures
      || (exists i :: 0 <= i < |calls| && !Usable(w, direction, calls[i]))
      || var all := WithCalls(w, g, from, Targets(direction, calls)); |all.nodes| + |all.edges| > max
    decreases |calls|
  {
    if Usable(w, direction, calls[0]) {
      var to := Endpoint(direction, calls[0]).value;
      WithFirstCall(w, g, from, direction, calls);
      if HasRoom(w, g, to, max) {
        FollowMarkIsReal(w, direction, WithCall(w, g, from, to), from, calls[1..], max);
        if i :| 0 <= i < |calls[1..]| && !Usable(w, direction, calls[1..][i]) {
          assert !Usable(w, direction, calls[i + 1]);
        }
      }
    }
  }

  lemma {:induction false} FollowAllMarkIsReal(w: World, direction: Direction, g: Graph, nodes: seq<Node>, max: nat)
    requires OwnIds(w, nodes) && !g.truncated
    requires var r := FollowAll(w, direction, g, Items(nodes), max); r.Some? && r.value.truncated
    ensures !AllClean(w, direction, nodes)
      || var all := WithAllCalls(w, direction, g, nodes); |all.nodes| + |all.edges| > max
    decreases |nodes|
  {
    var calls := CallsOf(w, direction, nodes[0].item).value;
    var g' := Follow(w, direction, g, nodes[0].id, calls, max);
    assert Items(nodes)[1..] == Items(nodes[1..]);
    WithFirstNode(w, direction, g, nodes);
    if g'.truncated {
      FollowMarkIsReal(w, direction, g, nodes[0].id, calls, max);
      if i :| 0 <= i < |calls| && !Usable(w, direction, calls[i]) {
        assert !Clean(w, direction, nodes[0].item);
      }
    } else {
      FollowMissesNothing(w, direction, g, nodes[0].id, calls, max);
      FollowAllMarkIsReal(w, direction, g', nodes[1..], max);
      assert forall i :: 0 < i < |nodes| ==> nodes[i] == nodes[1..][i - 1];
    }
  }

  /** No report within the budget can have all of these layers. */
  ghost predicate OverBudget(w: World, direction: Direction, layers: Layers, max: nat)
    requires layers.expanded <= |layers.nodes|
  {
    var done := layers.nodes[..layers.expanded];
    !AllClean(w, direction, done) || |layers.nodes| + |AllEdges(w, direction, done)| > max
  }

  lemma OverBudgetGrows(w: World, direction: Direction, layers: Layers, more: Layers, max: nat)
    requires layers.expanded <= |layers.nodes| && more.expanded <= |more.nodes|
    requires layers.nodes <= more.nodes && layers.expanded <= more.expanded
    requires OverBudget(w, direction, layers, max)
    ensures OverBudget(w, direction, more, max)
  {
    var done, all := layers.nodes[..layers.expanded], more.nodes[..more.expanded];
    assert all == done + all[layers.expanded..];
    AllEdgesAppend(w, direction, done, all[layers.expanded..]);
    assert forall i :: 0 <= i < |done| ==> done[i] == all[i];
  }

  lemma {:induction false} LayersGrow(w: World, direction: Direction, layers: Layers, n: nat)
    requires layers.expanded <= |layers.nodes|
    ensures var more := ExpandTimes(w, direction, layers, n);
      layers.nodes <= more.nodes && layers.expanded <= more.expanded
    decreases n
  {
    if n > 0 { LayersGrow(w, direction, Expand(w, direction, layers), n - 1); }
  }

  lemma LevelMarkIsReal(w: World, direction: Direction, layers: Layers, g: Graph, max: nat)
    requires layers.expanded <= |layers.nodes| && OwnIds(w, layers.nodes) && Matches(w, direction, layers, g)
    requires !g.truncated && LevelMarks(w, direction, layers, g, max)
    ensures OverBudget(w, direction, Expand(w, direction, layers), max)
  {
    var frontier := g.nodes[layers.expanded..];
    FollowAllMarkIsReal(w, direction, g, frontier, max);
    ExpandIsAllCalls(w, direction, layers, g);
    CleanParts(w, direction, g.nodes, layers.expanded);
  }

  lemma ExpandIsAllCalls(w: World, direction: Direction, layers: Layers, g: Graph)
    requires layers.expanded <= |layers.nodes| && Matches(w, direction, layers, g)
    ensures var next := Expand(w, direction, layers);
      var all := WithAllCalls(w, direction, g, g.nodes[layers.expanded..]);
      next.nodes == all.nodes && next.nodes[..next.expanded] == g.nodes && all.edges == AllEdges(w, direction, g.nodes)
  {
    var done, frontier := g.nodes[..layers.expanded], g.nodes[layers.expanded..];
    assert g.nodes == done + frontier;
    AllEdgesAppend(w, direction, done, frontier);
  }

  lemma CleanParts(w: World, direction: Direction, nodes: seq<Node>, n: nat)
    requires n <= |nodes|
    ensures AllClean(w, direction, nodes) ==> AllClean(w, direction, nodes[n..])
  {
    assert forall i :: 0 <= i < |nodes| - n ==> nodes[n..][i] == nodes[n + i];
  }

  lemma {:induction false} LevelsMarkIsReal(w: World, direction: Direction, layers: Layers, g: Graph, levels: nat,
                                            max: nat, all: Layers, r: Graph)
    requires SearchGives(w, direction, layers, g, levels, max, all, r) && !g.truncated && r.truncated
    ensures OverBudget(w, direction, all, max)
    decreases levels
  {
    if levels == 0 || layers.expanded == |g.nodes| {
      NothingToFollow(w, direction, layers, g, levels, max, all, r);
    } else if LevelMarks(w, direction, layers, g, max) {
      LevelMarkStays(w, direction, layers, g, levels, max, all, r);
    } else {
      var next := FirstLevel(w, direction, layers, g, levels, max, all, r);
      LevelsMarkIsReal(w, direction, Expand(w, direction, layers), next, levels - 1, max, all, r);
    }
  }

  lemma LevelMarkStays(w: World, direction: Direction, layers: Layers, g: Graph, levels: nat, max: nat,
                       all: Layers, r: Graph)
    requires SearchGives(w, direction, layers, g, levels, max, all, r)
    requires levels > 0 && !g.truncated && LevelMarks(w, direction, layers, g, max)
    ensures OverBudget(w, direction, all, max)
  {
    LevelMarkIsReal(w, direction, layers, g, max);
    OverBudgetStays(w, direction, Expand(w, direction, layers), levels - 1, max, all);
  }

  lemma OverBudgetStays(w: World, direction: Direction, layers: Layers, n: nat, max: nat, all: Layers)
    requires layers.expanded <= |layers.nodes| && OverBudget(w, direction, layers, max)
    requires all == ExpandTimes(w, direction, layers, n)
    ensures OverBudget(w, direction, all, max)
  {
    LayersGrow(w, direction, layers, n);
    OverBudgetGrows(w, direction, layers, all, max);
  }

  // ----- marks left by the roots -----

  /** Listing the roots leaves a mark exactly when the budget is used up before the last of them. */
  lemma {:induction false} RootsMarkExactly(w: World, g: Graph, items: seq<Item>, max: nat)
    requires !g.truncated
    ensures ListRoots(w, g, items, max).truncated <==>
      items != [] && |AddNodes(w, g.nodes, items[..|items| - 1])| >= max
    decreases |items|
  {
    if items != [] && |g.nodes| < max && |items| > 1 {
      var nodes := AddNode(w, g.nodes, items[0]);
      var roots := if nodes == g.nodes then g.roots else g.roots + [w.key(items[0])];
      var rest := items[1..];
      RootsMarkExactly(w, g.(nodes := nodes, roots := roots), rest, max);
      assert items[..|items| - 1] == [items[0]] + rest[..|rest| - 1];
      AddNodesTwice(w, g.nodes, [items[0]], rest[..|rest| - 1]);
      AddNodesOne(w, g.nodes, items[0]);
    } else if |items| == 1 {
      assert items[..0] == [];
    }
  }

  /** What is listed is a beginning of all the roots, and as many as the budget allows when marked. */
  lemma {:induction false} RootsArePrefix(w: World, g: Graph, items: seq<Item>, max: nat)
    ensures var r := ListRoots(w, g, items, max);
      r.nodes <= AddNodes(w, g.nodes, items) && (r.truncated && !g.truncated ==> |r.nodes| >= max)
    decreases |items|
  {
    if items != [] && |g.nodes| < max {
      var nodes := AddNode(w, g.nodes, items[0]);
      var roots := if nodes == g.nodes then g.roots else g.roots + [w.key(items[0])];
      RootsArePrefix(w, g.(nodes := nodes, roots := roots), items[1..], max);
      assert items == [items[0]] + items[1..];
      AddNodesTwice(w, g.nodes, [items[0]], items[1..]);
      AddNodesOne(w, g.nodes, items[0]);
    }
  }

  // ----- the whole request -----

  /** The report of all there is, before any mark. */
  ghost function AllThereIs(w: World, direction: Direction, levels: nat): Graph
    requires w.prepared.Some?
  {
    var all := Explored(w, direction, w.prepared.value, levels);
    Graph(IdsOf(AddNodes(w, [], w.prepared.value)), all.nodes, AllEdges(w, direction, all.nodes[..all.expanded]), false)
  }

  /** All there is may be seen and fits the budget. */
  ghost predicate WithinReach(w: World, direction: Direction, levels: nat, max: nat)
    requires w.prepared.Some?
  {
    var all := Explored(w, direction, w.prepared.value, levels);
    && AllowedItems(w, w.prepared.value) == w.prepared.value
    && !OverBudget(w, direction, all, max)
  }

  /**
   The roots fill the budget before the last of them, which is listed already; or there are none,
   and only the mark makes the empty report short enough.
   */
  ghost predicate OnlyTheMark(w: World, direction: Direction, levels: nat, max: nat, limit: int, size: Graph -> nat)
    requires w.prepared.Some?
  {
    var items, all := w.prepared.value, AllThereIs(w, direction, levels);
    if items == [] then size(all) > limit
    else |AddNodes(w, [], items[..|items| - 1])| >= max && size(all.(truncated := true)) <= limit
  }

  lemma {:induction false} RootsComeFirst(w: World, direction: Direction, roots: seq<Item>, levels: nat)
    ensures AddNodes(w, [], roots) <= Explored(w, direction, roots, levels).nodes
  {
    if levels > 0 {
      var before := Explored(w, direction, roots, levels - 1);
      RootsComeFirst(w, direction, roots, levels - 1);
      assert before.nodes <= Expand(w, direction, before).nodes;
    }
  }

  lemma RootsAreSome(w: World, items: seq<Item>)
    requires items != []
    ensures AddNodes(w, [], items) != []
  {
    AddNodesKeeps(w, [], items);
    KeyListed(w, items, items[0]);
  }

  /** What is whole but for the mark is all there is, and may be seen, and fits the budget. */
  lemma WholeIsAll(w: World, direction: Direction, levels: nat, max: nat, g: Graph)
    requires w.prepared.Some? && Whole(w, direction, levels, g) && |g.nodes| + |g.edges| <= max
    ensures g == AllThereIs(w, direction, levels).(truncated := g.truncated) && WithinReach(w, direction, levels, max)
  {
    var all := Explored(w, direction, w.prepared.value, levels);
    assert forall i :: 0 <= i < all.expanded ==> all.nodes[..all.expanded][i] == all.nodes[i];
  }

  lemma AllIsWhole(w: World, direction: Direction, levels: nat, max: nat, g: Graph)
    requires w.prepared.Some? && WithinReach(w, direction, levels, max)
    requires g == AllThereIs(w, direction, levels).(truncated := g.truncated)
    ensures Whole(w, direction, levels, g)
  {
    var all := Explored(w, direction, w.prepared.value, levels);
    assert forall i :: 0 <= i < all.expanded ==> all.nodes[..all.expanded][i] == all.nodes[i];
  }

  function Listed(w: World, max: nat): Graph
    requires w.prepared.Some?
  {
    var roots := AllowedItems(w, w.prepared.value);
    ListRoots(w, Graph([], [], [], roots != w.prepared.value), roots, max)
  }

  /** If all there is can be reported, the search reports it, or a beginning of the roots with a mark. */
  lemma SearchWithinReach(w: World, direction: Direction, levels: nat, max: nat)
    requires w.prepared.Some? && WithinReach(w, direction, levels, max)
    requires Searched(w, direction, levels, max).Some?
    ensures var found := Searched(w, direction, levels, max).value; var listed := Listed(w, max);
      if listed.truncated then found == listed
      else found == AllThereIs(w, direction, levels)
  {
    var items, listed := w.prepared.value, Listed(w, max);
    RootsAreReported(w, direction, items, false, max);
    FollowLevelsMarks(w, direction, listed, 0, levels, max);
    if !listed.truncated {
      UnmarkedWithinReach(w, direction, items, listed, levels, max);
      LevelsAreReported(w, direction, items, listed, levels, max);
    }
  }

  lemma UnmarkedWithinReach(w: World, direction: Direction, roots: seq<Item>, listed: Graph, levels: nat, max: nat)
    requires !listed.truncated && Complete(w, direction, roots, 0, listed)
    requires !OverBudget(w, direction, Explored(w, direction, roots, levels), max)
    ensures var r := FollowLevels(w, direction, listed, 0, levels, max); r.Some? ==> !r.value.truncated
  {
    var r := FollowLevels(w, direction, listed, 0, levels, max);
    ExploredIsFaithful(w, direction, roots, 0);
    ExpandFrom(w, direction, roots, Explored(w, direction, roots, 0), levels);
    if r.Some? && r.value.truncated {
      LevelsMarkIsReal(w, direction, Explored(w, direction, roots, 0), listed, levels, max,
                       Explored(w, direction, roots, levels), r.value);
    }
  }

  /**
   A report that is marked has something missing, except when the budget is used up by the roots
   and the last of them is listed already, or when there are no roots and only the empty report
   with its mark is short enough.
   */
  lemma MarkIsSpuriousExactlyWhen(w: World, direction: Direction, levels: nat, max: nat, limit: int, size: Graph -> nat,
                                  g: Graph)
    requires w.prepared.Some? && Searched(w, direction, levels, max).Some?
    requires TrimmedTo(Searched(w, direction, levels, max).value, limit, size, Report(g))
    requires Faithful(w, direction, levels, max, limit, size, g)
    ensures g.truncated && Whole(w, direction, levels, g)
       <==> WithinReach(w, direction, levels, max) && OnlyTheMark(w, direction, levels, max, limit, size)
  {
    var items := w.prepared.value;
    if g.truncated && Whole(w, direction, levels, g) {
      WholeIsAll(w, direction, levels, max, g);
      SearchWithinReach(w, direction, levels, max);
      MarkedWholeIsOnlyTheMark(w, direction, levels, max, limit, size, g);
    }
    if WithinReach(w, direction, levels, max) && OnlyTheMark(w, direction, levels, max, limit, size) {
      SearchWithinReach(w, direction, levels, max);
      OnlyTheMarkIsWhole(w, direction, levels, max, limit, size, g);
    }
  }

  lemma MarkedWholeIsOnlyTheMark(w: World, direction: Direction, levels: nat, max: nat, limit: int, size: Graph -> nat,
                                 g: Graph)
    requires w.prepared.Some? && WithinReach(w, direction, levels, max) && Searched(w, direction, levels, max).Some?
    requires var found := Searched(w, direction, levels, max).value; var listed := Listed(w, max);
      && TrimmedTo(found, limit, size, Report(g))
      && if listed.truncated then found == listed else found == AllThereIs(w, direction, levels)
    requires g == AllThereIs(w, direction, levels).(truncated := true) && size(g) <= limit
    ensures OnlyTheMark(w, direction, levels, max, limit, size)
  {
    var items, all, found :=
      w.prepared.value, AllThereIs(w, direction, levels), Searched(w, direction, levels, max).value;
    var k :| FirstFit(found, limit, size, k) && g == Candidate(found, k);
    RootsMarkExactly(w, Graph([], [], [], false), items, max);
    if items != [] {
      FoundIsWithin(w, direction, levels, max, found);
      NothingDropped(found, k, all);
    } else {
      NoRoots(w, direction, levels);
      assert k == 0 || !Fits(found, limit, size, 0);
    }
  }

  /** What is found is a part of all there is, which is not nothing. */
  lemma FoundIsWithin(w: World, direction: Direction, levels: nat, max: nat, found: Graph)
    requires w.prepared.Some? && w.prepared.value != [] && WithinReach(w, direction, levels, max)
    requires var listed := Listed(w, max);
      if listed.truncated then found == listed else found == AllThereIs(w, direction, levels)
    ensures var all := AllThereIs(w, direction, levels);
      all.nodes != [] && found.nodes <= all.nodes && |found.edges| <= |all.edges|
  {
    var items, empty := w.prepared.value, Graph([], [], [], false);
    RootsComeFirst(w, direction, items, levels);
    RootsAreSome(w, items);
    RootsReport(w, direction, items, empty, items, max);
    RootsArePrefix(w, empty, items, max);
  }

  /** A candidate that has as much as what it was made from, and is not empty, is that itself. */
  lemma NothingDropped(found: Graph, k: nat, all: Graph)
    requires k < CandidateCount(found) && all.nodes != []
    requires found.nodes <= all.nodes && |found.edges| <= |all.edges|
    requires Candidate(found, k).nodes == all.nodes && Candidate(found, k).edges == all.edges
    ensures k == 0
  {
  }

  lemma {:induction false} NoRoots(w: World, direction: Direction, levels: nat)
    requires w.prepared == Some([])
    ensures AllThereIs(w, direction, levels) == Graph([], [], [], false)
  {
    ExpandNoMore(w, direction, Explored(w, direction, [], 0), levels);
    ExpandFrom(w, direction, [], Explored(w, direction, [], 0), levels);
  }

  lemma OnlyTheMarkIsWhole(w: World, direction: Direction, levels: nat, max: nat, limit: int, size: Graph -> nat,
                           g: Graph)
    requires w.prepared.Some? && WithinReach(w, direction, levels, max) && Searched(w, direction, levels, max).Some?
    requires var found := Searched(w, direction, levels, max).value; var listed := Listed(w, max);
      && TrimmedTo(found, limit, size, Report(g))
      && if listed.truncated then found == listed else found == AllThereIs(w, direction, levels)
    requires OnlyTheMark(w, direction, levels, max, limit, size) && size(g) <= limit
    ensures g.truncated && Whole(w, direction, levels, g)
  {
    var items, all, found :=
      w.prepared.value, AllThereIs(w, direction, levels), Searched(w, direction, levels, max).value;
    var k :| FirstFit(found, limit, size, k) && g == Candidate(found, k);
    var empty := Graph([], [], [], false);
    RootsMarkExactly(w, empty, items, max);
    if items == [] {
      NoRoots(w, direction, levels);
      assert k > 0;
    } else {
      FullRootsAreAll(w, direction, levels, max);
      assert Fits(found, limit, size, 0);
      assert k == 0;
    }
    AllIsWhole(w, direction, levels, max, g);
  }

  /** Roots that fill a budget which all there is fits into are all there is. */
  lemma FullRootsAreAll(w: World, direction: Direction, levels: nat, max: nat)
    requires w.prepared.Some? && WithinReach(w, direction, levels, max) && Listed(w, max).truncated
    ensures Listed(w, max) == AllThereIs(w, direction, levels).(truncated := true)
  {
    var items, all, empty, listed :=
      w.prepared.value, AllThereIs(w, direction, levels), Graph([], [], [], false), Listed(w, max);
    RootsReport(w, direction, items, empty, items, max);
    RootsArePrefix(w, empty, items, max);
    RootsComeFirst(w, direction, items, levels);
    SameLength(listed.nodes, AddNodes(w, [], items), all.nodes);
  }

  lemma SameLength(first: seq<Node>, second: seq<Node>, third: seq<Node>)
    requires first <= second <= third && |third| <= |first|
    ensures first == second == third
  {
  }

  lemma RepeatedRootIsListed(w: World, root: Item)
    ensures AddNodes(w, [], [root, root]) == [Node(w.key(root), root)]
    ensures ListRoots(w, Graph([], [], [], false), [root, root], 1)
         == Graph([w.key(root)], [Node(w.key(root), root)], [], true)
  {
    var node, items := Node(w.key(root), root), [root, root];
    IdSetGrows([], node);
    assert IdSet([]) == {} && [] + [node] == [node];
    assert AddNode(w, [], root) == [node] && AddNode(w, [node], root) == [node];
    assert items[..1] == [root] && [root][..0] == [] && items[1..] == [root];
    assert AddNodes(w, [], [root]) == [node];
    assert ListRoots(w, Graph([node.id], [node], [], false), [root], 1) == Graph([node.id], [node], [], true);
  }

  lemma AllAllowed(w: World, root: Item)
    requires w.allowed(root.uri)
    ensures AllowedItems(w, [root, root]) == [root, root]
  {
    assert [root, root][..1] == [root] && [root][..0] == [];
    assert AllowedItems(w, [root]) == [root];
  }

  /**
   A request whose two roots are one, with room for one: the report is marked although it is all
   there is.
   */
  lemma ARepeatedRootIsMarked(w: World, direction: Direction, root: Item, limit: int, size: Graph -> nat)
    requires w.prepared == Some([root, root]) && w.allowed(root.uri)
    requires size(Graph([w.key(root)], [Node(w.key(root), root)], [], true)) <= limit
    ensures var g := Graph([w.key(root)], [Node(w.key(root), root)], [], true);
      && Searched(w, direction, 0, 1) == Some(g)
      && TrimmedTo(g, limit, size, Report(g))
      && Faithful(w, direction, 0, 1, limit, size, g)
      && Whole(w, direction, 0, g)
  {
    var g := Graph([w.key(root)], [Node(w.key(root), root)], [], true);
    AllAllowed(w, root);
    RepeatedRootIsListed(w, root);
    RootsAreReported(w, direction, [root, root], false, 1);
    assert FirstFit(g, limit, size, 0) && g == Candidate(g, 0);
    assert g.roots == IdsOf(g.nodes) && g.nodes[..0] == [];
  }
}
