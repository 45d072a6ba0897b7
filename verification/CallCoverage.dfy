/** What a call hierarchy still contains when it is marked, and which calls it is about. */
module CallCoverage {
  import opened Collections
  import opened CallGraphModel
  import opened CallGraphProofs
  import opened CallSearchProofs
  import opened CallHierarchy
  import opened CallMarks

  // ----- nothing but hidden calls and the budget keeps a call out -----

  /** There may be no room any more for a call that leads to a new node. */
  predicate Full(g: Graph, max: nat) {
    |g.nodes| + |g.edges| + 1 >= max
  }

  predicate CallListed(w: World, g: Graph, from: string, to: Item) {
    Edge(from, w.key(to)) in g.edges && w.key(to) in IdSet(g.nodes)
  }

  /** Each of these calls that leads where the caller may look is listed, or the budget is used up. */
  ghost predicate Lists(w: World, direction: Direction, g: Graph, from: string, calls: seq<Call>, max: nat) {
    forall i :: 0 <= i < |calls| && Usable(w, direction, calls[i]) ==>
      CallListed(w, g, from, Endpoint(direction, calls[i]).value) || Full(g, max)
  }

  /** So are the calls of each of these nodes. */
  ghost predicate Covers(w: World, direction: Direction, g: Graph, nodes: seq<Node>, max: nat) {
    forall i :: 0 <= i < |nodes| ==>
      && CallsOf(w, direction, nodes[i].item).Some?
      && Lists(w, direction, g, nodes[i].id, CallsOf(w, direction, nodes[i].item).value, max)
  }

  predicate Extends(g: Graph, more: Graph) {
    g.nodes <= more.nodes && g.edges <= more.edges
  }

  lemma ListsMore(w: World, direction: Direction, g: Graph, more: Graph, from: string, calls: seq<Call>, max: nat)
    requires Extends(g, more) && Lists(w, direction, g, from, calls, max)
    ensures Lists(w, direction, more, from, calls, max)
  {
    IdsExtend(g.nodes, more.nodes);
    forall i | 0 <= i < |calls| && Usable(w, direction, calls[i])
      ensures CallListed(w, more, from, Endpoint(direction, calls[i]).value) || Full(more, max)
    {
      var to := Endpoint(direction, calls[i]).value;
      assert CallListed(w, g, from, to) || Full(g, max);
    }
  }

  lemma IdsExtend(nodes: seq<Node>, more: seq<Node>)
    requires nodes <= more
    ensures IdSet(nodes) <= IdSet(more)
  {
    assert forall i :: 0 <= i < |nodes| ==> nodes[i] == more[i];
  }

  lemma CoversMore(w: World, direction: Direction, g: Graph, more: Graph, nodes: seq<Node>, max: nat)
    requires Extends(g, more) && Covers(w, direction, g, nodes, max)
    ensures Covers(w, direction, more, nodes, max)
  {
    forall i | 0 <= i < |nodes|
      ensures CallsOf(w, direction, nodes[i].item).Some?
      ensures Lists(w, direction, more, nodes[i].id, CallsOf(w, direction, nodes[i].item).value, max)
    {
      ListsMore(w, direction, g, more, nodes[i].id, CallsOf(w, direction, nodes[i].item).value, max);
    }
  }

  lemma {:induction false} FollowExtends(w: World, direction: Direction, g: Graph, from: string, calls: seq<Call>,
                                         max: nat)
    ensures Extends(g, Follow(w, direction, g, from, calls, max))
    decreases |calls|
  {
    if calls != [] {
      if !Usable(w, direction, calls[0]) {
        FollowExtends(w, direction, g.(truncated := true), from, calls[1..], max);
      } else {
        var to := Endpoint(direction, calls[0]).value;
        if HasRoom(w, g, to, max) { FollowExtends(w, direction, WithCall(w, g, from, to), from, calls[1..], max); }
      }
    }
  }

  lemma CallIsListed(w: World, g: Graph, from: string, to: Item)
    ensures CallListed(w, WithCall(w, g, from, to), from, to)
  {
    AddNodeKeeps(w, g.nodes, to);
    var edges := g.edges + [Edge(from, w.key(to))];
    assert edges[|g.edges|] == Edge(from, w.key(to));
  }

  /** Following the calls of an item skips the hidden ones, and stops only where the budget ends. */
  lemma {:induction false} FollowLists(w: World, direction: Direction, g: Graph, from: string, calls: seq<Call>,
                                       max: nat)
    ensures Lists(w, direction, Follow(w, direction, g, from, calls, max), from, calls, max)
    decreases |calls|
  {
    if calls != [] {
      var r := Follow(w, direction, g, from, calls, max);
      if !Usable(w, direction, calls[0]) {
        FollowLists(w, direction, g.(truncated := true), from, calls[1..], max);
        ListsFirst(w, direction, r, from, calls, max);
      } else {
        var to := Endpoint(direction, calls[0]).value;
        if HasRoom(w, g, to, max) {
          var g' := WithCall(w, g, from, to);
          FollowLists(w, direction, g', from, calls[1..], max);
          FollowExtends(w, direction, g', from, calls[1..], max);
          CallIsListed(w, g, from, to);
          IdsExtend(g'.nodes, r.nodes);
          ListsFirst(w, direction, r, from, calls, max);
        }
      }
    }
  }

  lemma ListsFirst(w: World, direction: Direction, g: Graph, from: string, calls: seq<Call>, max: nat)
    requires calls != [] && Lists(w, direction, g, from, calls[1..], max)
    requires Usable(w, direction, calls[0]) ==> CallListed(w, g, from, Endpoint(direction, calls[0]).value)
    ensures Lists(w, direction, g, from, calls, max)
  {
    forall i | 0 <= i < |calls| && Usable(w, direction, calls[i])
      ensures CallListed(w, g, from, Endpoint(direction, calls[i]).value) || Full(g, max)
    {
      if i > 0 { assert calls[i] == calls[1..][i - 1]; }
    }
  }

  lemma {:induction false} FollowAllExtends(w: World, direction: Direction, g: Graph, items: seq<Item>, max: nat)
    requires FollowAll(w, direction, g, items, max).Some?
    ensures Extends(g, FollowAll(w, direction, g, items, max).value)
    decreases |items|
  {
    if items != [] {
      var calls := CallsOf(w, direction, items[0]).value;
      FollowExtends(w, direction, g, w.key(items[0]), calls, max);
      FollowAllExtends(w, direction, Follow(w, direction, g, w.key(items[0]), calls, max), items[1..], max);
    }
  }

  /** A level covers every node it expands, even when some calls have marked it. */
  lemma {:induction false} FollowAllCovers(w: World, direction: Direction, g: Graph, nodes: seq<Node>, max: nat)
    requires OwnIds(w, nodes) && FollowAll(w, direction, g, Items(nodes), max).Some?
    ensures Covers(w, direction, FollowAll(w, direction, g, Items(nodes), max).value, nodes, max)
    decreases |nodes|
  {
    if nodes != [] {
      var calls := CallsOf(w, direction, nodes[0].item).value;
      var g' := Follow(w, direction, g, nodes[0].id, calls, max);
      assert Items(nodes)[1..] == Items(nodes[1..]);
      var r := FollowAll(w, direction, g', Items(nodes[1..]), max).value;
      FollowLists(w, direction, g, nodes[0].id, calls, max);
      FollowAllExtends(w, direction, g', Items(nodes[1..]), max);
      ListsMore(w, direction, g', r, nodes[0].id, calls, max);
      FollowAllCovers(w, direction, g', nodes[1..], max);
      CoversFirst(w, direction, r, nodes, max);
    }
  }

  lemma CoversFirst(w: World, direction: Direction, g: Graph, nodes: seq<Node>, max: nat)
    requires nodes != [] && Covers(w, direction, g, nodes[1..], max)
    requires CallsOf(w, direction, nodes[0].item).Some?
    requires Lists(w, direction, g, nodes[0].id, CallsOf(w, direction, nodes[0].item).value, max)
    ensures Covers(w, direction, g, nodes, max)
  {
    assert forall i :: 0 < i < |nodes| ==> nodes[i] == nodes[1..][i - 1];
  }

  lemma CoversTogether(w: World, direction: Direction, g: Graph, first: seq<Node>, second: seq<Node>, max: nat)
    requires Covers(w, direction, g, first, max) && Covers(w, direction, g, second, max)
    ensures Covers(w, direction, g, first + second, max)
  {
  }

  // ----- over the levels of a search -----

  /** The nodes that have been expanded. */
  function Done(layers: Layers): seq<Node>
    requires layers.expanded <= |layers.nodes|
  {
    layers.nodes[..layers.expanded]
  }

  lemma LevelCovers(w: World, direction: Direction, layers: Layers, g: Graph, next: Graph, max: nat)
    requires layers.expanded <= |layers.nodes| && layers.nodes == g.nodes && OwnIds(w, g.nodes)
    requires Covers(w, direction, g, Done(layers), max)
    requires FollowAll(w, direction, g, Items(g.nodes[layers.expanded..]), max) == Some(next)
    ensures Covers(w, direction, next, g.nodes, max)
  {
    var frontier := g.nodes[layers.expanded..];
    assert OwnIds(w, frontier);
    FollowAllCovers(w, direction, g, frontier, max);
    FollowAllExtends(w, direction, g, Items(frontier), max);
    CoversMore(w, direction, g, next, Done(layers), max);
    CoversTogether(w, direction, next, Done(layers), frontier, max);
    assert g.nodes == Done(layers) + frontier;
  }

  lemma DoneNext(w: World, direction: Direction, layers: Layers)
    requires layers.expanded <= |layers.nodes|
    ensures Done(Expand(w, direction, layers)) == layers.nodes
  {
    var more := Expand(w, direction, layers);
    assert layers.nodes <= more.nodes;
  }

  /** The search has expanded these layers, and then stopped for a reason. */
  ghost predicate StoppedAt(w: World, direction: Direction, reached: Layers, k: nat, levels: nat, max: nat, r: Graph) {
    && k <= levels && reached.expanded <= |reached.nodes|
    && Covers(w, direction, r, Done(reached), max)
    && (k == levels || reached.expanded == |reached.nodes| || (k > 0 && r.truncated))
  }

  /** Every level that was expanded is covered. */
  lemma {:induction false} LevelsCover(w: World, direction: Direction, layers: Layers, g: Graph, levels: nat, max: nat,
                                       all: Layers, r: Graph) returns (k: nat)
    requires SearchGives(w, direction, layers, g, levels, max, all, r) && !g.truncated
    requires Covers(w, direction, g, Done(layers), max)
    ensures StoppedAt(w, direction, ExpandTimes(w, direction, layers, k), k, levels, max, r)
    decreases levels
  {
    if levels == 0 || layers.expanded == |g.nodes| {
      NothingToFollow(w, direction, layers, g, levels, max, all, r);
      k := 0;
    } else if LevelMarks(w, direction, layers, g, max) {
      k := MarkedLevelCovers(w, direction, layers, g, levels, max, all, r);
    } else {
      var next := FirstCovers(w, direction, layers, g, levels, max, all, r);
      k := LevelsCover(w, direction, Expand(w, direction, layers), next, levels - 1, max, all, r);
      OneLevelMore(w, direction, layers, k, levels, max, r);
      k := k + 1;
    }
  }

  lemma FirstCovers(w: World, direction: Direction, layers: Layers, g: Graph, levels: nat, max: nat,
                    all: Layers, r: Graph) returns (next: Graph)
    requires SearchGives(w, direction, layers, g, levels, max, all, r)
    requires levels > 0 && layers.expanded < |g.nodes| && !g.truncated && !LevelMarks(w, direction, layers, g, max)
    requires Covers(w, direction, g, Done(layers), max)
    ensures SearchGives(w, direction, Expand(w, direction, layers), next, levels - 1, max, all, r) && !next.truncated
    ensures Covers(w, direction, next, Done(Expand(w, direction, layers)), max)
  {
    next := FirstLevelFollows(w, direction, layers, g, levels, max, all, r);
    CoversNext(w, direction, layers, g, next, levels, max, all, r);
  }

  lemma OneLevelMore(w: World, direction: Direction, layers: Layers, k: nat, levels: nat, max: nat, r: Graph)
    requires layers.expanded <= |layers.nodes| && levels > 0
    requires StoppedAt(w, direction, ExpandTimes(w, direction, Expand(w, direction, layers), k), k, levels - 1, max, r)
    ensures StoppedAt(w, direction, ExpandTimes(w, direction, layers, k + 1), k + 1, levels, max, r)
  {
    assert ExpandTimes(w, direction, layers, k + 1) == ExpandTimes(w, direction, Expand(w, direction, layers), k);
  }

  lemma CoversNext(w: World, direction: Direction, layers: Layers, g: Graph, next: Graph, levels: nat, max: nat,
                   all: Layers, r: Graph)
    requires SearchGives(w, direction, layers, g, levels, max, all, r) && levels > 0
    requires Covers(w, direction, g, Done(layers), max)
    requires FollowAll(w, direction, g, Items(g.nodes[layers.expanded..]), max) == Some(next)
    ensures Covers(w, direction, next, Done(Expand(w, direction, layers)), max)
  {
    LevelCovers(w, direction, layers, g, next, max);
    DoneNext(w, direction, layers);
  }

  lemma MarkedLevelCovers(w: World, direction: Direction, layers: Layers, g: Graph, levels: nat, max: nat,
                          all: Layers, r: Graph) returns (k: nat)
    requires SearchGives(w, direction, layers, g, levels, max, all, r) && !g.truncated
    requires levels > 0 && layers.expanded < |g.nodes| && LevelMarks(w, direction, layers, g, max)
    requires Covers(w, direction, g, Done(layers), max)
    ensures StoppedAt(w, direction, ExpandTimes(w, direction, layers, k), k, levels, max, r)
  {
    k := 1;
    var next := FollowAll(w, direction, g, Items(g.nodes[layers.expanded..]), max).value;
    FollowLevelsMarks(w, direction, next, |g.nodes|, levels - 1, max);
    CoversNext(w, direction, layers, g, next, levels, max, all, r);
    assert ExpandTimes(w, direction, layers, 1) == ExpandTimes(w, direction, Expand(w, direction, layers), 0);
  }

  /**
   What a marked report still contains, before it is trimmed. Unless the roots have marked it, the
   search has gone down some number of levels: to the depth asked for, until nothing was left, or
   to the level whose mark stopped it. Of every item expanded on the way, each call that leads
   where the caller may look is listed with its end, unless the budget is used up.
   */
  lemma OnlyBudgetLimits(w: World, direction: Direction, levels: nat, max: nat) returns (k: nat)
    requires w.prepared.Some? && Searched(w, direction, levels, max).Some? && !Listed(w, max).truncated
    ensures StoppedAt(w, direction, Explored(w, direction, AllowedItems(w, w.prepared.value), k), k, levels, max,
                      Searched(w, direction, levels, max).value)
  {
    var roots, listed := AllowedItems(w, w.prepared.value), Listed(w, max);
    var start := Explored(w, direction, roots, 0);
    RootsAreReported(w, direction, roots, roots != w.prepared.value, max);
    ExploredIsFaithful(w, direction, roots, 0);
    k := LevelsCover(w, direction, start, listed, levels, max, ExpandTimes(w, direction, start, levels),
                     Searched(w, direction, levels, max).value);
    ExpandFrom(w, direction, roots, start, k);
  }

  /** In particular, the calls of every root are there as soon as the search goes down at all. */
  lemma FirstLevelIsCovered(w: World, direction: Direction, levels: nat, max: nat)
    requires w.prepared.Some? && levels > 0
    requires Searched(w, direction, levels, max).Some? && !Listed(w, max).truncated
    ensures Covers(w, direction, Searched(w, direction, levels, max).value, Listed(w, max).nodes, max)
  {
    var roots := AllowedItems(w, w.prepared.value);
    var k := OnlyBudgetLimits(w, direction, levels, max);
    RootsAreReported(w, direction, roots, roots != w.prepared.value, max);
    RootsAreExpanded(w, direction, roots, k);
  }

  lemma {:induction false} RootsAreExpanded(w: World, direction: Direction, roots: seq<Item>, k: nat)
    ensures k > 0 ==> AddNodes(w, [], roots) <= Done(Explored(w, direction, roots, k))
  {
    if k > 1 {
      RootsAreExpanded(w, direction, roots, k - 1);
      DoneNext(w, direction, Explored(w, direction, roots, k - 1));
    } else if k == 1 {
      DoneNext(w, direction, Explored(w, direction, roots, 0));
    }
  }

  // ----- which calls a request asks for -----

  /** Whoever it is that calls an item is among its incoming calls, under `from`. */
  ghost predicate Calls(w: World, caller: Item, callee: Item) {
    var calls := w.incoming(callee);
    calls.Some? && exists i :: 0 <= i < |calls.value| && calls.value[i].from == Some(caller)
  }

  /** And whatever it calls among its outgoing calls, under `to`. */
  ghost predicate CallsOut(w: World, caller: Item, callee: Item) {
    var calls := w.outgoing(caller);
    calls.Some? && exists i :: 0 <= i < |calls.value| && calls.value[i].to == Some(callee)
  }

  lemma {:induction false} TargetsAreEndpoints(direction: Direction, calls: seq<Call>, item: Item)
    ensures item in Targets(direction, calls) <==>
      exists i :: 0 <= i < |calls| && Endpoint(direction, calls[i]) == Some(item)
    decreases |calls|
  {
    if calls != [] {
      var n := |calls| - 1;
      TargetsAreEndpoints(direction, calls[..n], item);
      assert forall i :: 0 <= i < n ==> calls[..n][i] == calls[i];
      assert item in Targets(direction, calls) <==>
        item in Targets(direction, calls[..n]) || Endpoint(direction, calls[n]) == Some(item);
    }
  }

  /**
   A request for incoming calls leads from an item to those that call it; any other request, from an
   item to those it calls.
   */
  lemma DirectionsAreRight(w: World, direction: string, from: Item, to: Item)
    ensures to in TargetsOf(w, DirectionOf(direction), from) <==>
      if direction == "incoming" then Calls(w, to, from) else CallsOut(w, from, to)
  {
    var calls := CallsOf(w, DirectionOf(direction), from);
    if calls.Some? {
      TargetsAreEndpoints(DirectionOf(direction), calls.value, to);
      if i :| 0 <= i < |calls.value| && Endpoint(DirectionOf(direction), calls.value[i]) == Some(to) {
        assert direction == "incoming" ==> Calls(w, to, from);
        assert direction != "incoming" ==> CallsOut(w, from, to);
      }
    }
  }

  /** Asking to prepare, or for no depth, asks for no calls; otherwise for those within the depth. */
  lemma DepthsAreRight(w: World, direction: string, depth: nat, max: nat)
    requires w.prepared.Some?
    ensures IsDirection(direction) <==> direction == "" || direction == "prepare" || Levels(direction, 1) == 1
    ensures Levels(direction, depth) == 0 <==> depth == 0 || direction !in {"incoming", "outgoing"}
    ensures direction in {"incoming", "outgoing"} ==> Levels(direction, depth) == depth
    ensures Levels(direction, depth) == 0 ==> Searched(w, DirectionOf(direction), 0, max) == Some(Listed(w, max))
  {
  }

  // ----- which items a caller may see -----

  lemma AllowedOneMore(w: World, items: seq<Item>, item: Item)
    ensures AllowedItems(w, items + [item]) == AllowedItems(w, items) + if w.allowed(item.uri) then [item] else []
  {
    assert (items + [item])[..|items|] == items;
  }

  /** Filtering keeps exactly the items that may be seen, in their order, as often as they occur. */
  lemma {:induction false} AllowedTogether(w: World, first: seq<Item>, second: seq<Item>)
    ensures AllowedItems(w, first + second) == AllowedItems(w, first) + AllowedItems(w, second)
    ensures |second| == 1 ==> AllowedItems(w, second) == if w.allowed(second[0].uri) then second else []
    decreases |second|
  {
    if second == [] {
      assert first + second == first;
    } else {
      var n := |second| - 1;
      assert first + second == (first + second[..n]) + [second[n]] && second == second[..n] + [second[n]];
      AllowedTogether(w, first, second[..n]);
      AllowedOneMore(w, first + second[..n], second[n]);
      AllowedOneMore(w, second[..n], second[n]);
    }
  }

  // ----- how much a candidate keeps -----

  /** The candidates drop one edge after the other, and then one node after the other, from the end. */
  lemma CandidatesKeepTheMost(g: Graph, k: nat)
    requires k < CandidateCount(g)
    ensures var c := Candidate(g, k);
      && |c.edges| == (if k <= |g.edges| then |g.edges| - k else 0)
      && |c.nodes| == (if k <= |g.edges| then |g.nodes|
                       else if k <= |g.edges| + |g.nodes| then |g.edges| + |g.nodes| - k
                       else 0)
      && (k > 0 ==> c.truncated) && (k == 0 ==> c == g)
  {
  }
}
