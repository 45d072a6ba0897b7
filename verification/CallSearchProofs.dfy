/** The budgeted search reports nothing false, keeps its budget, and when unmarked misses nothing. */
module CallSearchProofs {
  import opened Collections
  import opened CallGraphModel
  import opened CallGraphProofs

  /** A report that may grow: well formed, sound to k calls, and within the budget. */
  ghost predicate Reporting(w: World, direction: Direction, roots: seq<Item>, k: nat, g: Graph, max: nat) {
    && WellFormed(w, g)
    && Sound(w, direction, roots, k, g)
    && |g.nodes| + |g.edges| <= max
  }

  lemma MarkReports(w: World, direction: Direction, roots: seq<Item>, k: nat, g: Graph, max: nat)
    requires Reporting(w, direction, roots, k, g, max)
    ensures Reporting(w, direction, roots, k, g.(truncated := true), max)
  {
  }

  lemma DeeperReports(w: World, direction: Direction, roots: seq<Item>, k: nat, more: nat, g: Graph, max: nat)
    requires Reporting(w, direction, roots, k, g, max) && k <= more
    ensures Reporting(w, direction, roots, more, g, max)
  {
    forall i | 0 <= i < |g.nodes| ensures Reaches(w, direction, roots, more, g.nodes[i].item) {
      ReachesMonotone(w, direction, roots, k, more, g.nodes[i].item);
    }
  }

  /** The query for some item within k calls of a root fails. */
  ghost predicate QueryFails(w: World, direction: Direction, roots: seq<Item>, k: nat) {
    exists item :: Reaches(w, direction, roots, k, item) && CallsOf(w, direction, item).None?
  }

  lemma DeeperFails(w: World, direction: Direction, roots: seq<Item>, k: nat, more: nat)
    requires QueryFails(w, direction, roots, k) && k <= more
    ensures QueryFails(w, direction, roots, more)
  {
    var item :| Reaches(w, direction, roots, k, item) && CallsOf(w, direction, item).None?;
    ReachesMonotone(w, direction, roots, k, more, item);
  }

  // ----- soundness -----

  lemma EdgeStaysCall(w: World, direction: Direction, nodes: seq<Node>, more: seq<Node>, edge: Edge)
    requires nodes <= more && EdgeIsCall(w, direction, nodes, edge)
    ensures EdgeIsCall(w, direction, more, edge)
  {
    var i, target :|
      0 <= i < |nodes| && edge.from == nodes[i].id && target in TargetsOf(w, direction, nodes[i].item)
        && edge.to == w.key(target);
    assert more[i] == nodes[i];
  }

  lemma NodesGrow(w: World, direction: Direction, roots: seq<Item>, k: nat, g: Graph, item: Item)
    requires WellFormed(w, g) && Sound(w, direction, roots, k, g) && Reaches(w, direction, roots, k, item)
    ensures var g' := g.(nodes := AddNode(w, g.nodes, item));
      && WellFormed(w, g') && Sound(w, direction, roots, k, g')
      && IdSet(g'.nodes) == IdSet(g.nodes) + {w.key(item)}
  {
    var g' := g.(nodes := AddNode(w, g.nodes, item));
    IdSetGrows(g.nodes, Node(w.key(item), item));
    forall i | 0 <= i < |g.edges| ensures EdgeIsCall(w, direction, g'.nodes, g'.edges[i]) {
      EdgeStaysCall(w, direction, g.nodes, g'.nodes, g.edges[i]);
    }
  }

  lemma EdgesGrow(w: World, direction: Direction, roots: seq<Item>, k: nat, g: Graph, i: nat, item: Item)
    requires WellFormed(w, g) && Sound(w, direction, roots, k, g)
    requires i < |g.nodes| && item in TargetsOf(w, direction, g.nodes[i].item) && w.key(item) in IdSet(g.nodes)
    ensures var g' := g.(edges := g.edges + [Edge(g.nodes[i].id, w.key(item))]);
      WellFormed(w, g') && Sound(w, direction, roots, k, g')
  {
    var edge := Edge(g.nodes[i].id, w.key(item));
    assert EdgeIsCall(w, direction, g.nodes, edge);
    var g' := g.(edges := g.edges + [edge]);
    assert forall j :: 0 <= j < |g'.edges| ==> g'.edges[j] == edge || g'.edges[j] == g.edges[j];
  }

  lemma CallsGrow(w: World, direction: Direction, roots: seq<Item>, k: nat, g: Graph, at: nat, to: Item, max: nat)
    requires Reporting(w, direction, roots, k, g, max) && HasRoom(w, g, to, max)
    requires Reaches(w, direction, roots, k, to)
    requires at < |g.nodes| && to in TargetsOf(w, direction, g.nodes[at].item)
    ensures Reporting(w, direction, roots, k, WithCall(w, g, g.nodes[at].id, to), max)
  {
    CallIsSound(w, direction, roots, k, g, at, to);
  }

  lemma CallIsSound(w: World, direction: Direction, roots: seq<Item>, k: nat, g: Graph, at: nat, to: Item)
    requires WellFormed(w, g) && Sound(w, direction, roots, k, g) && Reaches(w, direction, roots, k, to)
    requires at < |g.nodes| && to in TargetsOf(w, direction, g.nodes[at].item)
    ensures var g' := WithCall(w, g, g.nodes[at].id, to); WellFormed(w, g') && Sound(w, direction, roots, k, g')
  {
    NodesGrow(w, direction, roots, k, g, to);
    EdgesGrow(w, direction, roots, k, g.(nodes := AddNode(w, g.nodes, to)), at, to);
  }

  lemma TargetIsReached(w: World, direction: Direction, roots: seq<Item>, k: nat, from: Item, to: Item)
    requires Reaches(w, direction, roots, k, from) && to in TargetsOf(w, direction, from)
    ensures Reaches(w, direction, roots, k + 1, to)
  {
  }

  lemma {:induction false} TargetsHave(direction: Direction, calls: seq<Call>, i: nat)
    requires i < |calls| && Endpoint(direction, calls[i]).Some?
    ensures Endpoint(direction, calls[i]).value in Targets(direction, calls)
    decreases |calls|
  {
    var n := |calls| - 1;
    if i < n { TargetsHave(direction, calls[..n], i); }
  }

  lemma CallsHaveTargets(w: World, direction: Direction, item: Item)
    requires CallsOf(w, direction, item).Some?
    ensures var calls := CallsOf(w, direction, item).value;
      forall i :: 0 <= i < |calls| && Endpoint(direction, calls[i]).Some? ==>
        Endpoint(direction, calls[i]).value in TargetsOf(w, direction, item)
  {
    var calls := CallsOf(w, direction, item).value;
    forall i | 0 <= i < |calls| && Endpoint(direction, calls[i]).Some?
      ensures Endpoint(direction, calls[i]).value in TargetsOf(w, direction, item)
    {
      TargetsHave(direction, calls, i);
    }
  }

  lemma {:induction false} FollowReports(w: World, direction: Direction, roots: seq<Item>, k: nat, g: Graph, at: nat,
                                         calls: seq<Call>, max: nat)
    requires Reporting(w, direction, roots, k + 1, g, max)
    requires at < |g.nodes| && Reaches(w, direction, roots, k, g.nodes[at].item)
    requires forall i :: 0 <= i < |calls| && Endpoint(direction, calls[i]).Some? ==>
      Endpoint(direction, calls[i]).value in TargetsOf(w, direction, g.nodes[at].item)
    ensures Reporting(w, direction, roots, k + 1, Follow(w, direction, g, g.nodes[at].id, calls, max), max)
    decreases |calls|
  {
    if calls != [] {
      var marked := g.(truncated := true);
      MarkReports(w, direction, roots, k + 1, g, max);
      if !Usable(w, direction, calls[0]) {
        FollowReports(w, direction, roots, k, marked, at, calls[1..], max);
      } else {
        var to := Endpoint(direction, calls[0]).value;
        if HasRoom(w, g, to, max) {
          TargetIsReached(w, direction, roots, k, g.nodes[at].item, to);
          CallsGrow(w, direction, roots, k + 1, g, at, to, max);
          assert WithCall(w, g, g.nodes[at].id, to).nodes[at] == g.nodes[at];
          FollowReports(w, direction, roots, k, WithCall(w, g, g.nodes[at].id, to), at, calls[1..], max);
        }
      }
    }
  }

  lemma {:induction false} FollowAllReports(w: World, direction: Direction, roots: seq<Item>, k: nat, g: Graph,
                                            start: nat, end: nat, max: nat)
    requires Reporting(w, direction, roots, k + 1, g, max) && start <= end <= |g.nodes|
    requires forall i :: start <= i < end ==> Reaches(w, direction, roots, k, g.nodes[i].item)
    ensures var r := FollowAll(w, direction, g, Items(g.nodes[start..end]), max);
      if r.Some? then Reporting(w, direction, roots, k + 1, r.value, max)
      else QueryFails(w, direction, roots, k)
    decreases end - start
  {
    var items := Items(g.nodes[start..end]);
    if start < end {
      var calls := CallsOf(w, direction, items[0]);
      if calls.Some? {
        CallsHaveTargets(w, direction, items[0]);
        FollowReports(w, direction, roots, k, g, start, calls.value, max);
        var g' := Follow(w, direction, g, w.key(items[0]), calls.value, max);
        assert Items(g'.nodes[start + 1..end]) == items[1..];
        FollowAllReports(w, direction, roots, k, g', start + 1, end, max);
      }
    }
  }

  lemma LevelReports(w: World, direction: Direction, roots: seq<Item>, k: nat, g: Graph, start: nat, max: nat)
    requires Reporting(w, direction, roots, k, g, max) && start <= |g.nodes|
    ensures var r := FollowAll(w, direction, g, Items(g.nodes[start..]), max);
      if r.Some? then Reporting(w, direction, roots, k + 1, r.value, max)
      else QueryFails(w, direction, roots, k)
  {
    DeeperReports(w, direction, roots, k, k + 1, g, max);
    FollowAllReports(w, direction, roots, k, g, start, |g.nodes|, max);
    assert g.nodes[start..|g.nodes|] == g.nodes[start..];
  }

  lemma {:induction false} FollowLevelsReports(w: World, direction: Direction, roots: seq<Item>, k: nat, g: Graph,
                                               start: nat, levels: nat, max: nat)
    requires Reporting(w, direction, roots, k, g, max) && start <= |g.nodes|
    ensures var r := FollowLevels(w, direction, g, start, levels, max);
      if r.Some? then Reporting(w, direction, roots, k + levels, r.value, max)
      else QueryFails(w, direction, roots, k + levels)
    decreases levels
  {
    if levels == 0 || start == |g.nodes| || g.truncated {
      DeeperReports(w, direction, roots, k, k + levels, g, max);
    } else {
      LevelReports(w, direction, roots, k, g, start, max);
      var next := FollowAll(w, direction, g, Items(g.nodes[start..]), max);
      if next.Some? {
        FollowLevelsReports(w, direction, roots, k + 1, next.value, |g.nodes|, levels - 1, max);
      } else {
        DeeperFails(w, direction, roots, k, k + levels);
      }
    }
  }

  lemma {:induction false} RootsReport(w: World, direction: Direction, roots: seq<Item>, g: Graph, items: seq<Item>,
                                       max: nat)
    requires Reporting(w, direction, roots, 0, g, max) && g.edges == [] && g.roots == IdsOf(g.nodes)
    requires forall item :: item in items ==> item in roots
    ensures var r := ListRoots(w, g, items, max);
      Reporting(w, direction, roots, 0, r, max) && r.edges == [] && r.roots == IdsOf(r.nodes)
    decreases |items|
  {
    if items != [] && |g.nodes| < max {
      NodesGrow(w, direction, roots, 0, g, items[0]);
      var nodes := AddNode(w, g.nodes, items[0]);
      var g' := g.(nodes := nodes, roots := if nodes == g.nodes then g.roots else g.roots + [w.key(items[0])]);
      assert g'.roots == IdsOf(nodes);
      RootsReport(w, direction, roots, g', items[1..], max);
    }
  }

  // ----- completeness -----

  /** The report with all these calls of the item listed under a key. */
  function WithCalls(w: World, g: Graph, from: string, targets: seq<Item>): Graph {
    g.(nodes := AddNodes(w, g.nodes, targets), edges := g.edges + EdgesTo(w, from, targets))
  }

  lemma AddNodesOne(w: World, nodes: seq<Node>, item: Item)
    ensures AddNodes(w, nodes, [item]) == AddNode(w, nodes, item)
  {
    assert [item][..0] == [];
  }

  lemma {:induction false} TargetsAppend(direction: Direction, first: seq<Call>, second: seq<Call>)
    ensures Targets(direction, first + second) == Targets(direction, first) + Targets(direction, second)
    decreases |second|
  {
    if second == [] {
      assert first + second == first;
    } else {
      var n := |second| - 1;
      assert (first + second)[..|first| + n] == first + second[..n];
      TargetsAppend(direction, first, second[..n]);
    }
  }

  lemma WithFirstTarget(w: World, g: Graph, from: string, to: Item, rest: seq<Item>)
    ensures WithCalls(w, g, from, [to] + rest) == WithCalls(w, WithCall(w, g, from, to), from, rest)
  {
    AddNodesTwice(w, g.nodes, [to], rest);
    AddNodesOne(w, g.nodes, to);
    var first, edges := [Edge(from, w.key(to))], EdgesTo(w, from, rest);
    assert EdgesTo(w, from, [to] + rest) == first + edges;
    assert g.edges + (first + edges) == g.edges + first + edges;
  }

  lemma WithFirstCall(w: World, g: Graph, from: string, direction: Direction, calls: seq<Call>)
    requires calls != [] && Endpoint(direction, calls[0]).Some?
    ensures var to := Endpoint(direction, calls[0]).value;
      WithCalls(w, g, from, Targets(direction, calls))
        == WithCalls(w, WithCall(w, g, from, to), from, Targets(direction, calls[1..]))
  {
    var to := Endpoint(direction, calls[0]).value;
    var rest := Targets(direction, calls[1..]);
    assert calls == [calls[0]] + calls[1..];
    assert [calls[0]][..0] == [];
    TargetsAppend(direction, [calls[0]], calls[1..]);
    assert Targets(direction, calls) == [to] + rest;
    WithFirstTarget(w, g, from, to, rest);
  }

  /** If following does not mark the report, no call was left out. */
  lemma {:induction false} FollowMissesNothing(w: World, direction: Direction, g: Graph, from: string, calls: seq<Call>,
                                               max: nat)
    requires !Follow(w, direction, g, from, calls, max).truncated
    ensures !g.truncated && forall i :: 0 <= i < |calls| ==> Usable(w, direction, calls[i])
    ensures Follow(w, direction, g, from, calls, max) == WithCalls(w, g, from, Targets(direction, calls))
    decreases |calls|
  {
    if calls != [] {
      if !Usable(w, direction, calls[0]) {
        FollowMissesNothing(w, direction, g.(truncated := true), from, calls[1..], max);
      } else {
        var to := Endpoint(direction, calls[0]).value;
        FollowMissesNothing(w, direction, WithCall(w, g, from, to), from, calls[1..], max);
        WithFirstCall(w, g, from, direction, calls);
      }
    }
  }

  /** The report with all the calls of these nodes. */
  function WithAllCalls(w: World, direction: Direction, g: Graph, nodes: seq<Node>): Graph {
    g.(nodes := AddNodes(w, g.nodes, AllTargets(w, direction, nodes)), edges := g.edges + AllEdges(w, direction, nodes))
  }

  lemma FirstNodeFirst(w: World, direction: Direction, nodes: seq<Node>)
    requires nodes != []
    ensures var targets := TargetsOf(w, direction, nodes[0].item);
      && AllTargets(w, direction, nodes) == targets + AllTargets(w, direction, nodes[1..])
      && AllEdges(w, direction, nodes) == EdgesTo(w, nodes[0].id, targets) + AllEdges(w, direction, nodes[1..])
  {
  }

  lemma WithFirstNode(w: World, direction: Direction, g: Graph, nodes: seq<Node>)
    requires nodes != []
    ensures WithAllCalls(w, direction, g, nodes)
         == WithAllCalls(w, direction, WithCalls(w, g, nodes[0].id, TargetsOf(w, direction, nodes[0].item)), nodes[1..])
  {
    var targets, rest := TargetsOf(w, direction, nodes[0].item), nodes[1..];
    FirstNodeFirst(w, direction, nodes);
    AddNodesTwice(w, g.nodes, targets, AllTargets(w, direction, rest));
    var first, edges := EdgesTo(w, nodes[0].id, targets), AllEdges(w, direction, rest);
    assert g.edges + (first + edges) == g.edges + first + edges;
  }

  ghost predicate AllClean(w: World, direction: Direction, nodes: seq<Node>) {
    forall i :: 0 <= i < |nodes| ==> Clean(w, direction, nodes[i].item)
  }

  lemma {:induction false} FollowAllMissesNothing(w: World, direction: Direction, g: Graph, nodes: seq<Node>, max: nat)
    requires OwnIds(w, nodes)
    requires var r := FollowAll(w, direction, g, Items(nodes), max); r.Some? && !r.value.truncated
    ensures !g.truncated && AllClean(w, direction, nodes)
    ensures FollowAll(w, direction, g, Items(nodes), max) == Some(WithAllCalls(w, direction, g, nodes))
    decreases |nodes|
  {
    if nodes != [] {
      var calls := CallsOf(w, direction, nodes[0].item).value;
      var g' := Follow(w, direction, g, nodes[0].id, calls, max);
      assert Items(nodes)[1..] == Items(nodes[1..]);
      FollowAllMissesNothing(w, direction, g', nodes[1..], max);
      FollowMissesNothing(w, direction, g, nodes[0].id, calls, max);
      WithFirstNode(w, direction, g, nodes);
      assert forall i :: 0 < i < |nodes| ==> nodes[i] == nodes[1..][i - 1];
    } else {
      assert WithAllCalls(w, direction, g, []) == g;
    }
  }

  lemma LevelIsComplete(w: World, direction: Direction, layers: Layers, g: Graph, max: nat)
    requires layers.expanded <= |layers.nodes| && layers.nodes == g.nodes && OwnIds(w, g.nodes)
    requires g.edges == AllEdges(w, direction, g.nodes[..layers.expanded])
      && AllClean(w, direction, g.nodes[..layers.expanded])
    requires var r := FollowAll(w, direction, g, Items(g.nodes[layers.expanded..]), max); r.Some? && !r.value.truncated
    ensures var g' := FollowAll(w, direction, g, Items(g.nodes[layers.expanded..]), max).value;
      var next := Expand(w, direction, layers);
      && g'.nodes == next.nodes && g'.roots == g.roots
      && g'.edges == AllEdges(w, direction, g.nodes) && AllClean(w, direction, g.nodes)
  {
    var done, frontier := g.nodes[..layers.expanded], g.nodes[layers.expanded..];
    assert g.nodes == done + frontier;
    FollowAllMissesNothing(w, direction, g, frontier, max);
    AllEdgesAppend(w, direction, done, frontier);
    CleanTogether(w, direction, done, frontier);
  }

  lemma CleanTogether(w: World, direction: Direction, first: seq<Node>, second: seq<Node>)
    requires AllClean(w, direction, first) && AllClean(w, direction, second)
    ensures AllClean(w, direction, first + second)
  {
  }

  lemma RootsMissNothing(w: World, g: Graph, items: seq<Item>, max: nat)
    requires !ListRoots(w, g, items, max).truncated
    ensures !g.truncated && ListRoots(w, g, items, max).nodes == AddNodes(w, g.nodes, items)
    decreases |items|
  {
    if items != [] {
      var nodes := AddNode(w, g.nodes, items[0]);
      var roots := if nodes == g.nodes then g.roots else g.roots + [w.key(items[0])];
      RootsMissNothing(w, g.(nodes := nodes, roots := roots), items[1..], max);
      assert items == [items[0]] + items[1..];
      AddNodesTwice(w, g.nodes, [items[0]], items[1..]);
      AddNodesOne(w, g.nodes, items[0]);
    }
  }

  function ExpandTimes(w: World, direction: Direction, layers: Layers, n: nat): (r: Layers)
    requires layers.expanded <= |layers.nodes|
    ensures r.expanded <= |r.nodes|
    decreases n
  {
    if n == 0 then layers else ExpandTimes(w, direction, Expand(w, direction, layers), n - 1)
  }

  lemma {:induction false} ExpandLast(w: World, direction: Direction, layers: Layers, n: nat)
    requires layers.expanded <= |layers.nodes| && n > 0
    ensures ExpandTimes(w, direction, layers, n) == Expand(w, direction, ExpandTimes(w, direction, layers, n - 1))
    decreases n
  {
    if n > 1 { ExpandLast(w, direction, Expand(w, direction, layers), n - 1); }
  }

  lemma {:induction false} ExpandFrom(w: World, direction: Direction, roots: seq<Item>, start: Layers, n: nat)
    requires start == Explored(w, direction, roots, 0)
    ensures ExpandTimes(w, direction, start, n) == Explored(w, direction, roots, n)
  {
    if n > 0 {
      ExpandFrom(w, direction, roots, start, n - 1);
      ExpandLast(w, direction, start, n);
      assert Explored(w, direction, roots, n) == Expand(w, direction, Explored(w, direction, roots, n - 1));
    }
  }

  lemma {:induction false} ExpandNoMore(w: World, direction: Direction, layers: Layers, n: nat)
    requires layers.expanded == |layers.nodes|
    ensures ExpandTimes(w, direction, layers, n) == layers
    decreases n
  {
    if n > 0 {
      ExpandSettled(w, direction, layers);
      ExpandNoMore(w, direction, layers, n - 1);
    }
  }

  lemma LevelMatches(w: World, direction: Direction, layers: Layers, g: Graph, next: Graph, max: nat)
    requires layers.expanded <= |layers.nodes| && OwnIds(w, layers.nodes) && Matches(w, direction, layers, g)
    requires FollowAll(w, direction, g, Items(g.nodes[layers.expanded..]), max) == Some(next) && !next.truncated
    ensures Matches(w, direction, Expand(w, direction, layers), next)
    ensures OwnIds(w, Expand(w, direction, layers).nodes)
  {
    LevelIsComplete(w, direction, layers, g, max);
    assert next.nodes[..|g.nodes|] == g.nodes;
    AddNodesKeeps(w, layers.nodes, AllTargets(w, direction, layers.nodes[layers.expanded..]));
  }

  /** A mark is never taken back. */
  lemma FollowLevelsMarks(w: World, direction: Direction, g: Graph, start: nat, levels: nat, max: nat)
    requires start <= |g.nodes|
    ensures g.truncated ==> FollowLevels(w, direction, g, start, levels, max) == Some(g)
  {
  }

  /** From a report of these layers, searching more levels with and without a budget gives `r` and `all`. */
  ghost predicate SearchGives(w: World, direction: Direction, layers: Layers, g: Graph, levels: nat, max: nat,
                              all: Layers, r: Graph)
  {
    && layers.expanded <= |layers.nodes| && OwnIds(w, layers.nodes) && Matches(w, direction, layers, g)
    && all == ExpandTimes(w, direction, layers, levels)
    && FollowLevels(w, direction, g, layers.expanded, levels, max) == Some(r)
  }

  /** Searching one level leaves a mark. */
  ghost predicate LevelMarks(w: World, direction: Direction, layers: Layers, g: Graph, max: nat) {
    && layers.expanded <= |g.nodes|
    && var next := FollowAll(w, direction, g, Items(g.nodes[layers.expanded..]), max);
       next.Some? && next.value.truncated
  }

  /** A search of several levels is a first level and, unless that marks the report, a search of the others. */
  lemma FirstLevel(w: World, direction: Direction, layers: Layers, g: Graph, levels: nat, max: nat,
                   all: Layers, r: Graph) returns (next: Graph)
    requires SearchGives(w, direction, layers, g, levels, max, all, r)
    requires levels > 0 && layers.expanded < |g.nodes| && !g.truncated && !LevelMarks(w, direction, layers, g, max)
    ensures SearchGives(w, direction, Expand(w, direction, layers), next, levels - 1, max, all, r) && !next.truncated
  {
    next := FirstLevelFollows(w, direction, layers, g, levels, max, all, r);
  }

  lemma FirstLevelFollows(w: World, direction: Direction, layers: Layers, g: Graph, levels: nat, max: nat,
                          all: Layers, r: Graph) returns (next: Graph)
    requires SearchGives(w, direction, layers, g, levels, max, all, r)
    requires levels > 0 && layers.expanded < |g.nodes| && !g.truncated && !LevelMarks(w, direction, layers, g, max)
    ensures FollowAll(w, direction, g, Items(g.nodes[layers.expanded..]), max) == Some(next) && !next.truncated
    ensures SearchGives(w, direction, Expand(w, direction, layers), next, levels - 1, max, all, r)
  {
    next := FollowAll(w, direction, g, Items(g.nodes[layers.expanded..]), max).value;
    LevelMatches(w, direction, layers, g, next, max);
  }

  lemma MarkIsKept(w: World, direction: Direction, layers: Layers, g: Graph, levels: nat, max: nat,
                   all: Layers, r: Graph)
    requires SearchGives(w, direction, layers, g, levels, max, all, r)
    requires levels > 0 && layers.expanded < |g.nodes| && LevelMarks(w, direction, layers, g, max)
    ensures r.truncated
  {
    var next := FollowAll(w, direction, g, Items(g.nodes[layers.expanded..]), max).value;
    FollowLevelsMarks(w, direction, next, |g.nodes|, levels - 1, max);
  }

  lemma NothingToFollow(w: World, direction: Direction, layers: Layers, g: Graph, levels: nat, max: nat,
                        all: Layers, r: Graph)
    requires SearchGives(w, direction, layers, g, levels, max, all, r)
    requires levels == 0 || layers.expanded == |g.nodes|
    ensures r == g && all == layers
  {
    if levels > 0 { ExpandNoMore(w, direction, layers, levels); }
  }

  /** If no level marks the report, the search to the whole depth has been done. */
  lemma {:induction false} LevelsMissNothing(w: World, direction: Direction, layers: Layers, g: Graph, levels: nat,
                                             max: nat, all: Layers, r: Graph)
    requires SearchGives(w, direction, layers, g, levels, max, all, r) && !r.truncated
    ensures !g.truncated && Matches(w, direction, all, r)
    decreases levels
  {
    FollowLevelsMarks(w, direction, g, layers.expanded, levels, max);
    if layers.expanded == |g.nodes| || levels == 0 {
      NothingToFollow(w, direction, layers, g, levels, max, all, r);
    } else if LevelMarks(w, direction, layers, g, max) {
      MarkIsKept(w, direction, layers, g, levels, max, all, r);
    } else {
      var next := FirstLevel(w, direction, layers, g, levels, max, all, r);
      LevelsMissNothing(w, direction, Expand(w, direction, layers), next, levels - 1, max, all, r);
    }
  }
}
