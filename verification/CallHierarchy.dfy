/** The search for a call hierarchy and the trimming of its report, as they run. */
module CallHierarchy {
  import opened Collections
  import opened CallGraphModel
  import opened CallGraphProofs
  import opened CallSearchProofs

  class Search {
    var roots: seq<string>
    var nodes: seq<Node>
    var edges: seq<Edge>
    var truncated: bool
    var seen: set<string>

    function View(): Graph
      reads this
    {
      Graph(roots, nodes, edges, truncated)
    }

    /** The keys seen are those of the nodes listed. */
    ghost predicate Tracks()
      reads this
    {
      seen == IdSet(nodes)
    }

    constructor (truncated: bool)
      ensures Tracks() && View() == Graph([], [], [], truncated)
    {
      roots, nodes, edges, seen := [], [], [], {};
      this.truncated := truncated;
    }

    method AddCallNode(w: World, item: Item) returns (added: bool)
      requires Tracks()
      modifies this`nodes, this`seen
      ensures Tracks() && nodes == AddNode(w, old(nodes), item)
      ensures added <==> w.key(item) !in old(seen)
      ensures nodes == old(nodes) + if added then [Node(w.key(item), item)] else []
    {
      var id := w.key(item);
      added := id !in seen;
      if added {
        IdSetGrows(nodes, Node(id, item));
        seen := seen + {id};
        nodes := nodes + [Node(id, item)];
      }
    }

    method AddRoots(w: World, items: seq<Item>, max: nat)
      requires Tracks()
      modifies this
      ensures Tracks() && View() == ListRoots(w, old(View()), items, max)
    {
      var i := 0;
      while i < |items|
        invariant 0 <= i <= |items| && Tracks()
        invariant ListRoots(w, View(), items[i..], max) == ListRoots(w, old(View()), items, max)
      {
        if |nodes| >= max {
          truncated := true;
          break;
        }
        var added := AddCallNode(w, items[i]);
        if added {
          roots := roots + [w.key(items[i])];
        }
        i := i + 1;
      }
    }

    /** Adds the calls of one item, and tells which items were new. */
    method AddCalls(w: World, direction: Direction, from: Item, calls: seq<Call>, max: nat) returns (next: seq<Item>)
      requires Tracks()
      modifies this`nodes, this`edges, this`truncated, this`seen
      ensures Tracks() && View() == Follow(w, direction, old(View()), w.key(from), calls, max)
      ensures old(nodes) <= nodes && next == Items(nodes[|old(nodes)|..])
    {
      next := [];
      var i := 0;
      while i < |calls|
        invariant 0 <= i <= |calls| && Tracks()
        invariant old(nodes) <= nodes && next == Items(nodes[|old(nodes)|..])
        invariant Follow(w, direction, View(), w.key(from), calls[i..], max)
               == Follow(w, direction, old(View()), w.key(from), calls, max)
      {
        var endpoint := Endpoint(direction, calls[i]);
        if endpoint.None? || !w.allowed(endpoint.value.uri) {
          truncated := true;
        } else {
          var to := endpoint.value;
          var toKey := w.key(to);
          var cost := 1;
          if toKey !in seen {
            cost := cost + 1;
          }
          if |nodes| + |edges| + cost > max {
            truncated := true;
            break;
          }
          var added := AddCallNode(w, to);
          edges := edges + [Edge(w.key(from), toKey)];
          if added {
            next := next + [to];
          }
        }
        i := i + 1;
      }
    }

    /** Adds the calls of every item of the frontier; the new items are the next frontier. */
    method AddLevel(w: World, direction: Direction, frontier: seq<Item>, max: nat) returns (next: seq<Item>, ok: bool)
      requires Tracks()
      modifies this`nodes, this`edges, this`truncated, this`seen
      ensures Tracks()
      ensures FollowAll(w, direction, old(View()), frontier, max) == if ok then Some(View()) else None
      ensures old(nodes) <= nodes && next == Items(nodes[|old(nodes)|..])
    {
      next, ok := [], true;
      var i := 0;
      while i < |frontier| && ok
        invariant 0 <= i <= |frontier| && Tracks()
        invariant old(nodes) <= nodes && next == Items(nodes[|old(nodes)|..])
        invariant FollowAll(w, direction, old(View()), frontier, max)
               == if ok then FollowAll(w, direction, View(), frontier[i..], max) else None
        decreases |frontier| - i, ok
      {
        var calls := if direction == Incoming then w.incoming(frontier[i]) else w.outgoing(frontier[i]);
        if calls.None? {
          ok := false;
        } else {
          var found := AddCalls(w, direction, frontier[i], calls.value, max);
          next := next + found;
          i := i + 1;
        }
      }
    }

    method AddLevels(w: World, direction: Direction, depth: nat, max: nat) returns (ok: bool)
      requires Tracks()
      modifies this`nodes, this`edges, this`truncated, this`seen
      ensures Tracks()
      ensures FollowLevels(w, direction, old(View()), 0, depth, max) == if ok then Some(View()) else None
    {
      var frontier := Items(nodes);
      ghost var start: nat := 0;
      ok := true;
      var d := 1;
      while d <= depth && |frontier| > 0 && !truncated && ok
        invariant 1 <= d <= depth + 1 && start <= |nodes| && Tracks()
        invariant ok ==> frontier == Items(nodes[start..])
        invariant FollowLevels(w, direction, old(View()), 0, depth, max)
               == if ok then FollowLevels(w, direction, View(), start, depth + 1 - d, max) else None
        decreases depth + 1 - d, ok
      {
        ghost var found := |nodes|;
        frontier, ok := AddLevel(w, direction, frontier, max);
        start := found;
        d := d + 1;
      }
    }
  }

  // ----- trimming -----

  method RemoveCallId(ids: seq<string>, id: string) returns (out: seq<string>)
    ensures out == Without(ids, id)
  {
    out := [];
    for i := 0 to |ids|
      invariant out == Without(ids[..i], id)
    {
      assert ids[..i + 1][..i] == ids[..i];
      if ids[i] != id {
        out := out + [ids[i]];
      }
    }
    assert ids[..|ids|] == ids;
  }

  function CandidateCount(g: Graph): nat {
    |g.edges| + |g.nodes| + 2
  }

  predicate Fits(g: Graph, limit: int, size: Graph -> nat, k: nat)
    requires k < CandidateCount(g)
  {
    size(Candidate(g, k)) <= limit
  }

  /** The k-th candidate is the first that fits. */
  predicate FirstFit(g: Graph, limit: int, size: Graph -> nat, k: nat) {
    k < CandidateCount(g) && Fits(g, limit, size, k) && NoneFits(g, limit, size, k)
  }

  predicate NoneFits(g: Graph, limit: int, size: Graph -> nat, n: nat)
    requires n <= CandidateCount(g)
  {
    forall k :: 0 <= k < n ==> !Fits(g, limit, size, k)
  }

  /** The first candidate that fits; an error if even the empty report does not. */
  method Trim(g: Graph, limit: int, size: Graph -> nat) returns (r: Graph, ok: bool)
    ensures ok ==> exists k :: FirstFit(g, limit, size, k) && r == Candidate(g, k)
    ensures !ok ==> NoneFits(g, limit, size, CandidateCount(g))
  {
    r := g;
    ok := size(r) <= limit;
    ghost var k := 0;
    assert r == Candidate(g, k);
    if !ok {
      r := r.(truncated := true);
      while |r.edges| > 0 && !ok
        invariant 0 <= k <= |g.edges| && r == g.(edges := g.edges[..|g.edges| - k], truncated := true)
        invariant ok ==> k > 0
        invariant ok == Fits(g, limit, size, k)
        invariant NoneFits(g, limit, size, k)
        decreases |r.edges|, ok
      {
        r := r.(edges := r.edges[..|r.edges| - 1]);
        k := k + 1;
        ok := size(r) <= limit;
      }
      if !ok {
        r, ok, k := TrimNodes(g, r, limit, size);
      } else {
        assert r == Candidate(g, k);
      }
    }
  }

  /** Drops nodes from the end, with the roots they were, when all edges are gone. */
  method TrimNodes(g: Graph, start: Graph, limit: int, size: Graph -> nat) returns (r: Graph, ok: bool, ghost k: nat)
    requires start == g.(edges := [], truncated := true)
    requires NoneFits(g, limit, size, |g.edges| + 1)
    ensures ok ==> FirstFit(g, limit, size, k) && r == Candidate(g, k)
    ensures !ok ==> NoneFits(g, limit, size, CandidateCount(g))
  {
    r, ok := start, false;
    ghost var dropped := 0;
    NoneDropped(g);
    while |r.nodes| > 0 && !ok
      invariant 0 <= dropped <= |g.nodes| && r == Shrunk(g, dropped)
      invariant if ok
        then dropped > 0 && FirstFit(g, limit, size, |g.edges| + dropped) && r == Candidate(g, |g.edges| + dropped)
        else NoneFits(g, limit, size, |g.edges| + dropped + 1)
      decreases |r.nodes|, ok
    {
      r := DropNode(r);
      ok := size(r) <= limit;
      OneMoreDropped(g, limit, size, dropped, r);
      dropped := dropped + 1;
    }
    k := |g.edges| + dropped;
    if !ok {
      ok := size(r) <= limit;
      AllDropped(g, limit, size, r);
      k := k + 1;
    }
  }

  /** Takes the last node away, and the root it may be. */
  method DropNode(g: Graph) returns (r: Graph)
    requires g.nodes != []
    ensures r == WithoutLast(g)
  {
    var last := |g.nodes| - 1;
    var roots := RemoveCallId(g.roots, g.nodes[last].id);
    r := g.(nodes := g.nodes[..last], roots := roots);
  }

  function WithoutLast(g: Graph): Graph
    requires g.nodes != []
  {
    var last := |g.nodes| - 1;
    g.(nodes := g.nodes[..last], roots := Without(g.roots, g.nodes[last].id))
  }

  lemma NoneDropped(g: Graph)
    ensures Shrunk(g, 0) == g.(edges := [], truncated := true)
  {
  }

  /** One node less is the next candidate. */
  lemma OneMoreDropped(g: Graph, limit: int, size: Graph -> nat, dropped: nat, r: Graph)
    requires dropped < |g.nodes| && NoneFits(g, limit, size, |g.edges| + dropped + 1)
    requires r == WithoutLast(Shrunk(g, dropped))
    ensures r == Shrunk(g, dropped + 1)
    ensures var k := |g.edges| + dropped + 1;
      if size(r) <= limit then FirstFit(g, limit, size, k) && r == Candidate(g, k) else NoneFits(g, limit, size, k + 1)
  {
    ShrunkNext(g, dropped);
    OneMoreTried(g, limit, size, |g.edges| + dropped + 1);
  }

  /** A candidate after others that do not fit is the first that fits, or none fits so far. */
  lemma OneMoreTried(g: Graph, limit: int, size: Graph -> nat, k: nat)
    requires k < CandidateCount(g) && NoneFits(g, limit, size, k)
    ensures if size(Candidate(g, k)) <= limit then FirstFit(g, limit, size, k) else NoneFits(g, limit, size, k + 1)
  {
  }

  /** Without nodes there is the empty candidate. */
  lemma AllDropped(g: Graph, limit: int, size: Graph -> nat, r: Graph)
    requires r == Shrunk(g, |g.nodes|) && NoneFits(g, limit, size, |g.edges| + |g.nodes| + 1)
    ensures var k := |g.edges| + |g.nodes| + 1;
      if size(r) <= limit then FirstFit(g, limit, size, k) && r == Candidate(g, k) else NoneFits(g, limit, size, k + 1)
  {
    AllShrunk(g, r);
    OneMoreTried(g, limit, size, |g.edges| + |g.nodes| + 1);
  }

  lemma AllShrunk(g: Graph, r: Graph)
    requires r == Shrunk(g, |g.nodes|)
    ensures r == Candidate(g, |g.edges| + |g.nodes| + 1)
  {
  }

  lemma ShrunkNext(g: Graph, dropped: nat)
    requires dropped < |g.nodes|
    ensures Shrunk(g, dropped).nodes != []
    ensures Shrunk(g, dropped + 1) == WithoutLast(Shrunk(g, dropped))
    ensures Shrunk(g, dropped + 1) == Candidate(g, |g.edges| + dropped + 1)
  {
    var last := |g.nodes| - dropped - 1;
    assert g.nodes[last..][1..] == g.nodes[last + 1..];
  }

  /** The report without edges, this many nodes and their roots. */
  function Shrunk(g: Graph, dropped: nat): Graph
    requires dropped <= |g.nodes|
  {
    var kept := |g.nodes| - dropped;
    Graph(RootsWithout(g.roots, g.nodes[kept..]), g.nodes[..kept], [], true)
  }

  // ----- the whole request -----

  datatype Reason = BadDirection | TooDeep | QueryFailed | TooLarge
  datatype Result = Report(graph: Graph) | Refused(reason: Reason)

  function AllowedItems(w: World, items: seq<Item>): seq<Item> {
    if items == [] then []
    else
      var before, last := AllowedItems(w, items[..|items| - 1]), items[|items| - 1];
      if w.allowed(last.uri) then before + [last] else before
  }

  method FilterCalls(w: World, items: seq<Item>) returns (out: seq<Item>, filtered: bool)
    ensures out == AllowedItems(w, items)
    ensures filtered <==> out != items
    ensures filtered <==> exists item :: item in items && !w.allowed(item.uri)
  {
    out, filtered := [], false;
    for i := 0 to |items|
      invariant out == AllowedItems(w, items[..i])
      invariant if filtered then |out| < i else out == items[..i]
      invariant !filtered ==> forall item :: item in items[..i] ==> w.allowed(item.uri)
      invariant filtered ==> exists item :: item in items && !w.allowed(item.uri)
    {
      assert items[..i + 1][..i] == items[..i];
      if w.allowed(items[i].uri) {
        out := out + [items[i]];
      } else {
        filtered := true;
        assert items[i] in items;
      }
    }
    assert items[..|items|] == items;
  }

  predicate IsDirection(direction: string) {
    direction in {"", "prepare", "incoming", "outgoing"}
  }

  /** How far the search goes: asking to prepare only, or for no depth, stops at the roots. */
  function Levels(direction: string, depth: nat): nat {
    if direction == "incoming" || direction == "outgoing" then depth else 0
  }

  function DirectionOf(direction: string): Direction {
    if direction == "incoming" then Incoming else Outgoing
  }

  /** Nothing is missing: no root was hidden, and no root, node or call within the depth was left out. */
  ghost predicate Whole(w: World, direction: Direction, levels: nat, g: Graph)
    requires w.prepared.Some?
  {
    var roots := AllowedItems(w, w.prepared.value);
    roots == w.prepared.value && Complete(w, direction, roots, levels, g) && g.roots == IdsOf(AddNodes(w, [], roots))
  }

  /**
   What a report promises. It always fits the limits, is well formed, and reports only what is there.
   Not marked as truncated, it is all that is there: no root was hidden and no call is missing.
   */
  ghost predicate Faithful(w: World, direction: Direction, levels: nat, max: nat, limit: int, size: Graph -> nat,
                           g: Graph)
    requires w.prepared.Some?
  {
    var roots := AllowedItems(w, w.prepared.value);
    && Reporting(w, direction, roots, levels, g, max)
    && size(g) <= limit
    && (!g.truncated ==> Whole(w, direction, levels, g))
  }

  ghost predicate SomeQueryFails(w: World, direction: Direction, levels: nat) {
    || w.prepared.None?
    || QueryFails(w, direction, AllowedItems(w, w.prepared.value), levels)
  }

  /** What listing the roots leaves, whether or not some root was hidden. */
  lemma RootsAreReported(w: World, direction: Direction, roots: seq<Item>, filtered: bool, max: nat)
    ensures var g := ListRoots(w, Graph([], [], [], filtered), roots, max);
      && Reporting(w, direction, roots, 0, g, max)
      && (!g.truncated ==> !filtered && Complete(w, direction, roots, 0, g) && g.roots == IdsOf(AddNodes(w, [], roots)))
  {
    var empty := Graph([], [], [], filtered);
    RootsReport(w, direction, roots, empty, roots, max);
    var g := ListRoots(w, empty, roots, max);
    if !g.truncated {
      RootsMissNothing(w, empty, roots, max);
      assert g.nodes[..0] == [];
    }
  }

  lemma LevelsAreReported(w: World, direction: Direction, roots: seq<Item>, g: Graph, levels: nat, max: nat)
    requires Reporting(w, direction, roots, 0, g, max)
    requires !g.truncated ==> Complete(w, direction, roots, 0, g)
    ensures var r := FollowLevels(w, direction, g, 0, levels, max);
      if r.Some? then
        && Reporting(w, direction, roots, levels, r.value, max)
        && (!r.value.truncated ==> !g.truncated && Complete(w, direction, roots, levels, r.value))
      else QueryFails(w, direction, roots, levels)
  {
    FollowLevelsReports(w, direction, roots, 0, g, 0, levels, max);
    var r := FollowLevels(w, direction, g, 0, levels, max);
    FollowLevelsMarks(w, direction, g, 0, levels, max);
    if r.Some? && !r.value.truncated { LevelsAreComplete(w, direction, roots, g, levels, max, r.value); }
  }

  lemma LevelsAreComplete(w: World, direction: Direction, roots: seq<Item>, g: Graph, levels: nat, max: nat, r: Graph)
    requires Complete(w, direction, roots, 0, g)
    requires FollowLevels(w, direction, g, 0, levels, max) == Some(r) && !r.truncated
    ensures !g.truncated && Complete(w, direction, roots, levels, r)
  {
    var layers := Explored(w, direction, roots, 0);
    ExploredIsFaithful(w, direction, roots, 0);
    ExpandFrom(w, direction, roots, layers, levels);
    LevelsMissNothing(w, direction, layers, g, levels, max, Explored(w, direction, roots, levels), r);
  }

  lemma CandidateReports(w: World, direction: Direction, roots: seq<Item>, k: nat, g: Graph, max: nat, i: nat)
    requires Reporting(w, direction, roots, k, g, max) && i < CandidateCount(g)
    ensures Reporting(w, direction, roots, k, Candidate(g, i), max)
    ensures !Candidate(g, i).truncated ==> Candidate(g, i) == g
  {
    CandidateIsWellFormed(w, g, i);
    var c := Candidate(g, i);
    assert forall j :: 0 <= j < |c.nodes| ==> c.nodes[j] == g.nodes[j];
    assert forall j :: 0 <= j < |c.edges| ==> c.edges[j] == g.edges[j];
  }

  /** What the search finds, before trimming. */
  function Searched(w: World, direction: Direction, levels: nat, max: nat): Option<Graph>
    requires w.prepared.Some?
  {
    var roots := AllowedItems(w, w.prepared.value);
    FollowLevels(w, direction, ListRoots(w, Graph([], [], [], roots != w.prepared.value), roots, max), 0, levels, max)
  }

  /** What was found is cut down to the first candidate that fits, or refused if none does. */
  ghost predicate TrimmedTo(found: Graph, limit: int, size: Graph -> nat, result: Result) {
    match result
    case Report(g) => exists k :: FirstFit(found, limit, size, k) && g == Candidate(found, k)
    case Refused(reason) => reason == TooLarge && NoneFits(found, limit, size, CandidateCount(found))
  }

  /** The search itself, before trimming. */
  method Explore(w: World, towards: Direction, roots: seq<Item>, filtered: bool, prepare: bool, depth: nat, max: nat)
      returns (g: Graph, ok: bool)
    ensures var levels := if prepare then 0 else depth;
      if ok then
        && Reporting(w, towards, roots, levels, g, max)
        && (!g.truncated ==>
          !filtered && Complete(w, towards, roots, levels, g) && g.roots == IdsOf(AddNodes(w, [], roots)))
      else QueryFails(w, towards, roots, levels)
    ensures var listed := ListRoots(w, Graph([], [], [], filtered), roots, max);
      FollowLevels(w, towards, listed, 0, if prepare then 0 else depth, max) == if ok then Some(g) else None
  {
    var search := new Search(filtered);
    search.AddRoots(w, roots, max);
    g := search.View();
    RootsAreReported(w, towards, roots, filtered, max);
    LevelsAreReported(w, towards, roots, g, if prepare then 0 else depth, max);
    ok := true;
    if !prepare && depth != 0 {
      ok := search.AddLevels(w, towards, depth, max);
      g := search.View();
    }
  }

  method CallHierarchy(w: World, direction: string, depth: int, maxDepth: int, max: nat, limit: int, size: Graph -> nat)
      returns (result: Result)
    ensures result == Refused(BadDirection) <==> !IsDirection(direction)
    ensures result == Refused(TooDeep) <==> IsDirection(direction) && !(0 <= depth <= maxDepth)
    ensures IsDirection(direction) && 0 <= depth <= maxDepth ==>
      if w.prepared.None? || Searched(w, DirectionOf(direction), Levels(direction, depth), max).None?
      then result == Refused(QueryFailed)
      else TrimmedTo(Searched(w, DirectionOf(direction), Levels(direction, depth), max).value, limit, size, result)
    ensures result == Refused(QueryFailed) ==>
      depth >= 0 && SomeQueryFails(w, DirectionOf(direction), Levels(direction, depth))
    ensures result == Refused(TooLarge) ==> size(Graph([], [], [], true)) > limit
    ensures result.Report? ==> depth >= 0 && w.prepared.Some?
    ensures result.Report? ==>
      Faithful(w, DirectionOf(direction), Levels(direction, depth), max, limit, size, result.graph)
  {
    var kind := if direction == "" then "prepare" else direction;
    if kind != "prepare" && kind != "incoming" && kind != "outgoing" {
      return Refused(BadDirection);
    }
    if depth < 0 || depth > maxDepth {
      return Refused(TooDeep);
    }
    if w.prepared.None? {
      return Refused(QueryFailed);
    }
    var towards := if kind == "incoming" then Incoming else Outgoing;
    var roots, filtered := FilterCalls(w, w.prepared.value);
    var found, ok := Explore(w, towards, roots, filtered, kind == "prepare", depth, max);
    if !ok {
      return Refused(QueryFailed);
    }
    ghost var levels := Levels(direction, depth);
    var report, fits := Trim(found, limit, size);
    if !fits {
      LastCandidateIsEmpty(w, found);
      assert !Fits(found, limit, size, |found.edges| + |found.nodes| + 1);
      return Refused(TooLarge);
    }
    ghost var k :| FirstFit(found, limit, size, k) && report == Candidate(found, k);
    CandidateReports(w, towards, roots, levels, found, max, k);
    result := Report(report);
  }

  /** What a complete report says, in terms of the calls there are. */
  lemma CompleteMeansReachable(w: World, direction: Direction, roots: seq<Item>, k: nat, g: Graph, id: string)
    requires Consistent(w, direction) && Complete(w, direction, roots, k, g)
    ensures id in IdSet(g.nodes) <==> exists item :: Reaches(w, direction, roots, k, item) && w.key(item) == id
  {
    ExploredIsReachability(w, direction, roots, k, id);
  }

  /**
   The edges are, node by node, all the calls of the nodes found within one call less; and each
   call's end is listed.
   */
  lemma CompleteMeansAllCalls(w: World, direction: Direction, roots: seq<Item>, k: nat, g: Graph)
    requires k > 0 && Complete(w, direction, roots, k, g)
    ensures var near := Explored(w, direction, roots, k - 1).nodes;
      && near <= g.nodes
      && g.edges == AllEdges(w, direction, near)
      && AllClean(w, direction, near)
      && Closed(w, direction, g.nodes, |near|)
  {
    ExpandedAreNearer(w, direction, roots, k);
    ExploredIsFaithful(w, direction, roots, k);
  }
}
