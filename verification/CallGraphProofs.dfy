/** The search without a budget finds exactly what is reachable, and shrinking keeps reports well formed. */
module CallGraphProofs {
  import opened Collections
  import opened Text
  import opened CallGraphModel

  // ----- keys -----

  lemma PartIsSuffix(x: string, m: nat, y: string, n: nat)
    requires x + Part(m) == y + Part(n)
    ensures x == y && m == n
  {
    var s := x + Part(m);
    assert s[|x|] == ':' && s[|y|] == ':';
    assert forall i :: |x| < i < |s| ==> s[i] == Dec(m)[i - |x| - 1];
    assert forall i :: |y| < i < |s| ==> s[i] == Dec(n)[i - |y| - 1];
    assert |x| == |y|;
    assert x == s[..|x|] && y == s[..|y|];
    assert Part(m) == s[|x|..] && Part(n) == s[|y|..];
    assert Dec(m) == Part(m)[1..] && Dec(n) == Part(n)[1..];
    DecIsInjective(m, n);
  }

  /** Two items have the same key exactly when they have the same document and range. */
  lemma KeyIdentifiesRange(a: Item, b: Item)
    ensures CallKey(a) == CallKey(b) <==> a.uri == b.uri && a.range == b.range
  {
    if CallKey(a) == CallKey(b) {
      var (a1, b1) := (a.uri + Part(a.range.start.line), b.uri + Part(b.range.start.line));
      var (a2, b2) := (a1 + Part(a.range.start.character), b1 + Part(b.range.start.character));
      var (a3, b3) := (a2 + Part(a.range.end.line), b2 + Part(b.range.end.line));
      PartIsSuffix(a3, a.range.end.character, b3, b.range.end.character);
      PartIsSuffix(a2, a.range.end.line, b2, b.range.end.line);
      PartIsSuffix(a1, a.range.start.character, b1, b.range.start.character);
      PartIsSuffix(a.uri, a.range.start.line, b.uri, b.range.start.line);
    }
  }

  // ----- adding nodes -----

  lemma IdSetGrows(nodes: seq<Node>, node: Node)
    ensures IdSet(nodes + [node]) == IdSet(nodes) + {node.id}
  {
    var more := nodes + [node];
    assert forall i :: 0 <= i < |nodes| ==> more[i] == nodes[i];
    assert more[|nodes|] == node;
  }

  lemma AddNodeKeeps(w: World, nodes: seq<Node>, item: Item)
    ensures var all := AddNode(w, nodes, item);
      && IdSet(all) == IdSet(nodes) + {w.key(item)}
      && (DistinctIds(nodes) ==> DistinctIds(all))
      && (forall i :: |nodes| <= i < |all| ==> all[i] == Node(w.key(item), item))
  {
    IdSetGrows(nodes, Node(w.key(item), item));
  }

  lemma KeysOfLast(w: World, items: seq<Item>)
    requires items != []
    ensures var n := |items| - 1; Keys(w, items) == Keys(w, items[..n]) + {w.key(items[n])}
  {
    var n := |items| - 1;
    assert items == items[..n] + [items[n]];
  }

  /** Nodes already listed stay where they are; the keys of the items are added, each once. */
  lemma {:induction false} AddNodesKeeps(w: World, nodes: seq<Node>, items: seq<Item>)
    ensures var all := AddNodes(w, nodes, items);
      && nodes <= all
      && IdSet(all) == IdSet(nodes) + Keys(w, items)
      && (DistinctIds(nodes) ==> DistinctIds(all))
      && (forall i :: |nodes| <= i < |all| ==> all[i].item in items && all[i].id == w.key(all[i].item))
    decreases |items|
  {
    if items != [] {
      var n := |items| - 1;
      var before := AddNodes(w, nodes, items[..n]);
      AddNodesKeeps(w, nodes, items[..n]);
      AddNodeKeeps(w, before, items[n]);
      KeysOfLast(w, items);
      assert forall item :: item in items[..n] ==> item in items;
    }
  }

  lemma {:induction false} AddNodesTwice(w: World, nodes: seq<Node>, first: seq<Item>, second: seq<Item>)
    ensures AddNodes(w, nodes, first + second) == AddNodes(w, AddNodes(w, nodes, first), second)
    decreases |second|
  {
    if second == [] {
      assert first + second == first;
    } else {
      var n := |second| - 1;
      assert (first + second)[..|first| + n] == first + second[..n];
      AddNodesTwice(w, nodes, first, second[..n]);
    }
  }

  lemma AllEdgesAppend(w: World, direction: Direction, first: seq<Node>, second: seq<Node>)
    ensures AllEdges(w, direction, first + second) == AllEdges(w, direction, first) + AllEdges(w, direction, second)
  {
    FlatMapAppend((node: Node) => EdgesTo(w, node.id, TargetsOf(w, direction, node.item)), first, second);
  }

  lemma AllTargetsOf(w: World, direction: Direction, nodes: seq<Node>, item: Item)
    ensures item in AllTargets(w, direction, nodes) <==>
      exists i :: 0 <= i < |nodes| && item in TargetsOf(w, direction, nodes[i].item)
  {
    FlatMapMember((node: Node) => TargetsOf(w, direction, node.item), nodes, item);
  }

  // ----- the layers -----

  lemma {:induction false} ReachesMonotone(w: World, direction: Direction, roots: seq<Item>, k: nat, more: nat,
                                           item: Item)
    requires k <= more && Reaches(w, direction, roots, k, item)
    ensures Reaches(w, direction, roots, more, item)
    decreases more
  {
    if k < more { ReachesMonotone(w, direction, roots, k, more - 1, item); }
  }

  predicate OwnIds(w: World, nodes: seq<Node>) {
    forall i :: 0 <= i < |nodes| ==> nodes[i].id == w.key(nodes[i].item)
  }

  ghost predicate AllReach(w: World, direction: Direction, roots: seq<Item>, k: nat, nodes: seq<Node>) {
    forall i :: 0 <= i < |nodes| ==> Reaches(w, direction, roots, k, nodes[i].item)
  }

  lemma ExpandIsSound(w: World, direction: Direction, roots: seq<Item>, k: nat, layers: Layers)
    requires layers.expanded <= |layers.nodes| && AllReach(w, direction, roots, k, layers.nodes)
    requires DistinctIds(layers.nodes) && OwnIds(w, layers.nodes)
    ensures AllReach(w, direction, roots, k + 1, Expand(w, direction, layers).nodes)
    ensures DistinctIds(Expand(w, direction, layers).nodes) && OwnIds(w, Expand(w, direction, layers).nodes)
  {
    var frontier := layers.nodes[layers.expanded..];
    var targets := AllTargets(w, direction, frontier);
    var all := AddNodes(w, layers.nodes, targets);
    AddNodesKeeps(w, layers.nodes, targets);
    forall i | 0 <= i < |all| ensures Reaches(w, direction, roots, k + 1, all[i].item) {
      if i < |layers.nodes| {
        assert all[i] == layers.nodes[i];
      } else {
        AllTargetsOf(w, direction, frontier, all[i].item);
        var j :| 0 <= j < |frontier| && all[i].item in TargetsOf(w, direction, frontier[j].item);
        assert frontier[j] == layers.nodes[layers.expanded + j];
      }
    }
  }

  /** Expanded nodes have all their targets listed. */
  ghost predicate Closed(w: World, direction: Direction, nodes: seq<Node>, expanded: nat)
    requires expanded <= |nodes|
  {
    forall i, target :: 0 <= i < expanded && target in TargetsOf(w, direction, nodes[i].item) ==>
      w.key(target) in IdSet(nodes)
  }

  lemma ExpandIsClosed(w: World, direction: Direction, layers: Layers)
    requires layers.expanded <= |layers.nodes| && Closed(w, direction, layers.nodes, layers.expanded)
    ensures var all := Expand(w, direction, layers);
      layers.nodes <= all.nodes && IdSet(layers.nodes) <= IdSet(all.nodes)
        && Closed(w, direction, all.nodes, all.expanded)
  {
    var frontier := layers.nodes[layers.expanded..];
    var targets := AllTargets(w, direction, frontier);
    var all := AddNodes(w, layers.nodes, targets);
    AddNodesKeeps(w, layers.nodes, targets);
    forall i, target | 0 <= i < |layers.nodes| && target in TargetsOf(w, direction, all[i].item)
      ensures w.key(target) in IdSet(all)
    {
      assert all[i] == layers.nodes[i];
      if i >= layers.expanded {
        assert frontier[i - layers.expanded] == layers.nodes[i];
        AllTargetsOf(w, direction, frontier, target);
        KeyListed(w, targets, target);
      }
    }
  }

  lemma KeyListed(w: World, items: seq<Item>, item: Item)
    requires item in items
    ensures w.key(item) in Keys(w, items)
  {
    var i :| 0 <= i < |items| && items[i] == item;
  }

  /** What is listed under the key of an item has the item's targets listed in the next layer. */
  lemma ExpandFindsTargets(w: World, direction: Direction, layers: Layers, from: Item, item: Item)
    requires Consistent(w, direction) && layers.expanded <= |layers.nodes| && OwnIds(w, layers.nodes)
    requires Closed(w, direction, layers.nodes, layers.expanded)
    requires w.key(from) in IdSet(layers.nodes) && item in TargetsOf(w, direction, from)
    ensures w.key(item) in IdSet(Expand(w, direction, layers).nodes)
  {
    ExpandIsClosed(w, direction, layers);
    var all := Expand(w, direction, layers);
    var i :| 0 <= i < |layers.nodes| && layers.nodes[i].id == w.key(from);
    assert all.nodes[i] == layers.nodes[i];
    assert SameKey(w, all.nodes[i].item, from);
    assert TargetsOf(w, direction, all.nodes[i].item) == TargetsOf(w, direction, from);
  }

  ghost predicate Finds(w: World, direction: Direction, roots: seq<Item>, k: nat, nodes: seq<Node>) {
    forall item :: Reaches(w, direction, roots, k, item) ==> w.key(item) in IdSet(nodes)
  }

  lemma ExpandFinds(w: World, direction: Direction, roots: seq<Item>, k: nat, layers: Layers)
    requires Consistent(w, direction) && layers.expanded <= |layers.nodes| && OwnIds(w, layers.nodes)
    requires Closed(w, direction, layers.nodes, layers.expanded)
    requires Finds(w, direction, roots, k, layers.nodes)
    ensures Finds(w, direction, roots, k + 1, Expand(w, direction, layers).nodes)
  {
    ExpandIsClosed(w, direction, layers);
    var all := Expand(w, direction, layers).nodes;
    forall item | Reaches(w, direction, roots, k + 1, item) ensures w.key(item) in IdSet(all) {
      if !Reaches(w, direction, roots, k, item) {
        var from :| Reaches(w, direction, roots, k, from) && item in TargetsOf(w, direction, from);
        ExpandFindsTargets(w, direction, layers, from, item);
      }
    }
  }

  /** What holds of every layer of the search. */
  ghost predicate FaithfulLayers(w: World, direction: Direction, roots: seq<Item>, k: nat, layers: Layers) {
    && layers.expanded <= |layers.nodes|
    && DistinctIds(layers.nodes) && OwnIds(w, layers.nodes)
    && AllReach(w, direction, roots, k, layers.nodes)
    && Closed(w, direction, layers.nodes, layers.expanded)
    && (Consistent(w, direction) ==> Finds(w, direction, roots, k, layers.nodes))
  }

  lemma RootsAreFaithful(w: World, direction: Direction, roots: seq<Item>)
    ensures FaithfulLayers(w, direction, roots, 0, Layers(AddNodes(w, [], roots), 0))
  {
    AddNodesKeeps(w, [], roots);
    forall item | item in roots ensures w.key(item) in IdSet(AddNodes(w, [], roots)) { KeyListed(w, roots, item); }
  }

  lemma ExpandIsFaithful(w: World, direction: Direction, roots: seq<Item>, k: nat, layers: Layers)
    requires FaithfulLayers(w, direction, roots, k, layers)
    ensures FaithfulLayers(w, direction, roots, k + 1, Expand(w, direction, layers))
  {
    ExpandIsSound(w, direction, roots, k, layers);
    ExpandIsClosed(w, direction, layers);
    if Consistent(w, direction) { ExpandFinds(w, direction, roots, k, layers); }
  }

  lemma NextIsFaithful(w: World, direction: Direction, roots: seq<Item>, k: nat)
    requires k > 0 && FaithfulLayers(w, direction, roots, k - 1, Explored(w, direction, roots, k - 1))
    ensures FaithfulLayers(w, direction, roots, k, Explored(w, direction, roots, k))
  {
    ExpandIsFaithful(w, direction, roots, k - 1, Explored(w, direction, roots, k - 1));
  }

  /** Every layer lists items within its distance only, each once, and under consistent keys all of them. */
  lemma {:induction false} ExploredIsFaithful(w: World, direction: Direction, roots: seq<Item>, k: nat)
    ensures FaithfulLayers(w, direction, roots, k, Explored(w, direction, roots, k))
  {
    if k == 0 {
      RootsAreFaithful(w, direction, roots);
    } else {
      ExploredIsFaithful(w, direction, roots, k - 1);
      NextIsFaithful(w, direction, roots, k);
    }
  }

  /** The keys listed are exactly those of the items within k calls of a root. */
  lemma ExploredIsReachability(w: World, direction: Direction, roots: seq<Item>, k: nat, id: string)
    requires Consistent(w, direction)
    ensures id in IdSet(Explored(w, direction, roots, k).nodes) <==>
      exists item :: Reaches(w, direction, roots, k, item) && w.key(item) == id
  {
    ExploredIsFaithful(w, direction, roots, k);
  }

  /** The nodes whose calls are reported are those found within one call less. */
  lemma ExpandedAreNearer(w: World, direction: Direction, roots: seq<Item>, k: nat)
    requires k > 0
    ensures var all := Explored(w, direction, roots, k);
      all.nodes[..all.expanded] == Explored(w, direction, roots, k - 1).nodes
  {
    var before := Explored(w, direction, roots, k - 1);
    AddNodesKeeps(w, before.nodes, AllTargets(w, direction, before.nodes[before.expanded..]));
  }

  lemma ExpandSettled(w: World, direction: Direction, layers: Layers)
    requires layers.expanded == |layers.nodes|
    ensures Expand(w, direction, layers) == layers
  {
    assert layers.nodes[layers.expanded..] == [];
  }

  // ----- shrinking -----

  lemma {:induction false} WithoutKeepsOthers(ids: seq<string>, id: string, v: string)
    ensures v in Without(ids, id) <==> v in ids && v != id
  {
    if ids != [] {
      WithoutKeepsOthers(ids[..|ids| - 1], id, v);
      assert ids == ids[..|ids| - 1] + [ids[|ids| - 1]];
    }
  }

  lemma {:induction false} RootsWithoutKeepsOthers(roots: seq<string>, dropped: seq<Node>, v: string)
    ensures v in RootsWithout(roots, dropped) <==> v in roots && v !in IdSet(dropped)
  {
    if dropped != [] {
      var others := dropped[1..];
      RootsWithoutKeepsOthers(roots, others, v);
      WithoutKeepsOthers(RootsWithout(roots, others), dropped[0].id, v);
      assert IdSet(dropped) == IdSet(others) + {dropped[0].id} by {
        assert forall i :: 0 < i < |dropped| ==> dropped[i] == others[i - 1];
        assert forall i :: 0 <= i < |others| ==> others[i] == dropped[i + 1];
      }
    }
  }

  lemma IdSetOfPrefix(nodes: seq<Node>, kept: nat)
    requires kept <= |nodes|
    ensures IdSet(nodes) == IdSet(nodes[..kept]) + IdSet(nodes[kept..])
    ensures DistinctIds(nodes) ==> IdSet(nodes[..kept]) !! IdSet(nodes[kept..])
  {
    assert forall i :: 0 <= i < kept ==> nodes[..kept][i] == nodes[i];
    assert forall i :: 0 <= i < |nodes| - kept ==> nodes[kept..][i] == nodes[kept + i];
    forall id | id in IdSet(nodes) ensures id in IdSet(nodes[..kept]) + IdSet(nodes[kept..]) {
      var i :| 0 <= i < |nodes| && nodes[i].id == id;
      if i < kept { assert nodes[..kept][i].id == id; } else { assert nodes[kept..][i - kept].id == id; }
    }
  }

  /** Every candidate is well formed, keeps prefixes, and drops no node while an edge remains. */
  lemma CandidateIsWellFormed(w: World, g: Graph, k: nat)
    requires WellFormed(w, g) && k <= |g.edges| + |g.nodes| + 1
    ensures var c := Candidate(g, k);
      && WellFormed(w, c)
      && c.nodes <= g.nodes && c.edges <= g.edges
      && (c.edges != [] ==> c.nodes == g.nodes && c.roots == g.roots)
      && (k > 0 ==> c.truncated)
      && (forall v :: v in c.roots <==> v in g.roots && v in IdSet(c.nodes))
  {
    var c := Candidate(g, k);
    forall v ensures v in c.roots <==> v in g.roots && v in IdSet(c.nodes) {
      if k > |g.edges| {
        var kept := |c.nodes|;
        RootsWithoutKeepsOthers(g.roots, g.nodes[kept..], v);
        IdSetOfPrefix(g.nodes, kept);
      }
    }
  }

  /** The last candidate is the empty report, marked as truncated. */
  lemma LastCandidateIsEmpty(w: World, g: Graph)
    requires WellFormed(w, g)
    ensures Candidate(g, |g.edges| + |g.nodes| + 1) == Graph([], [], [], true)
  {
    var last := Candidate(g, |g.edges| + |g.nodes| + 1);
    CandidateIsWellFormed(w, g, |g.edges| + |g.nodes| + 1);
    assert IdSet(last.nodes) == {};
    assert multiset(last.roots) == multiset{};
  }
}
