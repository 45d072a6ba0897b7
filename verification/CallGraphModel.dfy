/**
 The call graph as the language server answers for it, what the search is asked to report, and
 what it means for a report to be well formed, sound and complete.
 */
module CallGraphModel {
  import opened Collections
  import opened Text

  datatype Position = Position(line: nat, character: nat)
  datatype Range = Range(start: Position, end: Position)
  datatype Item = Item(name: string, kind: int, uri: string, range: Range, selection: Range)
  datatype Call = Call(from: Option<Item>, to: Option<Item>)
  datatype Direction = Incoming | Outgoing

  // The answers of the language server; None stands for a failed query.
  datatype World = World(
    key: Item -> string,
    allowed: string -> bool,
    prepared: Option<seq<Item>>,
    incoming: Item -> Option<seq<Call>>,
    outgoing: Item -> Option<seq<Call>>)

  datatype Node = Node(id: string, item: Item)
  datatype Edge = Edge(from: string, to: string)
  datatype Graph = Graph(roots: seq<string>, nodes: seq<Node>, edges: seq<Edge>, truncated: bool)

  /** The key of an item: its document and its range. */
  function CallKey(item: Item): string {
    item.uri + Part(item.range.start.line) + Part(item.range.start.character)
      + Part(item.range.end.line) + Part(item.range.end.character)
  }

  function Part(n: nat): string {
    ":" + Dec(n)
  }

  // ----- the graph -----

  function CallsOf(w: World, direction: Direction, item: Item): Option<seq<Call>> {
    if direction == Incoming then w.incoming(item) else w.outgoing(item)
  }

  function Endpoint(direction: Direction, call: Call): Option<Item> {
    if direction == Incoming then call.from else call.to
  }

  predicate Usable(w: World, direction: Direction, call: Call) {
    Endpoint(direction, call).Some? && w.allowed(Endpoint(direction, call).value.uri)
  }

  /** The items at the other end of some calls. */
  function Targets(direction: Direction, calls: seq<Call>): seq<Item> {
    if calls == [] then []
    else
      var before := Targets(direction, calls[..|calls| - 1]);
      var last := Endpoint(direction, calls[|calls| - 1]);
      if last.None? then before else before + [last.value]
  }

  function TargetsOf(w: World, direction: Direction, item: Item): seq<Item> {
    var calls := CallsOf(w, direction, item);
    if calls.None? then [] else Targets(direction, calls.value)
  }

  /** The query for this item succeeds and each of its calls leads somewhere the caller may see. */
  predicate Clean(w: World, direction: Direction, item: Item) {
    var calls := CallsOf(w, direction, item);
    calls.Some? && forall i :: 0 <= i < |calls.value| ==> Usable(w, direction, calls.value[i])
  }

  /** The item is some root, or at the end of at most k calls from one. */
  ghost predicate Reaches(w: World, direction: Direction, roots: seq<Item>, k: nat, item: Item) {
    if k == 0 then item in roots
    else
      || Reaches(w, direction, roots, k - 1, item)
      || exists from :: Reaches(w, direction, roots, k - 1, from) && item in TargetsOf(w, direction, from)
  }

  predicate SameKey(w: World, a: Item, b: Item) {
    w.key(a) == w.key(b)
  }

  /** Items the key cannot tell apart have the same calls. */
  ghost predicate Consistent(w: World, direction: Direction) {
    forall a, b :: SameKey(w, a, b) ==> CallsOf(w, direction, a) == CallsOf(w, direction, b)
  }

  // ----- the search without a budget -----

  function IdSet(nodes: seq<Node>): set<string> {
    set i | 0 <= i < |nodes| :: nodes[i].id
  }

  function AddNode(w: World, nodes: seq<Node>, item: Item): (all: seq<Node>)
    ensures nodes <= all
  {
    if w.key(item) in IdSet(nodes) then nodes else nodes + [Node(w.key(item), item)]
  }

  /** Each item not listed yet under its key is listed after the others. */
  function AddNodes(w: World, nodes: seq<Node>, items: seq<Item>): (all: seq<Node>)
    ensures nodes <= all
  {
    if items == [] then nodes
    else AddNode(w, AddNodes(w, nodes, items[..|items| - 1]), items[|items| - 1])
  }

  function EdgesTo(w: World, from: string, targets: seq<Item>): seq<Edge> {
    seq(|targets|, i requires 0 <= i < |targets| => Edge(from, w.key(targets[i])))
  }

  function AllTargets(w: World, direction: Direction, nodes: seq<Node>): seq<Item> {
    FlatMap((node: Node) => TargetsOf(w, direction, node.item), nodes)
  }

  /** The calls of these nodes, node by node in order. */
  function AllEdges(w: World, direction: Direction, nodes: seq<Node>): seq<Edge> {
    FlatMap((node: Node) => EdgesTo(w, node.id, TargetsOf(w, direction, node.item)), nodes)
  }

  // The nodes found so far, and how many of them have been expanded.
  datatype Layers = Layers(nodes: seq<Node>, expanded: nat)

  /** Expand every node that has not been expanded yet. */
  function Expand(w: World, direction: Direction, layers: Layers): (more: Layers)
    requires layers.expanded <= |layers.nodes|
    ensures more.expanded == |layers.nodes| <= |more.nodes|
  {
    Layers(AddNodes(w, layers.nodes, AllTargets(w, direction, layers.nodes[layers.expanded..])), |layers.nodes|)
  }

  /** Breadth first: level by level, to k calls from the roots. */
  function Explored(w: World, direction: Direction, roots: seq<Item>, k: nat): (layers: Layers)
    ensures layers.expanded <= |layers.nodes|
  {
    if k == 0 then Layers(AddNodes(w, [], roots), 0)
    else Expand(w, direction, Explored(w, direction, roots, k - 1))
  }

  // ----- the search with a budget -----

  function Items(nodes: seq<Node>): seq<Item> {
    seq(|nodes|, i requires 0 <= i < |nodes| => nodes[i].item)
  }

  function IdsOf(nodes: seq<Node>): seq<string> {
    seq(|nodes|, i requires 0 <= i < |nodes| => nodes[i].id)
  }

  /** List the roots, each once, as far as the budget goes. */
  function ListRoots(w: World, g: Graph, items: seq<Item>, max: nat): Graph
    decreases |items|
  {
    if items == [] then g
    else if |g.nodes| >= max then g.(truncated := true)
    else
      var nodes := AddNode(w, g.nodes, items[0]);
      var roots := if nodes == g.nodes then g.roots else g.roots + [w.key(items[0])];
      ListRoots(w, g.(nodes := nodes, roots := roots), items[1..], max)
  }

  /** The report with one more call of the item listed under a key. */
  function WithCall(w: World, g: Graph, from: string, to: Item): Graph {
    g.(nodes := AddNode(w, g.nodes, to), edges := g.edges + [Edge(from, w.key(to))])
  }

  predicate HasRoom(w: World, g: Graph, to: Item, max: nat) {
    |AddNode(w, g.nodes, to)| + |g.edges| + 1 <= max
  }

  /**
   Report calls of one item. A call that leads nowhere the caller may see is skipped; a call beyond
   the budget ends the item. Both mark the report.
   */
  function Follow(w: World, direction: Direction, g: Graph, from: string, calls: seq<Call>, max: nat): (g': Graph)
    ensures g.nodes <= g'.nodes && g'.roots == g.roots
    decreases |calls|
  {
    if calls == [] then g
    else if !Usable(w, direction, calls[0]) then Follow(w, direction, g.(truncated := true), from, calls[1..], max)
    else
      var to := Endpoint(direction, calls[0]).value;
      if !HasRoom(w, g, to, max) then g.(truncated := true)
      else Follow(w, direction, WithCall(w, g, from, to), from, calls[1..], max)
  }

  /** Report the calls of each of these items; None if a query fails. */
  function FollowAll(w: World, direction: Direction, g: Graph, items: seq<Item>, max: nat): (r: Option<Graph>)
    ensures r.Some? ==> g.nodes <= r.value.nodes && r.value.roots == g.roots
    decreases |items|
  {
    if items == [] then Some(g)
    else
      var calls := CallsOf(w, direction, items[0]);
      if calls.None? then None
      else FollowAll(w, direction, Follow(w, direction, g, w.key(items[0]), calls.value, max), items[1..], max)
  }

  /** Level by level, each time following the nodes the level before added, until the report is marked. */
  function FollowLevels(w: World, direction: Direction, g: Graph, start: nat, levels: nat, max: nat): (r: Option<Graph>)
    requires start <= |g.nodes|
    ensures r.Some? ==> r.value.roots == g.roots
    decreases levels
  {
    if levels == 0 || start == |g.nodes| || g.truncated then Some(g)
    else
      var next := FollowAll(w, direction, g, Items(g.nodes[start..]), max);
      if next.None? then None else FollowLevels(w, direction, next.value, |g.nodes|, levels - 1, max)
  }

  // ----- what a report must be -----

  predicate DistinctIds(nodes: seq<Node>) {
    forall i, j :: 0 <= i < j < |nodes| ==> nodes[i].id != nodes[j].id
  }

  /** Nodes are listed once under their keys; every endpoint and every root is listed. */
  predicate WellFormed(w: World, g: Graph) {
    && DistinctIds(g.nodes)
    && (forall i :: 0 <= i < |g.nodes| ==> g.nodes[i].id == w.key(g.nodes[i].item))
    && (forall i :: 0 <= i < |g.edges| ==> g.edges[i].from in IdSet(g.nodes) && g.edges[i].to in IdSet(g.nodes))
    && (forall i :: 0 <= i < |g.roots| ==> g.roots[i] in IdSet(g.nodes))
  }

  /** The edge stands for a call of a listed item. */
  ghost predicate EdgeIsCall(w: World, direction: Direction, nodes: seq<Node>, edge: Edge) {
    exists i, target ::
      0 <= i < |nodes| && edge.from == nodes[i].id && target in TargetsOf(w, direction, nodes[i].item)
        && edge.to == w.key(target)
  }

  /** Nothing is reported that is not there: nodes are within k calls of a root, edges are calls. */
  ghost predicate Sound(w: World, direction: Direction, roots: seq<Item>, k: nat, g: Graph) {
    && (forall i :: 0 <= i < |g.nodes| ==> Reaches(w, direction, roots, k, g.nodes[i].item))
    && (forall i :: 0 <= i < |g.edges| ==> EdgeIsCall(w, direction, g.nodes, g.edges[i]))
  }

  /** The report has the nodes of these layers and all the calls of those expanded, each of which leads to a node. */
  ghost predicate Matches(w: World, direction: Direction, layers: Layers, g: Graph)
    requires layers.expanded <= |layers.nodes|
  {
    && g.nodes == layers.nodes
    && g.edges == AllEdges(w, direction, layers.nodes[..layers.expanded])
    && (forall i :: 0 <= i < layers.expanded ==> Clean(w, direction, layers.nodes[i].item))
  }

  /** Nothing within k calls is missing: the report is that of the search without a budget. */
  ghost predicate Complete(w: World, direction: Direction, roots: seq<Item>, k: nat, g: Graph) {
    Matches(w, direction, Explored(w, direction, roots, k), g)
  }

  function Keys(w: World, items: seq<Item>): set<string> {
    set i | 0 <= i < |items| :: w.key(items[i])
  }

  // ----- shrinking a report to its size limit -----

  function Without(ids: seq<string>, id: string): seq<string> {
    if ids == [] then []
    else
      var before := Without(ids[..|ids| - 1], id);
      if ids[|ids| - 1] == id then before else before + [ids[|ids| - 1]]
  }

  /** The roots that are left when these nodes are dropped, last first. */
  function RootsWithout(roots: seq<string>, dropped: seq<Node>): seq<string> {
    if dropped == [] then roots else Without(RootsWithout(roots, dropped[1..]), dropped[0].id)
  }

  /** The k-th candidate: k edges dropped from the end, then nodes with their roots, then the mark alone. */
  function Candidate(g: Graph, k: nat): Graph
    requires k <= |g.edges| + |g.nodes| + 1
  {
    if k == 0 then g
    else if k <= |g.edges| then g.(edges := g.edges[..|g.edges| - k], truncated := true)
    else
      var dropped := if k > |g.edges| + |g.nodes| then |g.nodes| else k - |g.edges|;
      var kept := |g.nodes| - dropped;
      Graph(RootsWithout(g.roots, g.nodes[kept..]), g.nodes[..kept], [], true)
  }
}
