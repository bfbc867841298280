/** The live graph and the four ways it shrinks: folding a node of degree two into an edge,
    collapsing parallel edges, absorbing a leaf into its father and merging two nodes. */
module SbpSteps {
  import opened Wrappers
  import opened Sums
  import opened SbpForest
  import opened SbpOwnership
  import opened SbpMeaning

  datatype Graph = Graph(node: map<Id, Node>, edge: map<Id, Edge>)

  /** Objects sit under their own ids; edges join two different live nodes. */
  ghost predicate Wired(g: Graph) {
    && (forall i :: i in g.node ==> g.node[i].id == i)
    && (forall k :: k in g.edge ==>
          && g.edge[k].id == k
          && g.edge[k].start in g.node && g.edge[k].end in g.node && g.edge[k].start != g.edge[k].end)
  }

  /** The edge k, seen with the merge trees of its two ends. */
  ghost predicate EdgeHolds(g: Graph, pe: (Edge, Parts, Parts) -> bool, k: Id)
    requires Wired(g) && k in g.edge
  {
    pe(g.edge[k], PartsOf(g.node[g.edge[k].start]), PartsOf(g.node[g.edge[k].end]))
  }

  /** A property of every live node and of every live edge. */
  ghost predicate Holds(g: Graph, pn: Node -> bool, pe: (Edge, Parts, Parts) -> bool)
    requires Wired(g)
  {
    && (forall i :: i in g.node ==> pn(g.node[i]))
    && (forall k :: k in g.edge ==> EdgeHolds(g, pe, k))
  }

  /** Tables of the right sizes, edges between two different live nodes. */
  ghost predicate Sound(g: Graph) { Wired(g) && Holds(g, ShapeNode, ShapeEdge) }

  ghost function FreshNodes(ratio: real): Node -> bool { n => FreshNode(n, ratio) }

  ghost function FreshEdges(ratio: real): (Edge, Parts, Parts) -> bool { (e, s, t) => FreshEdge(e, s, t, ratio) }

  /** Every table, live or swallowed, is up to date at the memory ratio. */
  ghost predicate Fresh(g: Graph, ratio: real)
    requires Wired(g)
  {
    Holds(g, FreshNodes(ratio), FreshEdges(ratio))
  }

  /** No id is below two live objects. */
  ghost predicate Disjoint(g: Graph, nodeIds: Node -> set<Id>, edgeIds: Edge -> set<Id>) {
    && (forall i, j :: i in g.node && j in g.node && i != j ==> nodeIds(g.node[i]) !! nodeIds(g.node[j]))
    && (forall k, l :: k in g.edge && l in g.edge && k != l ==> edgeIds(g.edge[k]) !! edgeIds(g.edge[l]))
    && (forall i, k :: i in g.node && k in g.edge ==> nodeIds(g.node[i]) !! edgeIds(g.edge[k]))
  }

  /** A property of every live object on its own. */
  ghost predicate Each(g: Graph, pn: Node -> bool, pe: Edge -> bool) {
    && (forall i :: i in g.node ==> pn(g.node[i]))
    && (forall k :: k in g.edge ==> pe(g.edge[k]))
  }

  /** Every object has one owner: the live graph or one object below it. */
  ghost predicate Owned(g: Graph) { Each(g, ForestNode, ForestEdge) && Disjoint(g, NodeIds, EdgeIds) }

  ghost function LegalNodes(x: Assign): Node -> bool { n => LegalNode(n, x) }

  ghost function LegalEdges(x: Assign): Edge -> bool { e => LegalEdge(e, x) }

  ghost predicate Legal(g: Graph, x: Assign) { Each(g, LegalNodes(x), LegalEdges(x)) }

  /** Every live node holds one of its own signatures. */
  ghost predicate Sigs(g: Graph, x: Assign) { forall i :: i in g.node ==> At(x, i) < |g.node[i].cost| }

  ghost function SettledNodes(x: Assign): Node -> bool { n => SettledNode(n, x) }

  ghost function SettledEdges(x: Assign): Edge -> bool { e => SettledEdge(e, x) }

  ghost predicate Settled(g: Graph, x: Assign) { Each(g, SettledNodes(x), SettledEdges(x)) }

  // ----- costs of an assignment -----

  ghost function NodeTerm(g: Graph, f: Node -> real): nat -> real {
    (i: nat) => if i in g.node then f(g.node[i]) else 0.0
  }

  ghost function EdgeTerm(g: Graph, f: Edge -> real): nat -> real {
    (k: nat) => if k in g.edge then f(g.edge[k]) else 0.0
  }

  ghost function Total(g: Graph, fn: Node -> real, fe: Edge -> real): real {
    Sum(g.node.Keys, NodeTerm(g, fn)) + Sum(g.edge.Keys, EdgeTerm(g, fe))
  }

  function NodeCell(n: Node, x: Assign): real {
    if At(x, n.id) < |n.cost| then n.cost[At(x, n.id)] else 0.0
  }

  function EdgeCell(e: Edge, x: Assign): real { Cell(e.cost, At(x, e.start), At(x, e.end)) }

  ghost function NodeCells(x: Assign): Node -> real { n => NodeCell(n, x) }

  ghost function EdgeCells(x: Assign): Edge -> real { e => EdgeCell(e, x) }

  /** SbpGraph::ComputeCost, from the live tables only. */
  ghost function GraphCost(g: Graph, x: Assign): real { Total(g, NodeCells(x), EdgeCells(x)) }

  ghost function NodeBases(x: Assign, ratio: real): Node -> real { n => NodeBase(n, x, ratio) }

  ghost function EdgeBases(x: Assign, ratio: real): Edge -> real { e => EdgeBase(e, x, ratio) }

  /** The cost of the original nodes and edges, wherever they are now. */
  ghost function GraphBase(g: Graph, x: Assign, ratio: real): real {
    Total(g, NodeBases(x, ratio), EdgeBases(x, ratio))
  }

  lemma TotalLeq(g: Graph, fn: Node -> real, fe: Edge -> real, hn: Node -> real, he: Edge -> real)
    requires forall i :: i in g.node ==> fn(g.node[i]) <= hn(g.node[i])
    requires forall k :: k in g.edge ==> fe(g.edge[k]) <= he(g.edge[k])
    ensures Total(g, fn, fe) <= Total(g, hn, he)
  {
    SumLeq(g.node.Keys, NodeTerm(g, fn), NodeTerm(g, hn));
    SumLeq(g.edge.Keys, EdgeTerm(g, fe), EdgeTerm(g, he));
  }

  /** The live tables never overstate the original cost, and state it exactly when every
      swallowed node follows the recorded choices. */
  lemma GraphMeaning(g: Graph, x: Assign, ratio: real)
    requires Sound(g) && Fresh(g, ratio) && Legal(g, x)
    ensures GraphCost(g, x) <= GraphBase(g, x, ratio)
    ensures Settled(g, x) ==> GraphCost(g, x) == GraphBase(g, x, ratio)
  {
    forall i | i in g.node
      ensures NodeCells(x)(g.node[i]) <= NodeBases(x, ratio)(g.node[i])
      ensures Settled(g, x) ==> NodeCells(x)(g.node[i]) == NodeBases(x, ratio)(g.node[i])
    {
      LiveNodeMeaning(g, i, x, ratio);
    }
    forall k | k in g.edge
      ensures EdgeCells(x)(g.edge[k]) <= EdgeBases(x, ratio)(g.edge[k])
      ensures Settled(g, x) ==> EdgeCells(x)(g.edge[k]) == EdgeBases(x, ratio)(g.edge[k])
    {
      LiveEdgeMeaning(g, k, x, ratio);
    }
    TotalLeq(g, NodeCells(x), EdgeCells(x), NodeBases(x, ratio), EdgeBases(x, ratio));
    if Settled(g, x) {
      TotalLeq(g, NodeBases(x, ratio), EdgeBases(x, ratio), NodeCells(x), EdgeCells(x));
    }
  }

  lemma LiveNodeMeaning(g: Graph, i: Id, x: Assign, ratio: real)
    requires Sound(g) && Fresh(g, ratio) && Legal(g, x) && i in g.node
    ensures NodeCell(g.node[i], x) <= NodeBase(g.node[i], x, ratio)
    ensures Settled(g, x) ==> NodeCell(g.node[i], x) == NodeBase(g.node[i], x, ratio)
  {
    var n := g.node[i];
    assert ShapeNode(n);
    assert FreshNodes(ratio)(n) && LegalNodes(x)(n);
    assert Settled(g, x) ==> SettledNodes(x)(n);
    NodeMeaning(n, x, ratio);
  }

  lemma LegalObeys(n: Node, x: Assign)
    requires LegalNode(n, x)
    ensures Obeys(PartsOf(n), x)
  {
  }

  lemma LiveEdgeMeaning(g: Graph, k: Id, x: Assign, ratio: real)
    requires Sound(g) && Fresh(g, ratio) && Legal(g, x) && k in g.edge
    ensures EdgeCell(g.edge[k], x) <= EdgeBase(g.edge[k], x, ratio)
    ensures Settled(g, x) ==> EdgeCell(g.edge[k], x) == EdgeBase(g.edge[k], x, ratio)
  {
    var e := g.edge[k];
    assert EdgeHolds(g, ShapeEdge, k) && EdgeHolds(g, FreshEdges(ratio), k);
    assert LegalNodes(x)(g.node[e.start]) && LegalNodes(x)(g.node[e.end]) && LegalEdges(x)(e);
    LegalObeys(g.node[e.start], x);
    LegalObeys(g.node[e.end], x);
    assert Settled(g, x) ==> SettledEdges(x)(e);
    EdgeMeaning(e, PartsOf(g.node[e.start]), PartsOf(g.node[e.end]), x, ratio);
  }

  // ----- the steps -----

  predicate Touches(e: Edge, i: Id) { e.start == i || e.end == i }

  function Other(e: Edge, i: Id): Id { if e.start == i then e.end else e.start }

  predicate Between(e: Edge, u: Id, v: Id) { (e.start == u && e.end == v) || (e.start == v && e.end == u) }

  /** The live edges that start at one of the nodes. */
  ghost function Leaving(g: Graph, ns: set<Id>): set<Id> { set k | k in g.edge && g.edge[k].start in ns }

  /** No two edges join the same two nodes, in whatever direction. */
  ghost predicate NoParallel(g: Graph) {
    forall k, l :: k in g.edge && l in g.edge && Between(g.edge[k], g.edge[l].start, g.edge[l].end) ==> k == l
  }

  /** i names no object of the graph. */
  ghost predicate Unused(g: Graph, i: Id) {
    && (forall j :: j in g.node ==> i !in NodeIds(g.node[j]))
    && (forall k :: k in g.edge ==> i !in EdgeIds(g.edge[k]))
  }

  /** u is t with row i taken from row rows[i] and column j from column cols[j]. */
  ghost predicate Picked<T>(t: seq<seq<T>>, u: seq<seq<T>>, rows: seq<Sig>, cols: seq<Sig>) {
    && Sized(u, |rows|, |cols|)
    && forall i, j :: 0 <= i < |rows| && 0 <= j < |cols| ==>
         rows[i] < |t| && cols[j] < |t[rows[i]]| && u[i][j] == t[rows[i]][cols[j]]
  }

  lemma PickedAt<T>(t: seq<seq<T>>, u: seq<seq<T>>, rows: seq<Sig>, cols: seq<Sig>, i: nat, j: nat)
    requires Picked(t, u, rows, cols) && i < |u| && j < |u[i]|
    ensures i < |rows| && j < |cols| && rows[i] < |t| && cols[j] < |t[rows[i]]| && u[i][j] == t[rows[i]][cols[j]]
  {
    assert |u[i]| == |cols|;
    var r, c := rows[i], cols[j];
    assert r < |t| && c < |t[r]|;
  }

  /** SbpEdge::DuplicateCost: d is e with new endpoints and every table of its own re-indexed;
      what it owns is untouched. */
  ghost predicate Copied(e: Edge, d: Edge, start: Id, end: Id, rows: seq<Sig>, cols: seq<Sig>) {
    && d.id == e.id && d.start == start && d.end == end
    && Picked(e.cost, d.cost, rows, cols)
    && match e.body
       case Bare(time, memory) =>
         && d.body.Bare? && Picked(time, d.body.time, rows, cols)
         && (if memory == [] then d.body.memory == [] else Picked(memory, d.body.memory, rows, cols))
       case Parallel(_) => d.body == e.body
       case Through(mid, a, b, sig) =>
         && d.body.Through? && d.body.mid == mid && d.body.first == a && d.body.second == b
         && Picked(sig, d.body.sig, rows, cols)
  }

  function Firsts(pairs: seq<(Sig, Sig)>): (r: seq<Sig>)
    ensures |r| == |pairs| && forall i :: 0 <= i < |r| ==> r[i] == pairs[i].0
  {
    seq(|pairs|, i requires 0 <= i < |pairs| => pairs[i].0)
  }

  function Seconds(pairs: seq<(Sig, Sig)>): (r: seq<Sig>)
    ensures |r| == |pairs| && forall i :: 0 <= i < |r| ==> r[i] == pairs[i].1
  {
    seq(|pairs|, i requires 0 <= i < |pairs| => pairs[i].1)
  }

  function Identity(n: nat): (r: seq<Sig>)
    ensures |r| == n && forall i :: 0 <= i < n ==> r[i] == i
  {
    seq(n, i requires 0 <= i < n => i)
  }

  datatype Step =
    // a node of degree two, its two edges and the compound edge that replaces all three
    | Fold(n: Id, a: Id, b: Id, e: Edge)
    // parallel edges and the compound edge that replaces them
    | Collapse(ks: seq<Id>, e: Edge)
    // a leaf, its edge and its father with the leaf swallowed
    | Absorb(c: Id, k: Id, father: Node)
    // two nodes, the edge between them, if any, and the merged node
    | Merge(f: Id, s: Id, common: Option<Id>, m: Node)

  /** The part of a fold that moves objects: e takes over the node and its two edges. */
  ghost predicate FoldMoves(g: Graph, n: Id, a: Id, b: Id, e: Edge, h: Graph) {
    && n in g.node && a in g.edge && b in g.edge && a != b && e.id !in g.edge
    && e.body.Through? && e.body.mid == g.node[n] && e.body.first == g.edge[a] && e.body.second == g.edge[b]
    && h.node == g.node - {n}
    && h.edge == (g.edge - {a, b})[e.id := e]
  }

  ghost predicate FoldStep(g: Graph, n: Id, a: Id, b: Id, e: Edge, h: Graph) {
    && FoldMoves(g, n, a, b, e, h)
    && (forall k :: k in g.edge ==> (Touches(g.edge[k], n) <==> k == a || k == b))
    && var u, v := Other(g.edge[a], n), Other(g.edge[b], n);
    && u in g.node && v in g.node && u != v
    && Unused(g, e.id)
    && e.start == u && e.end == v
    && ThroughFresh(e, PartsOf(g.node[u]), PartsOf(g.node[v]))
  }

  ghost predicate CollapseMoves(g: Graph, ks: seq<Id>, e: Edge, h: Graph) {
    && Distinct(ks) && (forall k :: k in ks ==> k in g.edge) && e.id !in g.edge
    && e.body.Parallel? && |e.body.list| == |ks| && (forall i :: 0 <= i < |ks| ==> e.body.list[i] == g.edge[ks[i]])
    && h.node == g.node
    && h.edge == (g.edge - Elems(ks))[e.id := e]
  }

  ghost predicate CollapseStep(g: Graph, ks: seq<Id>, e: Edge, h: Graph) {
    && |ks| >= 2 && CollapseMoves(g, ks, e, h)
    && e.start in g.node && e.end in g.node && e.start != e.end
    && (forall k :: k in ks ==> Between(g.edge[k], e.start, e.end))
    && Unused(g, e.id)
    && var s, t := PartsOf(g.node[e.start]), PartsOf(g.node[e.end]);
    && Sized(e.cost, Size(s), Size(t)) && EdgeFreshHere(e, s, t, 0.0)
  }

  /** father is f with one more child: the leaf c, tied by the edge k. */
  ghost predicate Adopted(f: Node, c: Node, k: Edge, father: Node) {
    && father.id == f.id && father.body == f.body && |father.cost| == |f.cost|
    && |father.children| == |f.children| + 1
    && father.children == f.children + [Child(c, k, father.children[|f.children|].sig)]
  }

  /** father is f with the leaf c swallowed at its cheapest signature. */
  ghost predicate Swallowed(f: Node, c: Node, k: Edge, father: Node) {
    && Adopted(f, c, k, father)
    && var child := father.children[|f.children|];
    && ChildFresh(father, child)
    && forall i :: 0 <= i < |f.cost| ==> father.cost[i] == f.cost[i] + ChildCost(child, i, child.sig[i])
  }

  ghost predicate AbsorbMoves(g: Graph, c: Id, k: Id, f: Id, father: Node, h: Graph) {
    && c in g.node && k in g.edge && f in g.node && f != c
    && h.node == (g.node - {c})[f := father]
    && h.edge == g.edge - {k}
  }

  ghost predicate AbsorbStep(g: Graph, c: Id, k: Id, father: Node, h: Graph) {
    && k in g.edge && AbsorbMoves(g, c, k, Other(g.edge[k], c), father, h)
    && (forall l :: l in g.edge ==> (Touches(g.edge[l], c) <==> l == k))
    && Swallowed(g.node[Other(g.edge[k], c)], g.node[c], g.edge[k], father)
  }

  /** The cost of the edge between the two halves when they have signatures i and j. */
  function HalfEdgeCost(k: Edge, f: Id, i: Sig, j: Sig): real {
    if k.start == f then Cell(k.cost, i, j) else Cell(k.cost, j, i)
  }

  function HalfPick(c: Id, f: Id, pairs: seq<(Sig, Sig)>): seq<Sig> {
    if c == f then Firsts(pairs) else Seconds(pairs)
  }

  /** m holds f and s as its halves, and the edge between them, if any, re-indexed. */
  ghost predicate Joined(f: Node, s: Node, common: Option<Edge>, m: Node) {
    && m.body.Merged? && m.body.first == f && m.body.second == s && m.children == []
    && m.body.inner.Some? == common.Some?
    && var pairs := m.body.pairs;
    && |pairs| > 0 && |m.cost| == |pairs|
    && (forall p :: 0 <= p < |pairs| ==> pairs[p].0 < |f.cost| && pairs[p].1 < |s.cost|)
    && (common.Some? ==>
          Copied(common.value, m.body.inner.value, m.id, m.id,
                 HalfPick(common.value.start, f.id, pairs), HalfPick(common.value.end, f.id, pairs)))
  }

  /** The cost of a pair of signatures of the two halves. */
  ghost function PairCost(f: Node, s: Node, common: Option<Edge>, i: Sig, j: Sig): real
    requires i < |f.cost| && j < |s.cost|
  {
    f.cost[i] + s.cost[j] + (if common.Some? then HalfEdgeCost(common.value, f.id, i, j) else 0.0)
  }

  /** A pair is kept unless the edge between the halves makes it invalid. */
  predicate Kept(f: Id, common: Option<Edge>, i: Sig, j: Sig) {
    common.Some? ==> HalfEdgeCost(common.value, f, i, j) < VALID_MAX_COPY_COST
  }

  /** The merged node of f and s: it has one signature for each kept pair. */
  ghost predicate MergedNode(f: Node, s: Node, common: Option<Edge>, m: Node) {
    && Joined(f, s, common, m)
    && (forall i, j :: 0 <= i < |f.cost| && 0 <= j < |s.cost| ==>
          ((i, j) in m.body.pairs <==> Kept(f.id, common, i, j)))
    && (forall p :: 0 <= p < |m.cost| ==> m.cost[p] == PairCost(f, s, common, m.body.pairs[p].0, m.body.pairs[p].1))
  }

  /** common is the one edge between f and s, or None when there is none. */
  ghost predicate IsCommon(g: Graph, f: Id, s: Id, common: Option<Id>) {
    && (common.Some? ==> common.value in g.edge && Between(g.edge[common.value], f, s))
    && forall l :: l in g.edge && Between(g.edge[l], f, s) ==> common == Some(l)
  }

  function CommonEdge(g: Graph, common: Option<Id>): Option<Edge>
    requires common.Some? ==> common.value in g.edge
  {
    if common.Some? then Some(g.edge[common.value]) else None
  }

  /** The edge d of the merged graph that was e: an end at f or s now names m. */
  ghost predicate Redirected(e: Edge, d: Edge, f: Id, s: Id, m: Node, width: nat)
    requires m.body.Merged?
  {
    if e.start == f || e.start == s then
      Copied(e, d, m.id, e.end, HalfPick(e.start, f, m.body.pairs), Identity(width))
    else if e.end == f || e.end == s then
      Copied(e, d, e.start, m.id, Identity(width), HalfPick(e.end, f, m.body.pairs))
    else d == e
  }

  /** The number of signatures at the end of e that is not f or s. */
  function Width(g: Graph, e: Edge, f: Id, s: Id): nat
  {
    var c := if e.start == f || e.start == s then e.end else e.start;
    if c in g.node then |g.node[c].cost| else 0
  }

  ghost predicate MergeMoves(g: Graph, f: Id, s: Id, common: Option<Id>, m: Node, h: Graph) {
    && f in g.node && s in g.node && f != s && m.id !in g.node && m.body.Merged?
    && (common.Some? ==> common.value in g.edge)
    && h.node == (g.node - {f, s})[m.id := m]
    && h.edge.Keys == g.edge.Keys - (if common.Some? then {common.value} else {})
  }

  ghost predicate MergeStep(g: Graph, f: Id, s: Id, common: Option<Id>, m: Node, h: Graph) {
    && MergeMoves(g, f, s, common, m, h)
    && IsCommon(g, f, s, common)
    && Unused(g, m.id)
    && MergedNode(g.node[f], g.node[s], CommonEdge(g, common), m)
    && forall k :: k in h.edge ==> Redirected(g.edge[k], h.edge[k], f, s, m, Width(g, g.edge[k], f, s))
  }

  ghost predicate Shrinks(g: Graph, step: Step, h: Graph) {
    match step
    case Fold(n, a, b, e) => FoldStep(g, n, a, b, e, h)
    case Collapse(ks, e) => CollapseStep(g, ks, e, h)
    case Absorb(c, k, father) => AbsorbStep(g, c, k, father, h)
    case Merge(f, s, common, m) => MergeStep(g, f, s, common, m, h)
  }
}
