/** The objects of the strategy search: nodes and edges with their cost tables, and, inside
    each compound object, the objects it has swallowed.

    Every swallowed node or edge has exactly one owner, so ownership is a value: a compound
    object contains what it owns.  Endpoints stay names (ids), because the edges inside a
    compound edge keep naming the nodes they joined when they were swallowed, even after
    those nodes have been merged into larger ones. */
module SbpForest {
  import opened Wrappers

  type Id = nat
  type Sig = nat
  type Table = seq<seq<real>>

  /** final_sbp_sig_id_ of every node; a node nobody has assigned yet holds 0. */
  type Assign = map<Id, Sig>

  function At(x: Assign, i: Id): Sig { if i in x then x[i] else 0 }

  datatype Node = Node(id: Id, cost: seq<real>, body: NodeBody, children: seq<Child>)

  datatype NodeBody =
    // an original node: origin_cost_ and origin_memory_ (empty when out of the memory support)
    | Origin(time: seq<real>, memory: seq<int>)
    // half_node_, merged_sig_id2half_sig_id_ and the edge between the two halves, if any
    | Merged(first: Node, second: Node, pairs: seq<(Sig, Sig)>, inner: Option<Edge>)

  // a swallowed leaf, the edge that tied it to its father, and child_node_sbp_sig_ for it
  datatype Child = Child(node: Node, edge: Edge, sig: seq<Sig>)

  datatype Edge = Edge(id: Id, start: Id, end: Id, cost: Table, body: EdgeBody)

  datatype EdgeBody =
    // type 1: cost_ and memory_ (empty when out of the memory support)
    | Bare(time: Table, memory: seq<seq<int>>)
    // type 2: several edges between the same two nodes, in either direction
    | Parallel(list: seq<Edge>)
    // type 3: start - mid - end, with mid_node_sbp_sig_
    | Through(mid: Node, first: Edge, second: Edge, sig: seq<seq<Sig>>)

  // ----- the merge tree of a node: which nodes it was merged from, and by which pairs -----

  datatype Parts =
    | Whole(id: Id, size: nat)
    | Pair(id: Id, first: Parts, second: Parts, pairs: seq<(Sig, Sig)>)

  function PartsOf(n: Node): Parts
  {
    match n.body
    case Origin(_, _) => Whole(n.id, |n.cost|)
    case Merged(f, s, pairs, _) => Pair(n.id, PartsOf(f), PartsOf(s), pairs)
  }

  function Size(k: Parts): nat {
    match k
    case Whole(_, n) => n
    case Pair(_, _, _, pairs) => |pairs|
  }

  /** The ids of the node and of all the nodes it was merged from. */
  function Comps(k: Parts): set<Id>
  {
    match k
    case Whole(i, _) => {i}
    case Pair(i, f, s, _) => {i} + Comps(f) + Comps(s)
  }

  /** SbpNode::GetComponentSbpId: the signature of component c when the whole has signature i. */
  function Comp(k: Parts, i: Sig, c: Id): Sig
  {
    if c == k.id then i else
      match k
      case Whole(_, _) => 0
      case Pair(_, f, s, pairs) =>
        if i >= |pairs| then 0
        else if c in Comps(f) then Comp(f, pairs[i].0, c)
        else Comp(s, pairs[i].1, c)
  }

  function Part(k: Parts, c: Id): Parts
  {
    if c == k.id then k else
      match k
      case Whole(_, _) => k
      case Pair(_, f, s, _) => if c in Comps(f) then Part(f, c) else Part(s, c)
  }

  ghost predicate PartsOk(k: Parts)
  {
    match k
    case Whole(_, n) => n > 0
    case Pair(i, f, s, pairs) =>
      && |pairs| > 0
      && PartsOk(f) && PartsOk(s)
      && i !in Comps(f) && i !in Comps(s) && Comps(f) !! Comps(s)
      && forall p :: 0 <= p < |pairs| ==> pairs[p].0 < Size(f) && pairs[p].1 < Size(s)
  }

  /** x gives every half the signature that its merged node's pair prescribes. */
  ghost predicate Obeys(k: Parts, x: Assign)
  {
    && At(x, k.id) < Size(k)
    && match k
       case Whole(_, _) => true
       case Pair(i, f, s, pairs) =>
         && At(x, f.id) == pairs[At(x, i)].0
         && At(x, s.id) == pairs[At(x, i)].1
         && Obeys(f, x) && Obeys(s, x)
  }

  /** The parts for a name that belongs to one of two nodes. */
  function Pick(k: Parts, l: Parts, c: Id): Parts {
    if c in Comps(k) then Part(k, c) else Part(l, c)
  }

  lemma {:induction false} PartFacts(k: Parts, c: Id)
    requires PartsOk(k) && c in Comps(k)
    ensures PartsOk(Part(k, c)) && Part(k, c).id == c && Comps(Part(k, c)) <= Comps(k)
    decreases k
  {
    if c != k.id {
      match k
      case Whole(_, _) =>
      case Pair(_, f, s, _) =>
        if c in Comps(f) { PartFacts(f, c); } else { PartFacts(s, c); }
    }
  }

  /** Under an obedient assignment the component table gives each component its own signature. */
  lemma {:induction false} ComponentAgrees(k: Parts, x: Assign, c: Id)
    requires PartsOk(k) && Obeys(k, x) && c in Comps(k)
    ensures At(x, c) == Comp(k, At(x, k.id), c)
    ensures Obeys(Part(k, c), x)
    decreases k
  {
    if c != k.id {
      match k
      case Whole(_, _) =>
      case Pair(_, f, s, _) =>
        if c in Comps(f) { ComponentAgrees(f, x, c); } else { ComponentAgrees(s, x, c); }
    }
  }

  lemma {:induction false} ComponentInRange(k: Parts, i: Sig, c: Id)
    requires PartsOk(k) && i < Size(k) && c in Comps(k)
    ensures Comp(k, i, c) < Size(Part(k, c))
    decreases k
  {
    if c != k.id {
      match k
      case Whole(_, _) =>
      case Pair(_, f, s, pairs) =>
        if c in Comps(f) { ComponentInRange(f, pairs[i].0, c); } else { ComponentInRange(s, pairs[i].1, c); }
    }
  }

  // ----- costs -----

  function Cell(t: Table, i: Sig, j: Sig): real {
    if i < |t| && j < |t[i]| then t[i][j] else 0.0
  }

  function MemoryCell(t: seq<seq<int>>, i: Sig, j: Sig): int {
    if i < |t| && j < |t[i]| then t[i][j] else 0
  }

  /** time cost + memory ratio * memory. */
  function Weigh(time: real, memory: int, ratio: real): real { time + ratio * (memory as real) }

  function OriginCost(time: seq<real>, memory: seq<int>, i: Sig, ratio: real): real {
    Weigh(if i < |time| then time[i] else 0.0, if i < |memory| then memory[i] else 0, ratio)
  }

  function BareCost(time: Table, memory: seq<seq<int>>, i: Sig, j: Sig, ratio: real): real {
    Weigh(Cell(time, i, j), MemoryCell(memory, i, j), ratio)
  }

  // The original cost carried by an object: what the original nodes and edges inside it
  // cost under x, however deep they have been swallowed.

  ghost function NodeBase(n: Node, x: Assign, ratio: real): real
    decreases n, 1
  {
    BodyBase(n, x, ratio) + ChildrenBase(n.children, x, ratio)
  }

  ghost function BodyBase(n: Node, x: Assign, ratio: real): real
    decreases n, 0
  {
    match n.body
    case Origin(time, memory) => OriginCost(time, memory, At(x, n.id), ratio)
    case Merged(f, s, _, inner) =>
      NodeBase(f, x, ratio) + NodeBase(s, x, ratio)
      + (if inner.Some? then EdgeBase(inner.value, x, ratio) else 0.0)
  }

  ghost function ChildrenBase(cs: seq<Child>, x: Assign, ratio: real): real
    decreases cs
  {
    if cs == [] then 0.0 else
      var c := cs[|cs| - 1];
      ChildrenBase(cs[..|cs| - 1], x, ratio) + (NodeBase(c.node, x, ratio) + EdgeBase(c.edge, x, ratio))
  }

  ghost function EdgeBase(e: Edge, x: Assign, ratio: real): real
    decreases e
  {
    match e.body
    case Bare(time, memory) => BareCost(time, memory, At(x, e.start), At(x, e.end), ratio)
    case Parallel(list) => ListBase(list, x, ratio)
    case Through(mid, a, b, _) => NodeBase(mid, x, ratio) + EdgeBase(a, x, ratio) + EdgeBase(b, x, ratio)
  }

  ghost function ListBase(es: seq<Edge>, x: Assign, ratio: real): real
    decreases es
  {
    if es == [] then 0.0 else
      ListBase(es[..|es| - 1], x, ratio) + EdgeBase(es[|es| - 1], x, ratio)
  }

  // ----- what a table entry means in terms of the tables of the objects it summarises -----

  /** The share of an edge between mid and a component of k, when k has signature i. */
  function SideCost(a: Edge, mid: Id, k: Parts, i: Sig, m: Sig): real {
    if a.end == mid then Cell(a.cost, Comp(k, i, a.start), m) else Cell(a.cost, m, Comp(k, i, a.end))
  }

  function ThroughCost(mid: Node, a: Edge, b: Edge, s: Parts, t: Parts, i: Sig, m: Sig, j: Sig): real {
    (if m < |mid.cost| then mid.cost[m] else 0.0) + SideCost(a, mid.id, s, i, m) + SideCost(b, mid.id, t, j, m)
  }

  function PartCost(a: Edge, s: Parts, t: Parts, i: Sig, j: Sig): real {
    if a.start in Comps(s) then Cell(a.cost, Comp(s, i, a.start), Comp(t, j, a.end))
    else Cell(a.cost, Comp(t, j, a.start), Comp(s, i, a.end))
  }

  function ListCost(es: seq<Edge>, s: Parts, t: Parts, i: Sig, j: Sig): real
  {
    if es == [] then 0.0 else
      ListCost(es[..|es| - 1], s, t, i, j) + PartCost(es[|es| - 1], s, t, i, j)
  }

  function ChildCost(c: Child, i: Sig, m: Sig): real {
    (if c.edge.end == c.node.id then Cell(c.edge.cost, i, m) else Cell(c.edge.cost, m, i))
    + (if m < |c.node.cost| then c.node.cost[m] else 0.0)
  }

  function ChildrenCost(cs: seq<Child>, i: Sig): real
  {
    if cs == [] then 0.0 else
      var c := cs[|cs| - 1];
      ChildrenCost(cs[..|cs| - 1], i) + ChildCost(c, i, if i < |c.sig| then c.sig[i] else 0)
  }

  /** The cost of a node before any child is added. */
  function BodyCost(n: Node, i: Sig, ratio: real): real {
    match n.body
    case Origin(time, memory) => OriginCost(time, memory, i, ratio)
    case Merged(f, s, pairs, inner) =>
      if i < |pairs| && pairs[i].0 < |f.cost| && pairs[i].1 < |s.cost| then
        f.cost[pairs[i].0] + s.cost[pairs[i].1] + (if inner.Some? then Cell(inner.value.cost, i, i) else 0.0)
      else 0.0
  }

  // ----- shape: sizes and endpoints, independent of the costs -----

  ghost predicate Sized<T>(t: seq<seq<T>>, rows: nat, columns: nat) {
    |t| == rows && forall i :: 0 <= i < |t| ==> |t[i]| == columns
  }

  ghost predicate Below(t: seq<seq<Sig>>, bound: nat) {
    forall i, j :: 0 <= i < |t| && 0 <= j < |t[i]| ==> t[i][j] < bound
  }

  /** One end of a is the node i and the other end is one of ids. */
  predicate Ties(a: Edge, i: Id, ids: set<Id>) {
    || (a.end == i && a.start in ids)
    || (a.start == i && a.end in ids)
  }

  ghost predicate ShapeNode(n: Node)
    decreases n
  {
    && |n.cost| > 0
    && |n.cost| == Size(PartsOf(n))
    && PartsOk(PartsOf(n))
    && (match n.body
        case Origin(time, _) => |time| == |n.cost|
        case Merged(f, s, pairs, inner) =>
          && ShapeNode(f) && ShapeNode(s)
          && (inner.Some? ==> ShapeEdge(inner.value, PartsOf(n), PartsOf(n))))
    && forall c :: c in n.children ==>
         && ShapeNode(c.node)
         && Comps(PartsOf(c.node)) !! Comps(PartsOf(n))
         && |c.sig| == |n.cost|
         && (forall i :: 0 <= i < |c.sig| ==> c.sig[i] < |c.node.cost|)
         && Ties(c.edge, c.node.id, {n.id})
         && ShapeEdge(c.edge, Pick(PartsOf(n), PartsOf(c.node), c.edge.start),
                      Pick(PartsOf(n), PartsOf(c.node), c.edge.end))
  }

  /** The two ends of a are a component of k and a component of l. */
  predicate Joins(a: Edge, k: Parts, l: Parts) {
    || (a.start in Comps(k) && a.end in Comps(l))
    || (a.start in Comps(l) && a.end in Comps(k))
  }

  ghost predicate ShapeEdge(e: Edge, s: Parts, t: Parts)
    decreases e
  {
    && e.start == s.id && e.end == t.id
    && PartsOk(s) && PartsOk(t)
    && (s == t || Comps(s) !! Comps(t))
    && Sized(e.cost, Size(s), Size(t))
    && match e.body
       case Bare(time, memory) =>
         Sized(time, Size(s), Size(t)) && (memory == [] || Sized(memory, Size(s), Size(t)))
       case Parallel(list) =>
         forall a :: a in list ==>
           && Joins(a, s, t)
           && ShapeEdge(a, Pick(s, t, a.start), Pick(s, t, a.end))
       case Through(mid, a, b, sig) =>
         var m := PartsOf(mid);
         && ShapeNode(mid) && Sized(sig, Size(s), Size(t)) && Below(sig, |mid.cost|)
         && Comps(m) !! Comps(s) && Comps(m) !! Comps(t)
         && Ties(a, mid.id, Comps(s))
         && Ties(b, mid.id, Comps(t))
         && ShapeEdge(a, Pick(s, m, a.start), Pick(s, m, a.end))
         && ShapeEdge(b, Pick(t, m, b.start), Pick(t, m, b.end))
  }

  // ----- fresh: every table agrees with the tables below it at the given memory ratio -----

  /** The entries of an edge table that are meaningful: all of them, or only the diagonal
      once both ends have been merged into the same node. */
  predicate Meant(s: Parts, t: Parts, i: int, j: int) {
    0 <= i < Size(s) && 0 <= j < Size(t) && (s == t ==> i == j)
  }

  /** No signature of the child is cheaper than best when the father has signature i. */
  ghost predicate ChildBest(c: Child, i: Sig, best: Sig) {
    && best < |c.node.cost|
    && forall m :: 0 <= m < |c.node.cost| ==> ChildCost(c, i, best) <= ChildCost(c, i, m)
  }

  ghost predicate ChildFresh(n: Node, c: Child) {
    && |c.sig| == |n.cost|
    && forall i :: 0 <= i < |n.cost| ==> ChildBest(c, i, c.sig[i])
  }

  ghost predicate NodeFreshHere(n: Node, ratio: real) {
    && (forall i :: 0 <= i < |n.cost| ==> n.cost[i] == BodyCost(n, i, ratio) + ChildrenCost(n.children, i))
    && forall c :: c in n.children ==> ChildFresh(n, c)
  }

  ghost predicate FreshNode(n: Node, ratio: real)
    decreases n
  {
    && NodeFreshHere(n, ratio)
    && (match n.body
        case Origin(_, _) => true
        case Merged(f, s, _, inner) =>
          && FreshNode(f, ratio) && FreshNode(s, ratio)
          && (inner.Some? ==> FreshEdge(inner.value, PartsOf(n), PartsOf(n), ratio)))
    && forall c :: c in n.children ==>
         && FreshNode(c.node, ratio)
         && FreshEdge(c.edge, Pick(PartsOf(n), PartsOf(c.node), c.edge.start),
                      Pick(PartsOf(n), PartsOf(c.node), c.edge.end), ratio)
  }

  ghost predicate ThroughFresh(e: Edge, s: Parts, t: Parts)
    requires e.body.Through?
  {
    && Sized(e.cost, Size(s), Size(t)) && Sized(e.body.sig, Size(s), Size(t))
    && (forall i, j :: Meant(s, t, i, j) ==>
          && e.body.sig[i][j] < |e.body.mid.cost|
          && e.cost[i][j] == ThroughCost(e.body.mid, e.body.first, e.body.second, s, t, i, e.body.sig[i][j], j))
    && forall i, j, m :: Meant(s, t, i, j) && 0 <= m < |e.body.mid.cost| ==>
         e.cost[i][j] <= ThroughCost(e.body.mid, e.body.first, e.body.second, s, t, i, m, j)
  }

  ghost predicate EdgeFreshHere(e: Edge, s: Parts, t: Parts, ratio: real) {
    match e.body
    case Bare(time, memory) =>
      forall i, j :: Meant(s, t, i, j) ==> Cell(e.cost, i, j) == BareCost(time, memory, i, j, ratio)
    case Parallel(list) =>
      forall i, j :: Meant(s, t, i, j) ==> Cell(e.cost, i, j) == ListCost(list, s, t, i, j)
    case Through(_, _, _, _) => ThroughFresh(e, s, t)
  }

  ghost predicate FreshEdge(e: Edge, s: Parts, t: Parts, ratio: real)
    decreases e
  {
    && EdgeFreshHere(e, s, t, ratio)
    && match e.body
       case Bare(_, _) => true
       case Parallel(list) =>
         forall a :: a in list ==> FreshEdge(a, Pick(s, t, a.start), Pick(s, t, a.end), ratio)
       case Through(mid, a, b, _) =>
         var m := PartsOf(mid);
         && FreshNode(mid, ratio)
         && FreshEdge(a, Pick(s, m, a.start), Pick(s, m, a.end), ratio)
         && FreshEdge(b, Pick(t, m, b.start), Pick(t, m, b.end), ratio)
  }

  // ----- assignments -----

  /** x gives every node inside n a signature it has, and obeys every merge inside n. */
  ghost predicate LegalNode(n: Node, x: Assign)
    decreases n
  {
    && Obeys(PartsOf(n), x)
    && (match n.body
        case Origin(_, _) => true
        case Merged(f, s, _, inner) =>
          LegalNode(f, x) && LegalNode(s, x) && (inner.Some? ==> LegalEdge(inner.value, x)))
    && forall c :: c in n.children ==> LegalNode(c.node, x) && LegalEdge(c.edge, x)
  }

  ghost predicate LegalEdge(e: Edge, x: Assign)
    decreases e
  {
    match e.body
    case Bare(_, _) => true
    case Parallel(list) => forall a :: a in list ==> LegalEdge(a, x)
    case Through(mid, a, b, _) => LegalNode(mid, x) && LegalEdge(a, x) && LegalEdge(b, x)
  }

  /** x follows every choice recorded inside n: pairs of halves, children and mid nodes. */
  ghost predicate SettledNode(n: Node, x: Assign)
    decreases n
  {
    && (match n.body
        case Origin(_, _) => true
        case Merged(f, s, pairs, inner) =>
          && At(x, n.id) < |pairs|
          && At(x, f.id) == pairs[At(x, n.id)].0 && At(x, s.id) == pairs[At(x, n.id)].1
          && SettledNode(f, x) && SettledNode(s, x)
          && (inner.Some? ==> SettledEdge(inner.value, x)))
    && forall c :: c in n.children ==>
         && At(x, n.id) < |c.sig| && At(x, c.node.id) == c.sig[At(x, n.id)]
         && SettledNode(c.node, x) && SettledEdge(c.edge, x)
  }

  ghost predicate SettledEdge(e: Edge, x: Assign)
    decreases e
  {
    match e.body
    case Bare(_, _) => true
    case Parallel(list) => forall a :: a in list ==> SettledEdge(a, x)
    case Through(mid, a, b, sig) =>
      && At(x, e.start) < |sig| && At(x, e.end) < |sig[At(x, e.start)]|
      && At(x, mid.id) == sig[At(x, e.start)][At(x, e.end)]
      && SettledNode(mid, x) && SettledEdge(a, x) && SettledEdge(b, x)
  }
}
