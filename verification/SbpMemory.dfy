/** The memory in the costs: every original cost is its time plus the memory ratio times its
    memory, however deep the nodes and edges have been swallowed. */
module SbpMemory {
  import opened Sums
  import opened SbpForest
  import opened SbpSteps
  import opened SbpRun
  import opened SbpCharges
  import opened SbpMerge
  import opened SbpComplete

  // The original memory carried by an object.

  ghost function NodeMemory(n: Node, x: Assign): real
    decreases n, 1
  {
    BodyMemory(n, x) + ChildrenMemory(n.children, x)
  }

  ghost function BodyMemory(n: Node, x: Assign): real
    decreases n, 0
  {
    match n.body
    case Origin(_, memory) => if At(x, n.id) < |memory| then memory[At(x, n.id)] as real else 0.0
    case Merged(f, s, _, inner) =>
      NodeMemory(f, x) + NodeMemory(s, x) + (if inner.Some? then EdgeMemory(inner.value, x) else 0.0)
  }

  ghost function ChildrenMemory(cs: seq<Child>, x: Assign): real
    decreases cs
  {
    if cs == [] then 0.0 else
      var c := cs[|cs| - 1];
      ChildrenMemory(cs[..|cs| - 1], x) + (NodeMemory(c.node, x) + EdgeMemory(c.edge, x))
  }

  ghost function EdgeMemory(e: Edge, x: Assign): real
    decreases e
  {
    match e.body
    case Bare(_, memory) => MemoryCell(memory, At(x, e.start), At(x, e.end)) as real
    case Parallel(list) => ListMemory(list, x)
    case Through(mid, a, b, _) => NodeMemory(mid, x) + EdgeMemory(a, x) + EdgeMemory(b, x)
  }

  ghost function ListMemory(es: seq<Edge>, x: Assign): real
    decreases es
  {
    if es == [] then 0.0 else ListMemory(es[..|es| - 1], x) + EdgeMemory(es[|es| - 1], x)
  }

  // ----- cost is time plus ratio times memory -----

  ghost predicate Affine(base: real, none: real, ratio: real, memory: real) { base == none + Times(ratio, memory) }

  lemma AffineBoth(a: real, a0: real, m: real, b: real, b0: real, n: real, ratio: real)
    requires Affine(a, a0, ratio, m) && Affine(b, b0, ratio, n)
    ensures Affine(a + b, a0 + b0, ratio, m + n)
  {
    hide Times;
    TimesSum(ratio, m, n);
  }

  lemma AffineNothing(ratio: real)
    ensures Affine(0.0, 0.0, ratio, 0.0)
  {
  }

  lemma WeighIs(time: real, memory: int, ratio: real)
    ensures Affine(Weigh(time, memory, ratio), Weigh(time, memory, 0.0), ratio, memory as real)
  {
  }

  lemma {:induction false} NodeAffine(n: Node, x: Assign, r: real)
    ensures Affine(NodeBase(n, x, r), NodeBase(n, x, 0.0), r, NodeMemory(n, x))
    decreases n, 1
  {
    hide Affine;
    BodyAffine(n, x, r);
    ChildrenAffine(n.children, x, r);
    AffineBoth(BodyBase(n, x, r), BodyBase(n, x, 0.0), BodyMemory(n, x),
               ChildrenBase(n.children, x, r), ChildrenBase(n.children, x, 0.0), ChildrenMemory(n.children, x), r);
  }

  lemma {:induction false} BodyAffine(n: Node, x: Assign, r: real)
    ensures Affine(BodyBase(n, x, r), BodyBase(n, x, 0.0), r, BodyMemory(n, x))
    decreases n, 0
  {
    hide Affine;
    match n.body
    case Origin(time, memory) =>
      var i := At(x, n.id);
      WeighIs(if i < |time| then time[i] else 0.0, if i < |memory| then memory[i] else 0, r);
    case Merged(f, s, _, inner) =>
      NodeAffine(f, x, r);
      NodeAffine(s, x, r);
      AffineBoth(NodeBase(f, x, r), NodeBase(f, x, 0.0), NodeMemory(f, x),
                 NodeBase(s, x, r), NodeBase(s, x, 0.0), NodeMemory(s, x), r);
      if inner.Some? {
        var e := inner.value;
        EdgeAffine(e, x, r);
        AffineBoth(NodeBase(f, x, r) + NodeBase(s, x, r), NodeBase(f, x, 0.0) + NodeBase(s, x, 0.0),
                   NodeMemory(f, x) + NodeMemory(s, x), EdgeBase(e, x, r), EdgeBase(e, x, 0.0), EdgeMemory(e, x), r);
      }
  }

  lemma {:induction false} ChildrenAffine(cs: seq<Child>, x: Assign, r: real)
    ensures Affine(ChildrenBase(cs, x, r), ChildrenBase(cs, x, 0.0), r, ChildrenMemory(cs, x))
    decreases cs
  {
    if cs == [] {
      AffineNothing(r);
    } else {
      hide Affine;
      var k := |cs| - 1;
      var less, n, e := cs[..k], cs[k].node, cs[k].edge;
      ChildrenAffine(less, x, r);
      NodeAffine(n, x, r);
      EdgeAffine(e, x, r);
      AffineBoth(NodeBase(n, x, r), NodeBase(n, x, 0.0), NodeMemory(n, x),
                 EdgeBase(e, x, r), EdgeBase(e, x, 0.0), EdgeMemory(e, x), r);
      AffineBoth(ChildrenBase(less, x, r), ChildrenBase(less, x, 0.0), ChildrenMemory(less, x),
                 NodeBase(n, x, r) + EdgeBase(e, x, r), NodeBase(n, x, 0.0) + EdgeBase(e, x, 0.0),
                 NodeMemory(n, x) + EdgeMemory(e, x), r);
    }
  }

  lemma {:induction false} EdgeAffine(e: Edge, x: Assign, r: real)
    ensures Affine(EdgeBase(e, x, r), EdgeBase(e, x, 0.0), r, EdgeMemory(e, x))
    decreases e
  {
    hide Affine;
    match e.body
    case Bare(time, memory) =>
      var i, j := At(x, e.start), At(x, e.end);
      WeighIs(Cell(time, i, j), MemoryCell(memory, i, j), r);
    case Parallel(list) => ListAffine(list, x, r);
    case Through(mid, a, b, _) =>
      NodeAffine(mid, x, r);
      EdgeAffine(a, x, r);
      EdgeAffine(b, x, r);
      AffineBoth(NodeBase(mid, x, r), NodeBase(mid, x, 0.0), NodeMemory(mid, x),
                 EdgeBase(a, x, r), EdgeBase(a, x, 0.0), EdgeMemory(a, x), r);
      AffineBoth(NodeBase(mid, x, r) + EdgeBase(a, x, r), NodeBase(mid, x, 0.0) + EdgeBase(a, x, 0.0),
                 NodeMemory(mid, x) + EdgeMemory(a, x), EdgeBase(b, x, r), EdgeBase(b, x, 0.0), EdgeMemory(b, x), r);
  }

  lemma {:induction false} ListAffine(es: seq<Edge>, x: Assign, r: real)
    ensures Affine(ListBase(es, x, r), ListBase(es, x, 0.0), r, ListMemory(es, x))
    decreases es
  {
    if es == [] {
      AffineNothing(r);
    } else {
      hide Affine;
      var k := |es| - 1;
      ListAffine(es[..k], x, r);
      EdgeAffine(es[k], x, r);
      AffineBoth(ListBase(es[..k], x, r), ListBase(es[..k], x, 0.0), ListMemory(es[..k], x),
                 EdgeBase(es[k], x, r), EdgeBase(es[k], x, 0.0), EdgeMemory(es[k], x), r);
    }
  }

  // ----- the graph -----

  ghost function NodeMemories(x: Assign): Node -> real { n => NodeMemory(n, x) }

  ghost function EdgeMemories(x: Assign): Edge -> real { e => EdgeMemory(e, x) }

  /** The memory of the original nodes and edges, wherever they are now. */
  ghost function GraphMemory(g: Graph, x: Assign): real { Total(g, NodeMemories(x), EdgeMemories(x)) }

  lemma {:induction false} SumAffine(s: set<nat>, f: nat -> real, f0: nat -> real, m: nat -> real, r: real)
    requires forall i :: i in s ==> Affine(f(i), f0(i), r, m(i))
    ensures Affine(Sum(s, f), Sum(s, f0), r, Sum(s, m))
    decreases s
  {
    if s == {} {
      AffineNothing(r);
    } else {
      hide Affine;
      var i :| i in s;
      SumTake(s, i, f);
      SumTake(s, i, f0);
      SumTake(s, i, m);
      SumAffine(s - {i}, f, f0, m, r);
      AffineBoth(f(i), f0(i), m(i), Sum(s - {i}, f), Sum(s - {i}, f0), Sum(s - {i}, m), r);
    }
  }

  lemma GraphAffine(g: Graph, x: Assign, r: real)
    ensures Affine(GraphBase(g, x, r), GraphBase(g, x, 0.0), r, GraphMemory(g, x))
  {
    hide Affine, NodeBase, EdgeBase, NodeMemory, EdgeMemory, Sum;
    var n, n0, nm := NodeTerm(g, NodeBases(x, r)), NodeTerm(g, NodeBases(x, 0.0)), NodeTerm(g, NodeMemories(x));
    var e, e0, em := EdgeTerm(g, EdgeBases(x, r)), EdgeTerm(g, EdgeBases(x, 0.0)), EdgeTerm(g, EdgeMemories(x));
    forall i | i in g.node.Keys ensures Affine(n(i), n0(i), r, nm(i)) { NodeAffine(g.node[i], x, r); }
    forall k | k in g.edge.Keys ensures Affine(e(k), e0(k), r, em(k)) { EdgeAffine(g.edge[k], x, r); }
    SumAffine(g.node.Keys, n, n0, nm, r);
    SumAffine(g.edge.Keys, e, e0, em, r);
    AffineBoth(Sum(g.node.Keys, n), Sum(g.node.Keys, n0), Sum(g.node.Keys, nm),
               Sum(g.edge.Keys, e), Sum(g.edge.Keys, e0), Sum(g.edge.Keys, em), r);
  }

  /** The original cost at a memory ratio is the cost at ratio 0 plus the ratio times the memory. */
  lemma CostIsTimeAndMemory(g: Graph, x: Assign, r: real)
    ensures GraphBase(g, x, r) - GraphBase(g, x, 0.0) == r * GraphMemory(g, x)
  {
    hide GraphBase, GraphMemory;
    GraphAffine(g, x, r);
  }

  /** No run of steps loses or invents memory. */
  lemma MemoryConserved(gs: seq<Graph>, steps: seq<Step>, n: nat, x: Assign, ratio: real)
    requires Run(gs, steps) && n < |gs| && Good(gs[0], ratio) && Legal(gs[n], x)
    ensures GraphMemory(gs[n], x) == GraphMemory(gs[0], x)
  {
    hide Run, Good, Legal, GraphBase, GraphMemory;
    RunConserves(gs, steps, n, x, ratio, 0.0);
    RunConserves(gs, steps, n, x, ratio, 1.0);
    CostIsTimeAndMemory(gs[0], x, 1.0);
    CostIsTimeAndMemory(gs[n], x, 1.0);
  }

  // ----- original graphs -----

  lemma PlainNode(n: Node, x: Assign, r: real)
    requires n.body.Origin? && n.children == []
    ensures NodeBase(n, x, r) == OriginCost(n.body.time, n.body.memory, At(x, n.id), r)
    ensures NodeMemory(n, x) == if At(x, n.id) < |n.body.memory| then n.body.memory[At(x, n.id)] as real else 0.0
  {
    assert ChildrenBase(n.children, x, r) == 0.0 && ChildrenMemory(n.children, x) == 0.0;
  }

  ghost function TimeAt(g: Graph, x: Assign): nat -> real {
    (i: nat) =>
      if i in g.node && g.node[i].body.Origin? && At(x, g.node[i].id) < |g.node[i].body.time|
      then g.node[i].body.time[At(x, g.node[i].id)] else 0.0
  }

  ghost function MemoryAt(g: Graph, x: Assign): nat -> real {
    (i: nat) =>
      if i in g.node && g.node[i].body.Origin? && At(x, g.node[i].id) < |g.node[i].body.memory|
      then g.node[i].body.memory[At(x, g.node[i].id)] as real else 0.0
  }

  ghost function CopyTime(g: Graph, x: Assign): nat -> real {
    (k: nat) =>
      if k in g.edge && g.edge[k].body.Bare?
      then Cell(g.edge[k].body.time, At(x, g.edge[k].start), At(x, g.edge[k].end)) else 0.0
  }

  ghost function CopyMemory(g: Graph, x: Assign): nat -> real {
    (k: nat) =>
      if k in g.edge && g.edge[k].body.Bare?
      then MemoryCell(g.edge[k].body.memory, At(x, g.edge[k].start), At(x, g.edge[k].end)) as real else 0.0
  }

  /** Of a graph of original nodes and edges: all computation and copy times, and the ratio times all
      the memory, at the signatures held. */
  lemma OriginalBase(g: Graph, x: Assign, r: real)
    requires Original(g)
    ensures GraphBase(g, x, r) == Sum(g.node.Keys, TimeAt(g, x)) + Sum(g.edge.Keys, CopyTime(g, x))
                                  + r * (Sum(g.node.Keys, MemoryAt(g, x)) + Sum(g.edge.Keys, CopyMemory(g, x)))
  {
    hide Sum;
    CostIsTimeAndMemory(g, x, r);
    forall i | i in g.node.Keys
      ensures NodeTerm(g, NodeBases(x, 0.0))(i) == TimeAt(g, x)(i)
      ensures NodeTerm(g, NodeMemories(x))(i) == MemoryAt(g, x)(i)
    {
      PlainNode(g.node[i], x, 0.0);
    }
    SumSame(g.node.Keys, NodeTerm(g, NodeBases(x, 0.0)), TimeAt(g, x));
    SumSame(g.node.Keys, NodeTerm(g, NodeMemories(x)), MemoryAt(g, x));
    forall k | k in g.edge.Keys
      ensures EdgeTerm(g, EdgeBases(x, 0.0))(k) == CopyTime(g, x)(k)
      ensures EdgeTerm(g, EdgeMemories(x))(k) == CopyMemory(g, x)(k)
    {}
    SumSame(g.edge.Keys, EdgeTerm(g, EdgeBases(x, 0.0)), CopyTime(g, x));
    SumSame(g.edge.Keys, EdgeTerm(g, EdgeMemories(x)), CopyMemory(g, x));
  }

  /** With no negative memory a larger ratio makes nothing cheaper. */
  lemma DearerAtLargerRatio(g: Graph, x: Assign, r: real, s: real)
    requires Original(g) && Charged(g) && r <= s
    ensures GraphBase(g, x, r) <= GraphBase(g, x, s)
  {
    hide Sum, GraphBase;
    OriginalBase(g, x, r);
    OriginalBase(g, x, s);
    forall i | i in g.node.Keys ensures 0.0 <= MemoryAt(g, x)(i) { assert ChargedNode(g.node[i]); }
    forall k | k in g.edge.Keys ensures 0.0 <= CopyMemory(g, x)(k) { assert ChargedEdge(g.edge[k]); }
    SumNonNegative(g.node.Keys, MemoryAt(g, x));
    SumNonNegative(g.edge.Keys, CopyMemory(g, x));
    Raised(r, s, Sum(g.node.Keys, MemoryAt(g, x)) + Sum(g.edge.Keys, CopyMemory(g, x)));
  }

  lemma Raised(r: real, s: real, m: real)
    requires r <= s && 0.0 <= m
    ensures r * m <= s * m
  {
  }

  /** Only the signatures of the nodes matter. */
  lemma OriginalAgrees(g: Graph, x: Assign, y: Assign, r: real)
    requires Original(g) && Wired(g) && Agree(x, y, g.node.Keys)
    ensures GraphBase(g, x, r) == GraphBase(g, y, r)
  {
    hide Sum;
    forall k | k in g.edge.Keys ensures EdgeTerm(g, EdgeBases(x, r))(k) == EdgeTerm(g, EdgeBases(y, r))(k) {
      assert g.edge[k].start in g.node.Keys && g.edge[k].end in g.node.Keys;
    }
    SumSame(g.edge.Keys, EdgeTerm(g, EdgeBases(x, r)), EdgeTerm(g, EdgeBases(y, r)));
    forall i | i in g.node.Keys ensures NodeTerm(g, NodeBases(x, r))(i) == NodeTerm(g, NodeBases(y, r))(i) {
      PlainNode(g.node[i], x, r);
      PlainNode(g.node[i], y, r);
    }
    SumSame(g.node.Keys, NodeTerm(g, NodeBases(x, r)), NodeTerm(g, NodeBases(y, r)));
  }
}
