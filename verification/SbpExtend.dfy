/** Undoing a run on assignments: every choice of live signatures has a completion whose original
    cost is the reduced cost, so the reduced cost is the least original cost. */
module SbpExtend {
  import opened Wrappers
  import opened SbpForest
  import opened SbpOwnership
  import opened SbpSteps
  import opened SbpObjects
  import opened SbpMerge
  import opened SbpConserve
  import opened SbpReduction
  import opened SbpRun
  import opened SbpComplete

  // ----- one step back: what was swallowed takes the recorded signature -----

  lemma FoldBack(g: Graph, n: Id, a: Id, b: Id, e: Edge, h: Graph, x: Assign) returns (y: Assign)
    requires Sound(g) && FoldStep(g, n, a, b, e, h) && Sigs(h, x)
    ensures Sigs(g, y) && Agree(x, y, h.node.Keys) && GraphCost(g, y) == GraphCost(h, y)
  {
    hide Sound, FoldStep, FoldMoves, ThroughFresh, GraphCost, Sigs;
    var m := FoldCell(g, n, a, b, e, h, x);
    y := x[n := m];
    FoldSigs(g, n, a, b, e, h, x, m);
    FoldSum(g, n, a, b, e, h, y);
  }

  /** The recorded signature of the mid node, and what it costs. */
  lemma FoldCell(g: Graph, n: Id, a: Id, b: Id, e: Edge, h: Graph, x: Assign) returns (m: Sig)
    requires Sound(g) && FoldStep(g, n, a, b, e, h) && Sigs(h, x)
    ensures n in g.node && a in g.edge && b in g.edge && m < |g.node[n].cost|
    ensures EdgeCell(e, x[n := m]) == NodeCell(g.node[n], x[n := m]) + EdgeCell(g.edge[a], x[n := m])
            + EdgeCell(g.edge[b], x[n := m])
  {
    hide Sound, ShapeNode, ThroughFresh, PartsOf, Size, EdgeCell, NodeCell;
    FoldEnds(g, n, a, b, e, h);
    Rooted(g, n);
    Rooted(g, e.start);
    Rooted(g, e.end);
    assert e.start in h.node && e.end in h.node && h.node[e.start] == g.node[e.start] && h.node[e.end] == g.node[e.end];
    m := ThroughAt(e, PartsOf(g.node[e.start]), PartsOf(g.node[e.end]), x);
  }

  lemma ThroughAt(e: Edge, s: Parts, t: Parts, x: Assign) returns (m: Sig)
    requires e.body.Through? && ThroughFresh(e, s, t) && e.start == s.id && e.end == t.id && s.id != t.id
    requires var n := e.body.mid.id;
             && Between(e.body.first, s.id, n) && Between(e.body.second, t.id, n) && n != s.id
             && n != t.id
    requires At(x, s.id) < Size(s) && At(x, t.id) < Size(t)
    ensures m < |e.body.mid.cost|
    ensures var y := x[e.body.mid.id := m];
            EdgeCell(e, y) == NodeCell(e.body.mid, y) + EdgeCell(e.body.first, y) + EdgeCell(e.body.second, y)
  {
    var i, j := At(x, s.id), At(x, t.id);
    assert Meant(s, t, i, j);
    m := e.body.sig[i][j];
  }

  lemma Rooted(g: Graph, i: Id)
    requires Sound(g) && i in g.node
    ensures g.node[i].id == i && PartsOf(g.node[i]).id == i && Size(PartsOf(g.node[i])) == |g.node[i].cost|
    ensures i in Comps(PartsOf(g.node[i]))
  {
    LiveNode(g, i);
  }

  lemma FoldEnds(g: Graph, n: Id, a: Id, b: Id, e: Edge, h: Graph)
    requires Sound(g) && FoldStep(g, n, a, b, e, h)
    ensures Between(g.edge[a], e.start, n) && Between(g.edge[b], e.end, n) && e.start != n && e.end != n
            && e.start != e.end
  {
    LiveEdge(g, a);
    LiveEdge(g, b);
    hide Sound, ThroughFresh;
    assert Touches(g.edge[a], n) && Touches(g.edge[b], n);
  }

  lemma FoldSigs(g: Graph, n: Id, a: Id, b: Id, e: Edge, h: Graph, x: Assign, m: Sig)
    requires FoldStep(g, n, a, b, e, h) && Sigs(h, x) && m < |g.node[n].cost|
    ensures Sigs(g, x[n := m]) && Agree(x, x[n := m], h.node.Keys)
  {
    hide ThroughFresh;
    forall i | i in g.node
      ensures At(x[n := m], i) < |g.node[i].cost|
    {
      assert i == n || (i in h.node && h.node[i] == g.node[i]);
    }
  }

  lemma FoldSum(g: Graph, n: Id, a: Id, b: Id, e: Edge, h: Graph, y: Assign)
    requires FoldStep(g, n, a, b, e, h) && EdgeCell(e, y) == NodeCell(g.node[n], y) + EdgeCell(g.edge[a], y)
             + EdgeCell(g.edge[b], y)
    ensures GraphCost(g, y) == GraphCost(h, y)
  {
    hide ThroughFresh;
    FoldTotal(g, n, a, b, e, h, NodeCells(y), EdgeCells(y));
  }

  /** Collapsing takes no node away. */
  lemma CollapseBack(g: Graph, ks: seq<Id>, e: Edge, h: Graph, x: Assign)
    requires Sound(g) && Owned(g) && CollapseStep(g, ks, e, h) && Sigs(h, x)
    ensures Sigs(g, x) && GraphCost(g, x) == GraphCost(h, x)
  {
    hide Sound, ShapeNode, ListCost, PartsOf, Size, EdgeCell, NodeCell, Comps, Unused, Owned;
    Rooted(g, e.start);
    Rooted(g, e.end);
    OwnedApart(g, e.start, e.end);
    forall d | d in e.body.list ensures Between(d, e.start, e.end) {
      var i :| 0 <= i < |ks| && e.body.list[i] == d;
      assert ks[i] in ks;
    }
    ParallelAt(e, PartsOf(g.node[e.start]), PartsOf(g.node[e.end]), x);
    CollapseTotal(g, ks, e, h, NodeCells(x), EdgeCells(x));
  }

  lemma ParallelAt(e: Edge, s: Parts, t: Parts, x: Assign)
    requires e.body.Parallel? && EdgeFreshHere(e, s, t, 0.0) && e.start == s.id && e.end == t.id && s.id != t.id
    requires s.id in Comps(s) && t.id in Comps(t) && Comps(s) !! Comps(t) && At(x, s.id) < Size(s)
             && At(x, t.id) < Size(t)
    requires forall a :: a in e.body.list ==> Between(a, s.id, t.id)
    ensures EdgeCell(e, x) == AlongList(e.body.list, EdgeCells(x))
  {
    hide ListCost;
    assert Meant(s, t, At(x, s.id), At(x, t.id));
    ListCells(e.body.list, s, t, x);
  }

  lemma {:induction false} ListCells(es: seq<Edge>, s: Parts, t: Parts, x: Assign)
    requires s.id != t.id && s.id in Comps(s) && t.id in Comps(t) && t.id !in Comps(s) && s.id !in Comps(t)
    requires forall a :: a in es ==> Between(a, s.id, t.id)
    ensures ListCost(es, s, t, At(x, s.id), At(x, t.id)) == AlongList(es, EdgeCells(x))
    decreases |es|
  {
    if es != [] {
      ListCells(es[..|es| - 1], s, t, x);
      assert Between(es[|es| - 1], s.id, t.id);
    }
  }

  /** The leaf takes the signature recorded for its father's. */
  lemma AbsorbBack(g: Graph, c: Id, k: Id, f: Id, father: Node, h: Graph, x: Assign) returns (y: Assign)
    requires Wired(g) && AbsorbMoves(g, c, k, f, father, h) && Swallowed(g.node[f], g.node[c], g.edge[k], father)
             && Between(g.edge[k], f, c)
    requires Sigs(h, x)
    ensures Sigs(g, y) && Agree(x, y, h.node.Keys) && GraphCost(g, y) == GraphCost(h, y)
  {
    hide GraphCost, ChildBest;
    assert f in h.node && h.node[f] == father;
    var child, i := father.children[|g.node[f].children|], At(x, f);
    y := x[c := child.sig[i]];
    assert ChildBest(child, i, child.sig[i]);
    BestInRange(child, i, child.sig[i]);
    forall j | j in g.node
      ensures At(y, j) < |g.node[j].cost|
    {
      assert j == c || j == f || (j in h.node && h.node[j] == g.node[j]);
    }
    assert NodeCell(father, y) == NodeCell(g.node[f], y) + ChildCost(child, i, child.sig[i]);
    assert ChildCost(child, i, child.sig[i]) == NodeCell(g.node[c], y) + EdgeCell(g.edge[k], y);
    AbsorbSum(g, c, k, f, father, h, y);
  }

  lemma BestInRange(c: Child, i: Sig, best: Sig)
    requires ChildBest(c, i, best)
    ensures best < |c.node.cost|
  {
  }

  lemma AbsorbSum(g: Graph, c: Id, k: Id, f: Id, father: Node, h: Graph, y: Assign)
    requires AbsorbMoves(g, c, k, f, father, h)
    requires NodeCell(father, y) == NodeCell(g.node[f], y) + (NodeCell(g.node[c], y) + EdgeCell(g.edge[k], y))
    ensures GraphCost(g, y) == GraphCost(h, y)
  {
    AbsorbTotal(g, c, k, f, father, h, NodeCells(y), EdgeCells(y));
  }

  /** The two halves take the pair of the merged node. */
  lemma MergeBack(g: Graph, f: Id, s: Id, common: Option<Id>, m: Node, h: Graph, x: Assign) returns (y: Assign)
    requires Wired(g) && MergeStep(g, f, s, common, m, h) && Sigs(h, x)
    ensures Sigs(g, y) && Agree(x, y, h.node.Keys) && GraphCost(g, y) == GraphCost(h, y)
            && PairFits(g.node[f], g.node[s], m, y)
  {
    hide GraphCost, Unused, Redirected, Copied, Kept;
    assert m.id in h.node && h.node[m.id] == m;
    var pair := m.body.pairs[At(x, m.id)];
    y := x[f := pair.0][s := pair.1];
    MergeSigs(g, f, s, common, m, h, x, y);
    MergedCell(g, f, s, common, m, y);
    forall k | k in h.edge ensures EdgeCell(h.edge[k], y) == EdgeCell(g.edge[k], y) {
      assert g.edge[k].start in g.node && g.edge[k].end in g.node && !Between(g.edge[k], f, s);
      RedirectedCell(g, g.edge[k], h.edge[k], f, s, m, y);
    }
    MergeSum(g, f, s, common, m, h, y);
  }

  lemma MergeSigs(g: Graph, f: Id, s: Id, common: Option<Id>, m: Node, h: Graph, x: Assign, y: Assign)
    requires Wired(g) && MergeMoves(g, f, s, common, m, h) && Joined(g.node[f], g.node[s], CommonEdge(g, common), m)
             && Sigs(h, x)
    requires At(x, m.id) < |m.body.pairs| && var pair := m.body.pairs[At(x, m.id)]; y == x[f := pair.0][s := pair.1]
    ensures Sigs(g, y) && Agree(x, y, h.node.Keys) && PairFits(g.node[f], g.node[s], m, y)
  {
    hide Copied;
    forall i | i in g.node
      ensures At(y, i) < |g.node[i].cost|
    {
      assert i == f || i == s || (i in h.node && h.node[i] == g.node[i]);
    }
  }

  lemma MergedCell(g: Graph, f: Id, s: Id, common: Option<Id>, m: Node, y: Assign)
    requires Wired(g) && f in g.node && s in g.node && IsCommon(g, f, s, common)
             && MergedNode(g.node[f], g.node[s], CommonEdge(g, common), m)
    requires PairFits(g.node[f], g.node[s], m, y) && f != s
    ensures NodeCell(m, y) == NodeCell(g.node[f], y) + NodeCell(g.node[s], y)
            + (if common.Some? then EdgeCell(g.edge[common.value], y) else 0.0)
  {
    hide Kept, Copied;
    var p := At(y, m.id);
    assert m.cost[p] == PairCost(g.node[f], g.node[s], CommonEdge(g, common), m.body.pairs[p].0, m.body.pairs[p].1);
  }

  lemma RedirectedCell(g: Graph, e: Edge, d: Edge, f: Id, s: Id, m: Node, y: Assign)
    requires m.body.Merged? && Redirected(e, d, f, s, m, Width(g, e, f, s)) && !Between(e, f, s) && Sigs(g, y)
             && e.start != e.end
    requires e.start in g.node && e.end in g.node && f in g.node && s in g.node && g.node[f].id == f
             && g.node[s].id == s
    requires PairFits(g.node[f], g.node[s], m, y)
    ensures EdgeCell(d, y) == EdgeCell(e, y)
  {
    var width, p := Width(g, e, f, s), At(y, m.id);
    if e.start == f || e.start == s {
      CopiedCell(e, d, HalfPick(e.start, f, m.body.pairs), Identity(width), p, At(y, e.end));
    } else if e.end == f || e.end == s {
      CopiedCell(e, d, Identity(width), HalfPick(e.end, f, m.body.pairs), At(y, e.start), p);
    }
  }

  lemma CopiedCell(e: Edge, d: Edge, rows: seq<Sig>, cols: seq<Sig>, i: Sig, j: Sig)
    requires Picked(e.cost, d.cost, rows, cols) && i < |rows| && j < |cols|
    ensures Cell(d.cost, i, j) == Cell(e.cost, rows[i], cols[j])
  {
  }

  lemma MergeSum(g: Graph, f: Id, s: Id, common: Option<Id>, m: Node, h: Graph, y: Assign)
    requires MergeMoves(g, f, s, common, m, h)
    requires NodeCell(m, y) == NodeCell(g.node[f], y) + NodeCell(g.node[s], y)
             + (if common.Some? then EdgeCell(g.edge[common.value], y) else 0.0)
    requires forall k :: k in h.edge ==> EdgeCell(h.edge[k], y) == EdgeCell(g.edge[k], y)
    ensures GraphCost(g, y) == GraphCost(h, y)
  {
    MergeTotal(g, f, s, common, m, h, NodeCells(y), EdgeCells(y));
  }

  // ----- whole runs -----

  /** y continues x from h back to g: at the same cost, and within the kept pairs. */
  lemma StepBack(g: Graph, step: Step, h: Graph, x: Assign) returns (y: Assign)
    requires Sound(g) && Owned(g) && Shrinks(g, step, h) && Sigs(h, x)
    ensures Sigs(g, y) && Agree(x, y, h.node.Keys) && GraphCost(g, y) == GraphCost(h, x)
    ensures step.Merge? ==>
            && step.f in g.node && step.s in g.node && step.m.body.Merged?
            && PairFits(g.node[step.f], g.node[step.s], step.m, y)
  {
    hide GraphCost, Sigs, Owned;
    StepKeepsSound(g, step, h);
    match step {
      case Fold(n, a, b, e) => y := FoldBack(g, n, a, b, e, h, x);
      case Collapse(ks, e) =>
        CollapseBack(g, ks, e, h, x);
        y := x;
      case Absorb(c, k, father) =>
        AbsorbEnds(g, c, k, father, h);
        y := AbsorbBack(g, c, k, Other(g.edge[k], c), father, h, x);
      case Merge(f, s, common, m) => y := MergeBack(g, f, s, common, m, h, x);
    }
    CostAgrees(h, x, y);
  }

  /** An assignment of the larger graph, given the signature of a merged node, is one of the
      smaller graph. */
  lemma StepUp(g: Graph, step: Step, h: Graph, y: Assign)
    requires step.Merge? ==>
             && step.f in g.node && step.s in g.node && step.m.body.Merged?
             && PairFits(g.node[step.f], g.node[step.s], step.m, y)
    requires Legal(g, y) && Sound(g) && Shrinks(g, step, h)
    ensures Legal(h, y)
  {
    hide Sound, Legal;
    if step.Merge? { MergeLifts(g, step.f, step.s, step.common, step.m, h, y); } else { PlainLift(g, step, h, y); }
  }

  lemma FreeId(g: Graph, step: Step, h: Graph)
    requires Shrinks(g, step, h) && step.Merge?
    ensures Unused(g, step.m.id) && step.m.id !in g.node && step.m.id in h.node
    ensures forall i :: i in h.node ==> i == step.m.id || i in g.node
  {
  }

  lemma NodesLeft(g: Graph, step: Step, h: Graph)
    requires Shrinks(g, step, h) && !step.Merge?
    ensures h.node.Keys <= g.node.Keys
  {
  }

  lemma StartsLegal(g: Graph, x: Assign, ratio: real)
    requires Original(g) && Good(g, ratio) && Sigs(g, x)
    ensures Legal(g, x)
  {
    hide Owned, Fresh;
    forall i | i in g.node ensures LegalNodes(x)(g.node[i]) { LiveNode(g, i); }
  }

  /** Every choice of signatures for the live nodes, after any run, has a completion within the
      kept pairs whose original cost is the reduced cost. */
  lemma {:induction false} Completion(gs: seq<Graph>, steps: seq<Step>, k: nat, x: Assign, ratio: real)
    returns (y: Assign)
    requires Run(gs, steps) && k < |gs| && Original(gs[0]) && Good(gs[0], ratio) && Sigs(gs[k], x)
    ensures Legal(gs[k], y) && Agree(x, y, gs[k].node.Keys) && GraphCost(gs[0], y) == GraphCost(gs[k], x)
    decreases k
  {
    hide Original, Good, Sigs, Legal, GraphCost, Shrinks;
    if k == 0 {
      StartsLegal(gs[0], x, ratio);
      y := x;
    } else {
      var g, step, h := gs[k - 1], steps[k - 1], gs[k - 1 + 1];
      assert Shrinks(g, step, h);
      RunKeeps(gs, steps, k - 1, ratio);
      GoodParts(g, ratio);
      var x' := StepBack(g, step, h, x);
      var z := Completion(gs, steps, k - 1, x', ratio);
      y := Upward(g, step, h, x, x', z);
      if step.Merge? {
        FreeId(g, step, h);
        RunKeepsIds(gs, steps, k - 1, step.m.id);
      }
      RunKeeps(gs, steps, 0, ratio);
      GoodParts(gs[0], ratio);
      SameAtStart(gs[0], step, z, y);
    }
  }

  lemma GoodParts(g: Graph, ratio: real)
    requires Good(g, ratio)
    ensures Sound(g) && Owned(g) && Wired(g)
  {
  }

  lemma SameAtStart(g0: Graph, step: Step, z: Assign, y: Assign)
    requires Wired(g0) && (y == z || (step.Merge? && Unused(g0, step.m.id) && y == z[step.m.id := At(y, step.m.id)]))
    ensures GraphCost(g0, y) == GraphCost(g0, z)
  {
    hide GraphCost;
    forall i | i in g0.node ensures At(y, i) == At(z, i) { assert i in NodeIds(g0.node[i]); }
    CostAgrees(g0, y, z);
  }

  lemma Upward(g: Graph, step: Step, h: Graph, x: Assign, x': Assign, z: Assign) returns (y: Assign)
    requires step.Merge? ==>
             && step.f in g.node && step.s in g.node && step.m.body.Merged?
             && PairFits(g.node[step.f], g.node[step.s], step.m, x')
    requires Wired(g) && Legal(g, z) && Agree(x', z, g.node.Keys) && Agree(x, x', h.node.Keys)
    requires Sound(g) && Shrinks(g, step, h)
    ensures Legal(h, y) && Agree(x, y, h.node.Keys)
    ensures y == z || (step.Merge? && y == z[step.m.id := At(y, step.m.id)])
  {
    hide Sound, Legal, Shrinks, Unused, PairFits;
    if step.Merge? {
      FreeId(g, step, h);
      y := z[step.m.id := At(x', step.m.id)];
      UpdateAgrees(g, step.m.id, z, At(x', step.m.id));
      FitsStill(g, step, x', y);
    } else {
      y := z;
      NodesLeft(g, step, h);
    }
    StepUp(g, step, h, y);
  }

  lemma FitsStill(g: Graph, step: Step, x: Assign, y: Assign)
    requires step.Merge? && step.f in g.node && step.s in g.node && step.m.body.Merged? && Wired(g)
             && step.m.id !in g.node
    requires Agree(x, y, g.node.Keys) && At(x, step.m.id) == At(y, step.m.id)
             && PairFits(g.node[step.f], g.node[step.s], step.m, x)
    ensures PairFits(g.node[step.f], g.node[step.s], step.m, y)
  {
  }

  /** The reduced cost of any live signatures is the minimum of the original cost over their
      completions: it bounds every one, and one attains it. */
  lemma ReducedCostIsMinimum(gs: seq<Graph>, steps: seq<Step>, x: Assign, ratio: real) returns (y: Assign)
    requires Run(gs, steps) && Original(gs[0]) && Good(gs[0], ratio) && Sigs(gs[|steps|], x)
    ensures Legal(gs[|steps|], y) && Agree(x, y, gs[|steps|].node.Keys)
            && GraphCost(gs[0], y) == GraphCost(gs[|steps|], x)
    ensures forall z :: Legal(gs[|steps|], z) && Agree(x, z, gs[|steps|].node.Keys) ==>
            GraphCost(gs[|steps|], x) <= GraphCost(gs[0], z)
  {
    hide Original, Sigs, Legal, GraphCost, Shrinks;
    var n := |steps|;
    y := Completion(gs, steps, n, x, ratio);
    RunKeeps(gs, steps, n, ratio);
    GoodParts(gs[n], ratio);
    forall z | Legal(gs[n], z) && Agree(x, z, gs[n].node.Keys) ensures GraphCost(gs[n], x) <= GraphCost(gs[0], z) {
      ReductionConserves(gs, steps, z, ratio);
      CostAgrees(gs[n], x, z);
    }
  }
}
