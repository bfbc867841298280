/** Whole runs of the reduction: the cost of a reduced assignment is the least original cost
    of its extensions, and no original assignment of valid cost is lost. */
module SbpRun {
  import opened Wrappers
  import opened Sums
  import opened SbpForest
  import opened SbpOwnership
  import opened SbpMeaning
  import opened SbpSteps
  import opened SbpObjects
  import opened SbpConserve
  import opened SbpMerge
  import opened SbpReduction

  // ----- ids are never lost -----

  lemma StepKeepsIds(g: Graph, step: Step, h: Graph, i: Id)
    requires Shrinks(g, step, h) && Unused(h, i)
    ensures Unused(g, i)
  {
    match step {
      case Fold(n, a, b, e) => FoldKeepsIds(g, n, a, b, e, h, i);
      case Collapse(ks, e) => CollapseKeepsIds(g, ks, e, h, i);
      case Absorb(c, k, father) => AbsorbKeepsIds(g, c, k, Other(g.edge[k], c), father, h, i);
      case Merge(f, s, common, m) => MergeKeepsIds(g, f, s, common, m, h, i);
    }
  }

  lemma FoldKeepsIds(g: Graph, n: Id, a: Id, b: Id, e: Edge, h: Graph, i: Id)
    requires FoldMoves(g, n, a, b, e, h) && Unused(h, i)
    ensures Unused(g, i)
  {
    assert e.id in h.edge && h.edge[e.id] == e;
    assert EdgeIds(e) == {e.id} + (NodeIds(g.node[n]) + EdgeIds(g.edge[a]) + EdgeIds(g.edge[b]));
    forall j | j in g.node ensures i !in NodeIds(g.node[j]) { assert j == n || h.node[j] == g.node[j]; }
    forall k | k in g.edge ensures i !in EdgeIds(g.edge[k]) { assert k == a || k == b || h.edge[k] == g.edge[k]; }
  }

  lemma CollapseKeepsIds(g: Graph, ks: seq<Id>, e: Edge, h: Graph, i: Id)
    requires CollapseMoves(g, ks, e, h) && Unused(h, i)
    ensures Unused(g, i)
  {
    assert e.id in h.edge && h.edge[e.id] == e;
    ListIdsMember(e.body.list, i);
    forall k | k in g.edge ensures i !in EdgeIds(g.edge[k]) {
      if k in ks {
        var p :| 0 <= p < |ks| && ks[p] == k;
        assert e.body.list[p] == g.edge[k] && g.edge[k] in e.body.list;
      } else {
        assert h.edge[k] == g.edge[k];
      }
    }
  }

  lemma AbsorbKeepsIds(g: Graph, c: Id, k: Id, f: Id, father: Node, h: Graph, i: Id)
    requires AbsorbMoves(g, c, k, f, father, h) && Adopted(g.node[f], g.node[c], g.edge[k], father) && Unused(h, i)
    ensures Unused(g, i)
  {
    assert f in h.node && h.node[f] == father;
    AdoptIds(g.node[f], g.node[c], g.edge[k], father);
    forall j | j in g.node ensures i !in NodeIds(g.node[j]) { assert j == c || j == f || h.node[j] == g.node[j]; }
    forall l | l in g.edge ensures i !in EdgeIds(g.edge[l]) { assert l == k || h.edge[l] == g.edge[l]; }
  }

  lemma MergeKeepsUnused(g: Graph, f: Id, s: Id, common: Option<Id>, m: Node, h: Graph,
                         nodeIds: Node -> set<Id>, edgeIds: Edge -> set<Id>, i: Id)
    requires MergeMoves(g, f, s, common, m, h)
    requires nodeIds(m) == {m.id} + nodeIds(g.node[f]) + nodeIds(g.node[s])
                           + (if common.Some? then edgeIds(g.edge[common.value]) else {})
    requires forall k :: k in h.edge ==> edgeIds(h.edge[k]) == edgeIds(g.edge[k])
    requires forall j :: j in h.node ==> i !in nodeIds(h.node[j])
    requires forall k :: k in h.edge ==> i !in edgeIds(h.edge[k])
    ensures forall j :: j in g.node ==> i !in nodeIds(g.node[j])
    ensures forall k :: k in g.edge ==> i !in edgeIds(g.edge[k])
  {
    assert m.id in h.node && h.node[m.id] == m;
    forall j | j in g.node ensures i !in nodeIds(g.node[j]) { assert j == f || j == s || h.node[j] == g.node[j]; }
    forall k | k in g.edge ensures i !in edgeIds(g.edge[k]) { assert k in h.edge || common == Some(k); }
  }

  lemma MergeKeepsIds(g: Graph, f: Id, s: Id, common: Option<Id>, m: Node, h: Graph, i: Id)
    requires MergeMoves(g, f, s, common, m, h) && Joined(g.node[f], g.node[s], CommonEdge(g, common), m) && Unused(h, i)
    requires forall k :: k in h.edge ==> Redirected(g.edge[k], h.edge[k], f, s, m, Width(g, g.edge[k], f, s))
    ensures Unused(g, i)
  {
    MergeIds(g.node[f], g.node[s], CommonEdge(g, common), m);
    forall k | k in h.edge ensures EdgeIds(h.edge[k]) == EdgeIds(g.edge[k]) {
      RedirectedIds(g.edge[k], h.edge[k], f, s, m, Width(g, g.edge[k], f, s));
    }
    MergeKeepsUnused(g, f, s, common, m, h, NodeIds, EdgeIds, i);
  }

  // ----- runs -----

  /** A chain of states, each leading to the next by a step of the relation. */
  ghost predicate Chain<S, L>(states: seq<S>, labels: seq<L>, step: (S, L, S) -> bool) {
    && |states| == |labels| + 1
    && forall i :: 0 <= i < |labels| ==> step(states[i], labels[i], states[i + 1])
  }

  lemma {:induction false} Invariant<S(!new), L(!new)>(states: seq<S>, labels: seq<L>, step: (S, L, S) -> bool,
                                                       inv: S -> bool, n: nat)
    requires Chain(states, labels, step) && n < |states| && inv(states[0])
    requires forall g, l, h :: step(g, l, h) && inv(g) ==> inv(h)
    ensures inv(states[n])
    decreases n
  {
    if n > 0 {
      Invariant(states, labels, step, inv, n - 1);
      assert step(states[n - 1], labels[n - 1], states[n - 1 + 1]);
    }
  }

  /** Any sequence of folds, collapses, absorptions and merges. */
  ghost predicate Run(gs: seq<Graph>, steps: seq<Step>) { Chain(gs, steps, Shrinks) }

  ghost predicate Good(g: Graph, ratio: real) { Sound(g) && Owned(g) && Fresh(g, ratio) }

  ghost function GoodAt(ratio: real): Graph -> bool { g => Good(g, ratio) }

  lemma StepKeepsGood(g: Graph, step: Step, h: Graph, ratio: real)
    requires Shrinks(g, step, h) && Good(g, ratio)
    ensures Good(h, ratio)
  {
    StepKeepsSound(g, step, h);
    StepKeepsOwned(g, step, h);
    StepKeepsFresh(g, step, h, ratio);
  }

  lemma RunKeeps(gs: seq<Graph>, steps: seq<Step>, n: nat, ratio: real)
    requires Run(gs, steps) && n < |gs| && Good(gs[0], ratio)
    ensures Good(gs[n], ratio)
  {
    forall g, l, h | Shrinks(g, l, h) && GoodAt(ratio)(g) ensures GoodAt(ratio)(h) { StepKeepsGood(g, l, h, ratio); }
    Invariant(gs, steps, Shrinks, GoodAt(ratio), n);
  }

  ghost function UsedAfter(i: Id, g0: Graph): Graph -> bool { g => Unused(g, i) ==> Unused(g0, i) }

  /** Every object of the first graph is still in the last one. */
  lemma RunKeepsIds(gs: seq<Graph>, steps: seq<Step>, n: nat, i: Id)
    requires Run(gs, steps) && n < |gs| && Unused(gs[n], i)
    ensures Unused(gs[0], i)
  {
    var inv := UsedAfter(i, gs[0]);
    forall g, l, h | Shrinks(g, l, h) && inv(g) ensures inv(h) {
      if Unused(h, i) { StepKeepsIds(g, l, h, i); }
    }
    Invariant(gs, steps, Shrinks, inv, n);
  }

  ghost function Backs(g0: Graph, x: Assign, ratio: real, r: real): Graph -> bool {
    g => Good(g, ratio) && (Legal(g, x) ==> Legal(g0, x) && GraphBase(g, x, r) == GraphBase(g0, x, r))
  }

  lemma StepBacks(g0: Graph, g: Graph, step: Step, h: Graph, x: Assign, ratio: real, r: real)
    requires Shrinks(g, step, h) && Backs(g0, x, ratio, r)(g)
    ensures Backs(g0, x, ratio, r)(h)
  {
    StepKeepsGood(g, step, h, ratio);
    if Legal(h, x) { StepConserves(g, step, h, x, r); }
  }

  /** An assignment legal for a later graph is legal for the first, at the same original cost
      at any memory ratio r. */
  lemma RunConserves(gs: seq<Graph>, steps: seq<Step>, n: nat, x: Assign, ratio: real, r: real)
    requires Run(gs, steps) && n < |gs| && Good(gs[0], ratio) && Legal(gs[n], x)
    ensures Legal(gs[0], x) && GraphBase(gs[n], x, r) == GraphBase(gs[0], x, r)
  {
    var inv := Backs(gs[0], x, ratio, r);
    forall g, l, h | Shrinks(g, l, h) && inv(g) ensures inv(h) { StepBacks(gs[0], g, l, h, x, ratio, r); }
    Invariant(gs, steps, Shrinks, inv, n);
  }

  /** A graph nothing has been swallowed in. */
  ghost predicate Original(g: Graph) {
    && (forall i :: i in g.node ==> g.node[i].body.Origin? && g.node[i].children == [])
    && (forall k :: k in g.edge ==> g.edge[k].body.Bare?)
  }

  lemma OriginalSettled(g: Graph, x: Assign)
    requires Original(g)
    ensures Settled(g, x)
  {
  }

  lemma OriginalCost(g: Graph, x: Assign, ratio: real)
    requires Original(g) && Sound(g) && Fresh(g, ratio) && Legal(g, x)
    ensures GraphBase(g, x, ratio) == GraphCost(g, x)
  {
    OriginalSettled(g, x);
    GraphMeaning(g, x, ratio);
  }

  /** After any run, the reduced cost of a reduced assignment is a lower bound on the original
      cost of every one of its legal extensions, and the settled extension attains it. */
  lemma ReductionConserves(gs: seq<Graph>, steps: seq<Step>, x: Assign, ratio: real)
    requires Run(gs, steps) && Original(gs[0]) && Good(gs[0], ratio)
    requires Legal(gs[|steps|], x)
    ensures GraphCost(gs[|steps|], x) <= GraphCost(gs[0], x)
    ensures Settled(gs[|steps|], x) ==> GraphCost(gs[|steps|], x) == GraphCost(gs[0], x)
  {
    var n := |steps|;
    RunKeeps(gs, steps, n, ratio);
    RunConserves(gs, steps, n, x, ratio, ratio);
    OriginalCost(gs[0], x, ratio);
    GraphMeaning(gs[n], x, ratio);
  }
}
