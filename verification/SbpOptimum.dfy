/** When the reduction leaves no edge, the strategy found is nearly the cheapest of all: nothing of
    valid cost is lost by the steps, nor by raising the memory ratio. */
module SbpOptimum {
  import opened Wrappers
  import opened SbpForest
  import opened SbpSteps
  import opened SbpRun
  import opened SbpComplete
  import opened SbpCharges
  import opened SbpMemory
  import opened SbpRecompute
  import opened SbpRefresh
  import opened NbhSearch
  import opened GreedyRuns

  /** z, with some signatures for the merged nodes, is a strategy of g. */
  ghost predicate Extended(g0: Graph, g: Graph, z: Assign) { exists y :: Legal(g, y) && Agree(z, y, g0.node.Keys) }

  /** So is every strategy of g0 whose cost at the ratio is valid. */
  ghost function Keeps(g0: Graph, r: real): Graph -> bool {
    g => forall z :: Legal(g0, z) && GraphBase(g0, z, r) < VALID_MAX_COPY_COST ==> Extended(g0, g, z)
  }

  /** Whatever is legal for g is legal for h. */
  ghost function LegalAs(g: Graph): Graph -> bool { h => forall y :: Legal(g, y) ==> Legal(h, y) }

  lemma RunKeepsValid(gs: seq<Graph>, steps: seq<Step>, ratio: real)
    requires Run(gs, steps) && Original(gs[0]) && Good(gs[0], ratio) && NonNegative(gs[0])
    ensures Keeps(gs[0], ratio)(gs[|steps|])
  {
    hide Shrinks, Original, NonNegative, Legal, GraphBase, GraphCost, Agree, Sound, Owned, Fresh;
    var g0, g := gs[0], gs[|steps|];
    forall z | Legal(g0, z) && GraphBase(g0, z, ratio) < VALID_MAX_COPY_COST ensures Extended(g0, g, z) {
      OriginalCost(g0, z, ratio);
      var y := NothingValidLost(gs, steps, z, ratio);
    }
  }

  lemma KeepsOn(g0: Graph, r: real, g: Graph, h: Graph)
    requires Keeps(g0, r)(g) && LegalAs(g)(h)
    ensures Keeps(g0, r)(h)
  {
    hide Legal, GraphBase, Agree;
    forall z | Legal(g0, z) && GraphBase(g0, z, r) < VALID_MAX_COPY_COST ensures Extended(g0, h, z) {
      assert Extended(g0, g, z);
      var y :| Legal(g, y) && Agree(z, y, g0.node.Keys);
    }
  }

  // ----- recomputing -----

  lemma {:induction false} LikeNodeBack(n: Node, m: Node)
    requires LikeNode(n, m)
    ensures LikeNode(m, n)
    decreases n
  {
    match n.body {
      case Origin(_, _) =>
      case Merged(f, s, _, inner) =>
        LikeNodeBack(f, m.body.first);
        LikeNodeBack(s, m.body.second);
        if inner.Some? { LikeEdgeBack(inner.value, m.body.inner.value); }
    }
    forall i | 0 <= i < |m.children|
      ensures LikeNode(m.children[i].node, n.children[i].node) && LikeEdge(m.children[i].edge, n.children[i].edge)
    {
      LikeNodeBack(n.children[i].node, m.children[i].node);
      LikeEdgeBack(n.children[i].edge, m.children[i].edge);
    }
  }

  lemma {:induction false} LikeEdgeBack(e: Edge, d: Edge)
    requires LikeEdge(e, d)
    ensures LikeEdge(d, e)
    decreases e
  {
    match e.body
    case Bare(_, _) =>
    case Parallel(list) =>
      forall i | 0 <= i < |list| ensures LikeEdge(d.body.list[i], list[i]) { LikeEdgeBack(list[i], d.body.list[i]); }
    case Through(mid, a, b, _) =>
      LikeNodeBack(mid, d.body.mid);
      LikeEdgeBack(a, d.body.first);
      LikeEdgeBack(b, d.body.second);
  }

  lemma LikeLegalAs(g: Graph, h: Graph)
    requires LikeGraph(g, h)
    ensures LegalAs(g)(h)
  {
    hide LikeNode, LikeEdge, Legal;
    forall i | i in g.node ensures LikeNode(h.node[i], g.node[i]) { LikeNodeBack(g.node[i], h.node[i]); }
    forall k | k in g.edge ensures LikeEdge(h.edge[k], g.edge[k]) { LikeEdgeBack(g.edge[k], h.edge[k]); }
    forall y | Legal(g, y) ensures Legal(h, y) { LikeLegal(h, g, y); }
  }

  lemma LegalAsBoth(g: Graph, h: Graph, l: Graph)
    requires LegalAs(g)(h) && LegalAs(h)(l)
    ensures LegalAs(g)(l)
  {
    hide Legal;
  }

  lemma LegalAsSelf(g: Graph)
    ensures LegalAs(g)(g)
  {
    hide Legal;
  }

  // ----- the optimum -----

  /** The cost is at most what every other choice of signatures of g costs, but for the slack of the search. */
  ghost predicate NearlyLeast(g: Graph, cost: real) {
    forall z :: Sigs(g, z) ==> NEARLY * cost <= GraphCost(g, z)
  }

  /** ... what every strategy of g0 of valid cost costs at the ratio r. */
  ghost predicate NearlyOptimal(g0: Graph, r: real, cost: real) {
    forall z :: Legal(g0, z) && GraphBase(g0, z, r) < VALID_MAX_COPY_COST ==> NEARLY * cost <= GraphBase(g0, z, r)
  }

  /** Some strategy of g0 costs no more than nearly the largest valid cost. */
  ghost predicate HasCheapStrategy(g0: Graph, r: real) {
    exists z :: Legal(g0, z) && GraphBase(g0, z, r) <= NEARLY * VALID_MAX_COPY_COST
  }

  /** Then so does some choice of signatures of g. */
  lemma CheapCarried(g0: Graph, r0: real, g: Graph, r: real)
    requires Original(g0) && Wired(g0) && Charged(g0) && r0 <= r && Keeps(g0, r0)(g) && HasCheapStrategy(g0, r)
    requires Sound(g) && Fresh(g, r) && forall y :: Legal(g, y) ==> GraphBase(g, y, r) == GraphBase(g0, y, r)
    ensures HasCheap(g)
  {
    hide Original, Wired, Charged, Sound, Fresh, Legal, GraphBase, GraphCost, Agree, Sigs;
    var z :| Legal(g0, z) && GraphBase(g0, z, r) <= NEARLY * VALID_MAX_COPY_COST;
    DearerAtLargerRatio(g0, z, r0, r);
    assert Extended(g0, g, z);
    var y :| Legal(g, y) && Agree(z, y, g0.node.Keys);
    LegalSigs(g, y);
    GraphMeaning(g, y, r);
    OriginalAgrees(g0, z, y, r);
  }

  lemma OptimumCarried(g0: Graph, r0: real, g: Graph, r: real, cost: real)
    requires Original(g0) && Wired(g0) && Charged(g0) && r0 <= r && Keeps(g0, r0)(g)
    requires Sound(g) && Fresh(g, r) && NearlyLeast(g, cost)
    requires forall y :: Legal(g, y) ==> GraphBase(g, y, r) == GraphBase(g0, y, r)
    ensures NearlyOptimal(g0, r, cost)
  {
    hide Original, Wired, Charged, Sound, Fresh, Legal, GraphBase, GraphCost, Agree, Sigs;
    forall z | Legal(g0, z) && GraphBase(g0, z, r) < VALID_MAX_COPY_COST
      ensures NEARLY * cost <= GraphBase(g0, z, r)
    {
      DearerAtLargerRatio(g0, z, r0, r);
      assert Extended(g0, g, z);
      var y :| Legal(g, y) && Agree(z, y, g0.node.Keys);
      LegalSigs(g, y);
      GraphMeaning(g, y, r);
      OriginalAgrees(g0, z, y, r);
    }
  }
}
