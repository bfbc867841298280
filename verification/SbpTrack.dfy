/** The strategy a graph holds while it is reduced: it never gets dearer, and for as long as there
    is a strategy of valid cost no merge is impossible. */
module SbpTrack {
  import opened Wrappers
  import opened SbpForest
  import opened SbpSteps
  import opened SbpObjects
  import opened SbpConserve
  import opened SbpReduction
  import opened SbpRun
  import opened SbpComplete
  import opened SbpExtend
  import opened SbpOps
  import opened SbpMerging

  // ----- one step -----

  lemma ThroughBelow(e: Edge, s: Parts, t: Parts, x: Assign)
    requires e.body.Through? && ThroughFresh(e, s, t) && e.start == s.id && e.end == t.id && s.id != t.id
    requires var n := e.body.mid.id;
             Between(e.body.first, s.id, n) && Between(e.body.second, t.id, n) && n != s.id && n != t.id
    requires At(x, s.id) < Size(s) && At(x, t.id) < Size(t) && At(x, e.body.mid.id) < |e.body.mid.cost|
    ensures EdgeCell(e, x) <= NodeCell(e.body.mid, x) + EdgeCell(e.body.first, x) + EdgeCell(e.body.second, x)
  {
    var i, j, m := At(x, s.id), At(x, t.id), At(x, e.body.mid.id);
    assert Meant(s, t, i, j);
    assert e.cost[i][j] <= ThroughCost(e.body.mid, e.body.first, e.body.second, s, t, i, m, j);
  }

  /** The mid node may keep its signature; the recorded one costs no more. */
  lemma FoldCheaper(g: Graph, n: Id, a: Id, b: Id, e: Edge, h: Graph, x: Assign)
    requires Sound(g) && FoldStep(g, n, a, b, e, h) && Sigs(g, x)
    ensures Sigs(h, x) && GraphCost(h, x) <= GraphCost(g, x)
  {
    hide Sound, ShapeNode, ThroughFresh, PartsOf, Size, EdgeCell, NodeCell;
    FoldEnds(g, n, a, b, e, h);
    Rooted(g, n);
    Rooted(g, e.start);
    Rooted(g, e.end);
    ThroughBelow(e, PartsOf(g.node[e.start]), PartsOf(g.node[e.end]), x);
    FoldTotal(g, n, a, b, e, h, NodeCells(x), EdgeCells(x));
  }

  lemma AbsorbCheaper(g: Graph, c: Id, k: Id, f: Id, father: Node, h: Graph, x: Assign)
    requires Wired(g) && AbsorbMoves(g, c, k, f, father, h) && Swallowed(g.node[f], g.node[c], g.edge[k], father)
    requires Between(g.edge[k], f, c) && Sigs(g, x)
    ensures Sigs(h, x) && GraphCost(h, x) <= GraphCost(g, x)
  {
    hide ChildBest, Wired;
    FatherBelow(g, c, k, f, father, x);
    SigsLeft(g, c, k, f, father, h, x);
    AbsorbTotal(g, c, k, f, father, h, NodeCells(x), EdgeCells(x));
  }

  lemma SigsLeft(g: Graph, c: Id, k: Id, f: Id, father: Node, h: Graph, x: Assign)
    requires AbsorbMoves(g, c, k, f, father, h) && Swallowed(g.node[f], g.node[c], g.edge[k], father) && Sigs(g, x)
    ensures Sigs(h, x)
  {
    hide ChildBest;
    forall i | i in h.node ensures At(x, i) < |h.node[i].cost| {
      assert i == f || (i in g.node && h.node[i] == g.node[i]);
    }
  }

  lemma FatherBelow(g: Graph, c: Id, k: Id, f: Id, father: Node, x: Assign)
    requires Wired(g) && f in g.node && c in g.node && k in g.edge && f != c
    requires Swallowed(g.node[f], g.node[c], g.edge[k], father) && Between(g.edge[k], f, c) && Sigs(g, x)
    ensures NodeCell(father, x) <= NodeCell(g.node[f], x) + (NodeCell(g.node[c], x) + EdgeCell(g.edge[k], x))
  {
    hide ChildBest;
    var child, i := father.children[|g.node[f].children|], At(x, f);
    assert ChildBest(child, i, child.sig[i]);
    BestBelow(child, i, child.sig[i], At(x, c));
  }

  lemma LeafCheaper(g: Graph, c: Id, k: Id, father: Node, h: Graph, x: Assign)
    requires Sound(g) && Owned(g) && AbsorbStep(g, c, k, father, h) && Sigs(g, x)
    ensures Sigs(h, x) && GraphCost(h, x) <= GraphCost(g, x)
  {
    hide ChildBest, ShapeNode, ShapeEdge, GraphCost, Sigs, Owned;
    AbsorbEnds(g, c, k, father, h);
    AbsorbCheaper(g, c, k, Other(g.edge[k], c), father, h, x);
  }

  lemma BestBelow(c: Child, i: Sig, best: Sig, m: Sig)
    requires ChildBest(c, i, best) && m < |c.node.cost|
    ensures ChildCost(c, i, best) <= ChildCost(c, i, m)
  {
  }

  /** Collapsing changes neither signatures nor cost. */
  lemma CollapseCheaper(g: Graph, ks: seq<Id>, e: Edge, h: Graph, x: Assign)
    requires Sound(g) && Owned(g) && CollapseStep(g, ks, e, h) && Sigs(g, x)
    ensures Sigs(h, x) && GraphCost(h, x) == GraphCost(g, x)
  {
    hide Sound, Owned, GraphCost;
    CollapseNodes(g, ks, e, h);
    CollapseBack(g, ks, e, h, x);
  }

  lemma CollapseNodes(g: Graph, ks: seq<Id>, e: Edge, h: Graph)
    requires CollapseStep(g, ks, e, h)
    ensures h.node == g.node
  {
  }

  lemma {:induction false} SlotFound(pairs: seq<(Sig, Sig)>, i: Sig, j: Sig)
    requires (i, j) in pairs
    ensures PairSlot(pairs, i, j) < |pairs| && pairs[PairSlot(pairs, i, j)] == (i, j)
    decreases |pairs|
  {
    var n := |pairs| - 1;
    if pairs[n] != (i, j) {
      var q :| 0 <= q < |pairs| && pairs[q] == (i, j);
      assert pairs[..n][q] == (i, j);
      SlotFound(pairs[..n], i, j);
    }
  }

  /** A strategy of valid cost finds its pair among the kept ones, at the same cost. */
  lemma MergeCheaper(g: Graph, f: Id, s: Id, common: Option<Id>, m: Node, h: Graph, x: Assign)
    requires Sound(g) && NonNegative(g) && MergeStep(g, f, s, common, m, h) && Sigs(g, x)
    requires GraphCost(g, x) < VALID_MAX_COPY_COST
    ensures var y := Follow(Merge(f, s, common, m), x); Sigs(h, y) && GraphCost(h, y) == GraphCost(g, x)
  {
    hide GraphCost, Unused, Redirected, Copied, Kept, NonNegative, ShapeNode, ShapeEdge, Sigs;
    var y := Follow(Merge(f, s, common, m), x);
    if common.Some? { EdgeLeqGraph(g, common.value, x); }
    SigsAt(g, f, x);
    SigsAt(g, s, x);
    PairIsKept(g, f, s, common, m, x);
    SlotFound(m.body.pairs, At(x, f), At(x, s));
    SlotFits(g, f, s, common, m, h, x, y);
    MergedCell(g, f, s, common, m, y);
    forall k | k in h.edge ensures EdgeCell(h.edge[k], y) == EdgeCell(g.edge[k], y) {
      assert g.edge[k].start in g.node && g.edge[k].end in g.node && !Between(g.edge[k], f, s);
      RedirectedCell(g, g.edge[k], h.edge[k], f, s, m, y);
    }
    MergeSum(g, f, s, common, m, h, y);
    CostAgrees(g, x, y);
  }

  lemma SigsAt(g: Graph, i: Id, x: Assign)
    requires Sigs(g, x) && i in g.node
    ensures At(x, i) < |g.node[i].cost|
  {
  }

  lemma SlotFits(g: Graph, f: Id, s: Id, common: Option<Id>, m: Node, h: Graph, x: Assign, y: Assign)
    requires Wired(g) && MergeMoves(g, f, s, common, m, h) && Joined(g.node[f], g.node[s], CommonEdge(g, common), m)
    requires Sigs(g, x) && var p := PairSlot(m.body.pairs, At(x, f), At(x, s));
             p < |m.body.pairs| && m.body.pairs[p] == (At(x, f), At(x, s)) && y == x[m.id := p]
    ensures Sigs(g, y) && Sigs(h, y) && Agree(x, y, g.node.Keys) && PairFits(g.node[f], g.node[s], m, y)
  {
    hide Copied, PairSlot;
    forall i | i in h.node ensures At(y, i) < |h.node[i].cost| {
      assert i == m.id || (i in g.node && h.node[i] == g.node[i]);
    }
  }

  /** Whatever step is taken, the strategy is carried over and costs no more. */
  lemma StepCheaper(g: Graph, step: Step, h: Graph, x: Assign)
    requires Sound(g) && Owned(g) && NonNegative(g) && Shrinks(g, step, h) && Sigs(g, x)
    requires GraphCost(g, x) < VALID_MAX_COPY_COST
    ensures Sigs(h, Follow(step, x)) && GraphCost(h, Follow(step, x)) <= GraphCost(g, x)
  {
    hide Owned, Sound, NonNegative, GraphCost, Sigs, PairSlot, FoldStep, CollapseStep, AbsorbStep, MergeStep;
    match step {
      case Fold(n, a, b, e) => FoldCheaper(g, n, a, b, e, h, x);
      case Collapse(ks, e) => CollapseCheaper(g, ks, e, h, x);
      case Absorb(c, k, father) => LeafCheaper(g, c, k, father, h, x);
      case Merge(f, s, common, m) => MergeCheaper(g, f, s, common, m, h, x);
    }
  }

  // ----- whole runs -----

  /** The strategy after n steps. */
  lemma {:induction false} RunCheaper(gs: seq<Graph>, steps: seq<Step>, n: nat, x: Assign, ratio: real)
    requires Run(gs, steps) && n < |gs| && Good(gs[0], ratio) && NonNegative(gs[0])
    requires Sigs(gs[0], x) && GraphCost(gs[0], x) < VALID_MAX_COPY_COST
    ensures n <= |steps| && var y := FollowAll(steps[..n], x);
            Sigs(gs[n], y) && GraphCost(gs[n], y) <= GraphCost(gs[0], x)
    decreases n
  {
    hide Good, NonNegative, Sigs, GraphCost, Shrinks, Follow;
    assert steps[..0] == [];
    if n > 0 {
      RunCheaper(gs, steps, n - 1, x, ratio);
      RunKeeps(gs, steps, n - 1, ratio);
      GoodParts(gs[n - 1], ratio);
      RunKeepsNonNegative(gs, steps, n - 1, ratio);
      assert steps[..n][..n - 1] == steps[..n - 1] && steps[..n][n - 1] == steps[n - 1];
      assert Shrinks(gs[n - 1], steps[n - 1], gs[n - 1 + 1]);
      StepCheaper(gs[n - 1], steps[n - 1], gs[n], FollowAll(steps[..n - 1], x));
    }
  }

  /** Some strategy has a valid cost. */
  ghost predicate HasValid(g: Graph) { exists x: Assign :: Sigs(g, x) && GraphCost(g, x) < VALID_MAX_COPY_COST }

  /** A strategy of valid cost needs a valid pair at every edge. */
  lemma ValidNotBlocked(g: Graph, x: Assign)
    requires Wired(g) && NonNegative(g) && Sigs(g, x) && GraphCost(g, x) < VALID_MAX_COPY_COST
    ensures !Blocked(g)
  {
    hide GraphCost, NonNegative, BlockedAt;
    forall f, k ensures !BlockedAt(g, f, k) { ValidHere(g, x, f, k); }
  }

  lemma ValidHere(g: Graph, x: Assign, f: Id, k: Id)
    requires Wired(g) && NonNegative(g) && Sigs(g, x) && GraphCost(g, x) < VALID_MAX_COPY_COST
    ensures !BlockedAt(g, f, k)
  {
    hide GraphCost, NonNegative;
    if f in g.node && k in g.edge && Touches(g.edge[k], f) {
      EdgeLeqGraph(g, k, x);
      assert Kept(f, Some(g.edge[k]), At(x, f), At(x, Other(g.edge[k], f)));
    }
  }

  /** No run from a graph with a strategy of valid cost reaches a graph where a merge aborts. */
  lemma NeverBlocked(gs: seq<Graph>, steps: seq<Step>, n: nat, x: Assign, ratio: real)
    requires Run(gs, steps) && n < |gs| && Good(gs[0], ratio) && NonNegative(gs[0])
    requires Sigs(gs[0], x) && GraphCost(gs[0], x) < VALID_MAX_COPY_COST
    ensures !Blocked(gs[n])
  {
    hide NonNegative, Sigs, GraphCost, Shrinks, FollowAll, Blocked;
    RunCheaper(gs, steps, n, x, ratio);
    RunKeeps(gs, steps, n, ratio);
    GoodParts(gs[n], ratio);
    RunKeepsNonNegative(gs, steps, n, ratio);
    ValidNotBlocked(gs[n], FollowAll(steps[..n], x));
  }
}
