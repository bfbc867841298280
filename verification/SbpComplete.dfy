/** The reduction loses no strategy of valid cost: merging only drops pairs of signatures that
    no such strategy uses, so the cheapest strategy of the reduced graph is the cheapest
    strategy of the original one. */
module SbpComplete {
  import opened Wrappers
  import opened Sums
  import opened SbpForest
  import opened SbpOwnership
  import opened SbpMeaning
  import opened SbpSteps
  import opened SbpObjects
  import opened SbpConserve
  import opened SbpMerge
  import opened SbpReduction
  import opened SbpRun

  // ----- legality looks only at ids below the object -----

  ghost predicate Agree(x: Assign, y: Assign, ids: set<Id>) { forall i :: i in ids ==> At(x, i) == At(y, i) }

  lemma {:induction false} ObeysFrame(k: Parts, x: Assign, y: Assign)
    requires Agree(x, y, Comps(k)) && Obeys(k, x)
    ensures Obeys(k, y)
    decreases k
  {
    assert k.id in Comps(k);
    match k
    case Whole(_, _) =>
    case Pair(_, f, s, _) =>
      assert f.id in Comps(f) && s.id in Comps(s);
      ObeysFrame(f, x, y);
      ObeysFrame(s, x, y);
  }

  lemma {:induction false} LegalNodeFrame(n: Node, x: Assign, y: Assign)
    requires Agree(x, y, NodeIds(n)) && LegalNode(n, x)
    ensures LegalNode(n, y)
    decreases n
  {
    CompsAreOwned(n);
    ObeysFrame(PartsOf(n), x, y);
    match n.body {
      case Origin(_, _) =>
      case Merged(f, s, _, inner) =>
        LegalNodeFrame(f, x, y);
        LegalNodeFrame(s, x, y);
        if inner.Some? { LegalEdgeFrame(inner.value, x, y); }
    }
    forall c | c in n.children ensures LegalNode(c.node, y) && LegalEdge(c.edge, y) {
      forall i | i in ChildIds(c) ensures i in NodeIds(n) { ChildrenIdsMember(n.children, i); }
      LegalNodeFrame(c.node, x, y);
      LegalEdgeFrame(c.edge, x, y);
    }
  }

  lemma {:induction false} LegalEdgeFrame(e: Edge, x: Assign, y: Assign)
    requires Agree(x, y, EdgeIds(e)) && LegalEdge(e, x)
    ensures LegalEdge(e, y)
    decreases e
  {
    match e.body
    case Bare(_, _) =>
    case Parallel(list) =>
      forall a | a in list ensures LegalEdge(a, y) {
        forall i | i in EdgeIds(a) ensures i in EdgeIds(e) { ListIdsMember(list, i); }
        LegalEdgeFrame(a, x, y);
      }
    case Through(mid, a, b, _) =>
      LegalNodeFrame(mid, x, y);
      LegalEdgeFrame(a, x, y);
      LegalEdgeFrame(b, x, y);
  }

  // ----- non-negative tables -----

  ghost predicate NonNegativeNode(n: Node) { forall i :: 0 <= i < |n.cost| ==> 0.0 <= n.cost[i] }

  ghost predicate NonNegativeEdge(e: Edge) { forall i: Sig, j: Sig :: 0.0 <= Cell(e.cost, i, j) }

  ghost predicate NonNegative(g: Graph) { Each(g, NonNegativeNode, NonNegativeEdge) }

  lemma FoldNonNegative(e: Edge, s: Parts, t: Parts)
    requires e.body.Through? && ThroughFresh(e, s, t) && s != t
    requires NonNegativeNode(e.body.mid) && NonNegativeEdge(e.body.first) && NonNegativeEdge(e.body.second)
    ensures NonNegativeEdge(e)
  {
    forall i: Sig, j: Sig ensures 0.0 <= Cell(e.cost, i, j) {
      if i < |e.cost| && j < |e.cost[i]| {
        assert Meant(s, t, i, j);
        assert 0.0 <= ThroughCost(e.body.mid, e.body.first, e.body.second, s, t, i, e.body.sig[i][j], j);
      }
    }
  }

  lemma {:induction false} ListNonNegative(es: seq<Edge>, s: Parts, t: Parts, i: Sig, j: Sig)
    requires forall a :: a in es ==> NonNegativeEdge(a)
    ensures 0.0 <= ListCost(es, s, t, i, j)
    decreases |es|
  {
    if es != [] {
      ListNonNegative(es[..|es| - 1], s, t, i, j);
      assert NonNegativeEdge(es[|es| - 1]);
    }
  }

  lemma CollapseNonNegative(e: Edge, s: Parts, t: Parts)
    requires e.body.Parallel? && EdgeFreshHere(e, s, t, 0.0) && s != t && Sized(e.cost, Size(s), Size(t))
    requires forall a :: a in e.body.list ==> NonNegativeEdge(a)
    ensures NonNegativeEdge(e)
  {
    forall i: Sig, j: Sig ensures 0.0 <= Cell(e.cost, i, j) {
      if i < |e.cost| && j < |e.cost[i]| {
        assert Meant(s, t, i, j);
        ListNonNegative(e.body.list, s, t, i, j);
      }
    }
  }

  lemma SwallowNonNegative(f: Node, c: Node, k: Edge, father: Node)
    requires Swallowed(f, c, k, father) && NonNegativeNode(f) && NonNegativeNode(c) && NonNegativeEdge(k)
    ensures NonNegativeNode(father)
  {
    var child := father.children[|f.children|];
    forall i | 0 <= i < |father.cost| ensures 0.0 <= father.cost[i] {
      assert 0.0 <= ChildCost(child, i, child.sig[i]);
    }
  }

  lemma MergeNonNegative(f: Node, s: Node, common: Option<Edge>, m: Node)
    requires MergedNode(f, s, common, m) && NonNegativeNode(f) && NonNegativeNode(s)
    requires common.Some? ==> NonNegativeEdge(common.value)
    ensures NonNegativeNode(m)
  {
  }

  lemma CopyNonNegative(e: Edge, d: Edge, start: Id, end: Id, rows: seq<Sig>, cols: seq<Sig>)
    requires Copied(e, d, start, end, rows, cols) && NonNegativeEdge(e)
    ensures NonNegativeEdge(d)
  {
    forall i: Sig, j: Sig ensures 0.0 <= Cell(d.cost, i, j) {
      if i < |rows| && j < |cols| { assert d.cost[i][j] == Cell(e.cost, rows[i], cols[j]); }
    }
  }

  lemma RedirectNonNegative(e: Edge, d: Edge, f: Id, s: Id, m: Node, width: nat)
    requires m.body.Merged? && Redirected(e, d, f, s, m, width) && NonNegativeEdge(e)
    ensures NonNegativeEdge(d)
  {
    if e.start == f || e.start == s {
      CopyNonNegative(e, d, m.id, e.end, HalfPick(e.start, f, m.body.pairs), Identity(width));
    } else if e.end == f || e.end == s {
      CopyNonNegative(e, d, e.start, m.id, Identity(width), HalfPick(e.end, f, m.body.pairs));
    }
  }

  lemma FoldKeepsNonNegative(g: Graph, n: Id, a: Id, b: Id, e: Edge, h: Graph)
    requires Wired(g) && FoldStep(g, n, a, b, e, h) && NonNegative(g)
    ensures NonNegative(h)
  {
    var s, t := PartsOf(g.node[e.start]), PartsOf(g.node[e.end]);
    assert s.id == e.start && t.id == e.end;
    assert NonNegativeNode(g.node[n]) && NonNegativeEdge(g.edge[a]) && NonNegativeEdge(g.edge[b]);
    FoldNonNegative(e, s, t);
    FoldEach(g, n, a, b, e, h, NonNegativeNode, NonNegativeEdge);
  }

  lemma CollapseKeepsNonNegative(g: Graph, ks: seq<Id>, e: Edge, h: Graph)
    requires Wired(g) && CollapseStep(g, ks, e, h) && NonNegative(g)
    ensures NonNegative(h)
  {
    var s, t := PartsOf(g.node[e.start]), PartsOf(g.node[e.end]);
    assert s.id == e.start && t.id == e.end;
    forall d | d in e.body.list ensures NonNegativeEdge(d) {
      var i :| 0 <= i < |ks| && e.body.list[i] == d;
      assert ks[i] in ks;
    }
    CollapseNonNegative(e, s, t);
    CollapseEach(g, ks, e, h, NonNegativeNode, NonNegativeEdge);
  }

  lemma AbsorbKeepsNonNegative(g: Graph, c: Id, k: Id, f: Id, father: Node, h: Graph)
    requires AbsorbMoves(g, c, k, f, father, h) && Swallowed(g.node[f], g.node[c], g.edge[k], father) && NonNegative(g)
    ensures NonNegative(h)
  {
    SwallowNonNegative(g.node[f], g.node[c], g.edge[k], father);
    AbsorbEach(g, c, k, f, father, h, NonNegativeNode, NonNegativeEdge);
  }

  lemma MergeKeepsNonNegative(g: Graph, f: Id, s: Id, common: Option<Id>, m: Node, h: Graph)
    requires MergeMoves(g, f, s, common, m, h) && MergedNode(g.node[f], g.node[s], CommonEdge(g, common), m)
             && NonNegative(g)
    requires forall k :: k in h.edge ==> Redirected(g.edge[k], h.edge[k], f, s, m, Width(g, g.edge[k], f, s))
    ensures NonNegative(h)
  {
    MergeNonNegative(g.node[f], g.node[s], CommonEdge(g, common), m);
    forall k | k in h.edge ensures NonNegativeEdge(h.edge[k]) {
      RedirectNonNegative(g.edge[k], h.edge[k], f, s, m, Width(g, g.edge[k], f, s));
    }
    MergeEach(g, f, s, common, m, h, NonNegativeNode, NonNegativeEdge);
  }

  lemma StepKeepsNonNegative(g: Graph, step: Step, h: Graph)
    requires Wired(g) && Shrinks(g, step, h) && NonNegative(g)
    ensures NonNegative(h)
  {
    match step {
      case Fold(n, a, b, e) => FoldKeepsNonNegative(g, n, a, b, e, h);
      case Collapse(ks, e) => CollapseKeepsNonNegative(g, ks, e, h);
      case Absorb(c, k, father) => AbsorbKeepsNonNegative(g, c, k, Other(g.edge[k], c), father, h);
      case Merge(f, s, common, m) => MergeKeepsNonNegative(g, f, s, common, m, h);
    }
  }

  // ----- lifting an assignment over a merge -----

  lemma TermLeqTotal(g: Graph, k: Id, fn: Node -> real, fe: Edge -> real)
    requires k in g.edge
    requires forall i :: i in g.node ==> 0.0 <= fn(g.node[i])
    requires forall l :: l in g.edge ==> 0.0 <= fe(g.edge[l])
    ensures fe(g.edge[k]) <= Total(g, fn, fe)
  {
    SumNonNegative(g.node.Keys, NodeTerm(g, fn));
    SumTermLeq(g.edge.Keys, k, EdgeTerm(g, fe));
  }

  lemma EdgeLeqGraph(g: Graph, k: Id, x: Assign)
    requires k in g.edge && NonNegative(g)
    ensures EdgeCell(g.edge[k], x) <= GraphCost(g, x)
  {
    forall i | i in g.node ensures 0.0 <= NodeCells(x)(g.node[i]) { assert NonNegativeNode(g.node[i]); }
    forall l | l in g.edge ensures 0.0 <= EdgeCells(x)(g.edge[l]) { assert NonNegativeEdge(g.edge[l]); }
    TermLeqTotal(g, k, NodeCells(x), EdgeCells(x));
  }

  lemma InRange(g: Graph, i: Id, x: Assign)
    requires Sound(g) && Legal(g, x) && i in g.node
    ensures At(x, i) < |g.node[i].cost|
  {
    assert LegalNodes(x)(g.node[i]);
    LiveNode(g, i);
    LegalInRange(g.node[i], x);
  }

  /** The pair that a strategy of valid cost gives the two halves is kept. */
  lemma PairIsKept(g: Graph, f: Id, s: Id, common: Option<Id>, m: Node, x: Assign)
    requires f in g.node && s in g.node && g.node[f].id == f && IsCommon(g, f, s, common)
    requires MergedNode(g.node[f], g.node[s], CommonEdge(g, common), m)
    requires At(x, f) < |g.node[f].cost| && At(x, s) < |g.node[s].cost|
    requires common.Some? ==> EdgeCell(g.edge[common.value], x) < VALID_MAX_COPY_COST
    ensures (At(x, f), At(x, s)) in m.body.pairs
  {
    assert Kept(f, CommonEdge(g, common), At(x, f), At(x, s));
  }

  lemma UpdateAgrees(g: Graph, m: Id, x: Assign, p: Sig)
    requires Unused(g, m) && Legal(g, x)
    ensures Legal(g, x[m := p])
    ensures forall i :: i in g.node ==> Agree(x, x[m := p], NodeIds(g.node[i]))
  {
    var y := x[m := p];
    forall i | i in g.node ensures LegalNodes(y)(g.node[i]) {
      assert LegalNodes(x)(g.node[i]);
      LegalNodeFrame(g.node[i], x, y);
    }
    forall k | k in g.edge ensures LegalEdges(y)(g.edge[k]) {
      assert LegalEdges(x)(g.edge[k]);
      LegalEdgeFrame(g.edge[k], x, y);
    }
  }

  lemma LegalSigs(g: Graph, x: Assign)
    requires Sound(g) && Legal(g, x)
    ensures Sigs(g, x)
  {
    forall i | i in g.node ensures At(x, i) < |g.node[i].cost| { InRange(g, i, x); }
  }

  lemma MergeLifts(g: Graph, f: Id, s: Id, common: Option<Id>, m: Node, h: Graph, y: Assign)
    requires Sound(g) && MergeStep(g, f, s, common, m, h) && Legal(g, y) && PairFits(g.node[f], g.node[s], m, y)
    ensures Legal(h, y)
  {
    LegalSigs(g, y);
    RedirectAll(g, f, s, common, m, h, y, 0.0);
    assert LegalNodes(y)(g.node[f]) && LegalNodes(y)(g.node[s]);
    if common.Some? { assert LegalEdges(y)(g.edge[common.value]); }
    MergeLegalUp(g.node[f], g.node[s], CommonEdge(g, common), m, y);
    MergeEach(g, f, s, common, m, h, LegalNodes(y), LegalEdges(y));
  }

  lemma FindPair(g: Graph, f: Id, s: Id, common: Option<Id>, m: Node, h: Graph, x: Assign) returns (p: Sig)
    requires Merging(g, f, s, common, m, h) && NonNegative(g) && Legal(g, x)
    requires GraphCost(g, x) < VALID_MAX_COPY_COST
    ensures p < |m.body.pairs| && m.body.pairs[p] == (At(x, f), At(x, s))
  {
    InRange(g, f, x);
    InRange(g, s, x);
    if common.Some? { EdgeLeqGraph(g, common.value, x); }
    PairIsKept(g, f, s, common, m, x);
    p :| 0 <= p < |m.body.pairs| && m.body.pairs[p] == (At(x, f), At(x, s));
  }

  lemma UpdateOutside(g: Graph, m: Id, x: Assign, p: Sig)
    requires Unused(g, m)
    ensures forall i :: !Unused(g, i) ==> At(x, i) == At(x[m := p], i)
  {
  }

  lemma MergeLift(g: Graph, f: Id, s: Id, common: Option<Id>, m: Node, h: Graph, x: Assign) returns (y: Assign)
    requires Merging(g, f, s, common, m, h) && NonNegative(g) && Legal(g, x)
    requires GraphCost(g, x) < VALID_MAX_COPY_COST
    ensures Legal(h, y)
    ensures forall i :: !Unused(g, i) ==> At(x, i) == At(y, i)
  {
    var p := FindPair(g, f, s, common, m, h, x);
    y := x[m.id := p];
    UpdateAgrees(g, m.id, x, p);
    UpdateOutside(g, m.id, x, p);
    FitsAfterUpdate(g, f, s, m, x, p);
    MergeLifts(g, f, s, common, m, h, y);
  }

  lemma FitsAfterUpdate(g: Graph, f: Id, s: Id, m: Node, x: Assign, p: Sig)
    requires Wired(g) && f in g.node && s in g.node && m.id !in g.node && m.body.Merged?
    requires p < |m.body.pairs| && m.body.pairs[p] == (At(x, f), At(x, s))
    ensures PairFits(g.node[f], g.node[s], m, x[m.id := p])
  {
  }

  lemma PlainLift(g: Graph, step: Step, h: Graph, x: Assign)
    requires Shrinks(g, step, h) && !step.Merge? && Legal(g, x)
    ensures Legal(h, x)
  {
    match step {
      case Fold(n, a, b, e) => FoldConserves(g, n, a, b, e, h, x, 0.0);
      case Collapse(ks, e) => CollapseConserves(g, ks, e, h, x, 0.0);
      case Absorb(c, k, father) => AbsorbConserves(g, c, k, Other(g.edge[k], c), father, h, x, 0.0);
    }
  }

  lemma StepLift(g: Graph, step: Step, h: Graph, x: Assign) returns (y: Assign)
    requires Sound(g) && Owned(g) && Shrinks(g, step, h) && NonNegative(g) && Legal(g, x)
    requires GraphCost(g, x) < VALID_MAX_COPY_COST
    ensures Legal(h, y)
    ensures forall i :: !Unused(g, i) ==> At(x, i) == At(y, i)
  {
    if step.Merge? {
      y := MergeLift(g, step.f, step.s, step.common, step.m, h, x);
    } else {
      PlainLift(g, step, h, x);
      y := x;
    }
  }

  // ----- whole runs -----

  ghost function NonNegativeAt(ratio: real): Graph -> bool { g => Good(g, ratio) && NonNegative(g) }

  lemma StepKeepsNonNegativeAt(g: Graph, step: Step, h: Graph, ratio: real)
    requires Shrinks(g, step, h) && NonNegativeAt(ratio)(g)
    ensures NonNegativeAt(ratio)(h)
  {
    StepKeepsGood(g, step, h, ratio);
    StepKeepsNonNegative(g, step, h);
  }

  lemma RunKeepsNonNegative(gs: seq<Graph>, steps: seq<Step>, n: nat, ratio: real)
    requires Run(gs, steps) && n < |gs| && Good(gs[0], ratio) && NonNegative(gs[0])
    ensures NonNegative(gs[n])
  {
    var inv := NonNegativeAt(ratio);
    forall g, l, h | Shrinks(g, l, h) && inv(g) ensures inv(h) { StepKeepsNonNegativeAt(g, l, h, ratio); }
    Invariant(gs, steps, Shrinks, inv, n);
  }

  lemma TotalSame(g: Graph, fn: Node -> real, fe: Edge -> real, hn: Node -> real, he: Edge -> real)
    requires forall i :: i in g.node ==> fn(g.node[i]) == hn(g.node[i])
    requires forall k :: k in g.edge ==> fe(g.edge[k]) == he(g.edge[k])
    ensures Total(g, fn, fe) == Total(g, hn, he)
  {
    TotalLeq(g, fn, fe, hn, he);
    TotalLeq(g, hn, he, fn, fe);
  }

  lemma CostAgrees(g: Graph, x: Assign, y: Assign)
    requires Wired(g) && Agree(x, y, g.node.Keys)
    ensures GraphCost(g, x) == GraphCost(g, y)
  {
    forall k | k in g.edge ensures EdgeCells(x)(g.edge[k]) == EdgeCells(y)(g.edge[k]) {
      assert g.edge[k].start in g.node.Keys && g.edge[k].end in g.node.Keys;
    }
    TotalSame(g, NodeCells(x), EdgeCells(x), NodeCells(y), EdgeCells(y));
  }

  /** A legal assignment of a later graph costs no more there than the original one it extends. */
  lemma CheaperHere(gs: seq<Graph>, steps: seq<Step>, n: nat, x0: Assign, ratio: real, y: Assign)
    requires Run(gs, steps) && n < |gs| && Original(gs[0]) && Good(gs[0], ratio)
    requires Legal(gs[n], y) && Agree(x0, y, gs[0].node.Keys)
    ensures GraphCost(gs[n], y) <= GraphCost(gs[0], x0)
  {
    RunKeeps(gs, steps, n, ratio);
    RunConserves(gs, steps, n, y, ratio, ratio);
    OriginalCost(gs[0], y, ratio);
    CostAgrees(gs[0], x0, y);
    GraphMeaning(gs[n], y, ratio);
  }

  lemma OriginalIdsUsed(gs: seq<Graph>, steps: seq<Step>, n: nat, i: Id)
    requires Run(gs, steps) && n < |gs| && Wired(gs[0]) && i in gs[0].node
    ensures !Unused(gs[n], i)
  {
    assert i in NodeIds(gs[0].node[i]);
    if Unused(gs[n], i) { RunKeepsIds(gs, steps, n, i); }
  }

  /** One more step of the induction below. */
  lemma ExtendOver(gs: seq<Graph>, steps: seq<Step>, n: nat, x0: Assign, ratio: real, x: Assign) returns (y: Assign)
    requires Run(gs, steps) && n < |steps| && Original(gs[0]) && Good(gs[0], ratio) && NonNegative(gs[0])
    requires GraphCost(gs[0], x0) < VALID_MAX_COPY_COST && Legal(gs[n], x) && Agree(x0, x, gs[0].node.Keys)
    ensures Legal(gs[n + 1], y) && Agree(x0, y, gs[0].node.Keys)
  {
    RunKeeps(gs, steps, n, ratio);
    RunKeepsNonNegative(gs, steps, n, ratio);
    CheaperHere(gs, steps, n, x0, ratio, x);
    y := StepLift(gs[n], steps[n], gs[n + 1], x);
    forall i | i in gs[0].node.Keys ensures At(x0, i) == At(y, i) { OriginalIdsUsed(gs, steps, n, i); }
  }

  lemma {:induction false} UpTo(p: nat -> bool, n: nat)
    requires p(0) && forall k :: 0 <= k < n && p(k) ==> p(k + 1)
    ensures p(n)
    decreases n
  {
    if n > 0 { UpTo(p, n - 1); assert p(n - 1 + 1); }
  }

  ghost function Extensible(gs: seq<Graph>, x0: Assign): nat -> bool {
    (n: nat) => n < |gs| && exists y :: Legal(gs[n], y) && Agree(x0, y, gs[0].node.Keys)
  }

  lemma ExtensibleStep(gs: seq<Graph>, steps: seq<Step>, n: nat, x0: Assign, ratio: real)
    requires Run(gs, steps) && n < |steps| && Original(gs[0]) && Good(gs[0], ratio) && NonNegative(gs[0])
    requires GraphCost(gs[0], x0) < VALID_MAX_COPY_COST && Extensible(gs, x0)(n)
    ensures Extensible(gs, x0)(n + 1)
  {
    var x :| Legal(gs[n], x) && Agree(x0, x, gs[0].node.Keys);
    var y := ExtendOver(gs, steps, n, x0, ratio, x);
    ExtensibleBy(gs, n + 1, x0, y);
  }

  lemma ExtensibleBy(gs: seq<Graph>, n: nat, x0: Assign, y: Assign)
    requires n < |gs| && Legal(gs[n], y) && Agree(x0, y, gs[0].node.Keys)
    ensures Extensible(gs, x0)(n)
  {
  }

  lemma ExtensibleFirst(gs: seq<Graph>, x0: Assign)
    requires |gs| > 0 && Legal(gs[0], x0)
    ensures Extensible(gs, x0)(0)
  {
    assert Agree(x0, x0, gs[0].node.Keys);
  }

  /** Every original strategy of valid cost is, up to the swallowed nodes, a strategy of the
      reduced graph, and costs no more there. */
  lemma NothingValidLost(gs: seq<Graph>, steps: seq<Step>, x0: Assign, ratio: real) returns (y: Assign)
    requires Run(gs, steps) && Original(gs[0]) && Good(gs[0], ratio) && NonNegative(gs[0])
    requires Legal(gs[0], x0) && GraphCost(gs[0], x0) < VALID_MAX_COPY_COST
    ensures Legal(gs[|steps|], y) && Agree(x0, y, gs[0].node.Keys)
    ensures GraphCost(gs[|steps|], y) <= GraphCost(gs[0], x0)
  {
    var p, n := Extensible(gs, x0), |steps|;
    ExtensibleFirst(gs, x0);
    forall k | 0 <= k < n && p(k) ensures p(k + 1) { ExtensibleStep(gs, steps, k, x0, ratio); }
    UpTo(p, n);
    y :| Legal(gs[n], y) && Agree(x0, y, gs[0].node.Keys);
    CheaperHere(gs, steps, |steps|, x0, ratio, y);
  }

  /** Solving the reduced graph solves the original one. */
  lemma ReducedOptimumIsOptimal(gs: seq<Graph>, steps: seq<Step>, x: Assign, ratio: real, x0: Assign)
    requires Run(gs, steps) && Original(gs[0]) && Good(gs[0], ratio) && NonNegative(gs[0])
    requires Legal(gs[|steps|], x) && Settled(gs[|steps|], x)
    requires forall y :: Legal(gs[|steps|], y) ==> GraphCost(gs[|steps|], x) <= GraphCost(gs[|steps|], y)
    requires Legal(gs[0], x0) && GraphCost(gs[0], x0) < VALID_MAX_COPY_COST
    ensures GraphCost(gs[0], x) <= GraphCost(gs[0], x0)
  {
    ReductionConserves(gs, steps, x, ratio);
    var y := NothingValidLost(gs, steps, x0, ratio);
  }
}
