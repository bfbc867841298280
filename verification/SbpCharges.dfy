/** Where no original time or memory is negative, no table ever is: not after any step of the
    reduction, and not after recomputing at any memory ratio that is not negative. */
module SbpCharges {
  import opened Wrappers
  import opened SbpForest
  import opened SbpSteps
  import opened SbpConserve
  import opened SbpMerge
  import opened SbpRun
  import opened SbpComplete
  import opened SbpRecompute
  import opened SbpRefresh
  import opened SbpUnique
  import opened SbpOps

  /** No original time or memory below n is negative. */
  ghost predicate ChargedNode(n: Node)
    decreases n
  {
    && (match n.body
        case Origin(time, memory) =>
          (forall i :: 0 <= i < |time| ==> 0.0 <= time[i]) && forall i :: 0 <= i < |memory| ==> 0 <= memory[i]
        case Merged(f, s, _, inner) =>
          ChargedNode(f) && ChargedNode(s) && (inner.Some? ==> ChargedEdge(inner.value)))
    && forall c :: c in n.children ==> ChargedNode(c.node) && ChargedEdge(c.edge)
  }

  ghost predicate ChargedEdge(e: Edge)
    decreases e
  {
    match e.body
    case Bare(time, memory) =>
      && (forall i, j :: 0 <= i < |time| && 0 <= j < |time[i]| ==> 0.0 <= time[i][j])
      && (forall i, j :: 0 <= i < |memory| && 0 <= j < |memory[i]| ==> 0 <= memory[i][j])
    case Parallel(list) => forall a :: a in list ==> ChargedEdge(a)
    case Through(mid, a, b, _) => ChargedNode(mid) && ChargedEdge(a) && ChargedEdge(b)
  }

  ghost predicate Charged(g: Graph) { Each(g, ChargedNode, ChargedEdge) }

  // ----- steps keep it -----

  lemma CopyCharged(e: Edge, d: Edge, start: Id, end: Id, rows: seq<Sig>, cols: seq<Sig>)
    requires Copied(e, d, start, end, rows, cols) && ChargedEdge(e)
    ensures ChargedEdge(d)
  {
    hide ChargedNode;
    match e.body
    case Bare(time, memory) =>
      forall i, j | 0 <= i < |d.body.time| && 0 <= j < |d.body.time[i]| ensures 0.0 <= d.body.time[i][j] {
        PickedAt(time, d.body.time, rows, cols, i, j);
      }
      forall i, j | 0 <= i < |d.body.memory| && 0 <= j < |d.body.memory[i]| ensures 0 <= d.body.memory[i][j] {
        PickedAt(memory, d.body.memory, rows, cols, i, j);
      }
    case Parallel(_) =>
    case Through(_, _, _, _) =>
  }

  lemma StepKeepsCharged(g: Graph, step: Step, h: Graph)
    requires Shrinks(g, step, h) && Charged(g)
    ensures Charged(h)
  {
    match step {
      case Fold(n, a, b, e) => FoldEach(g, n, a, b, e, h, ChargedNode, ChargedEdge);
      case Collapse(ks, e) => CollapseEach(g, ks, e, h, ChargedNode, ChargedEdge);
      case Absorb(c, k, father) => AbsorbKeepsCharged(g, c, k, Other(g.edge[k], c), father, h);
      case Merge(f, s, common, m) => MergeKeepsCharged(g, f, s, common, m, h);
    }
  }

  lemma AbsorbKeepsCharged(g: Graph, c: Id, k: Id, f: Id, father: Node, h: Graph)
    requires AbsorbMoves(g, c, k, f, father, h) && Adopted(g.node[f], g.node[c], g.edge[k], father) && Charged(g)
    ensures Charged(h)
  {
    var child := father.children[|g.node[f].children|];
    assert child in father.children && child.node == g.node[c] && child.edge == g.edge[k];
    assert forall d :: d in father.children <==> d in g.node[f].children || d == child;
    AbsorbEach(g, c, k, f, father, h, ChargedNode, ChargedEdge);
  }

  lemma MergeKeepsCharged(g: Graph, f: Id, s: Id, common: Option<Id>, m: Node, h: Graph)
    requires MergeMoves(g, f, s, common, m, h) && Joined(g.node[f], g.node[s], CommonEdge(g, common), m) && Charged(g)
    requires forall k :: k in h.edge ==> Redirected(g.edge[k], h.edge[k], f, s, m, Width(g, g.edge[k], f, s))
    ensures Charged(h)
  {
    var pairs := m.body.pairs;
    if common.Some? {
      var e := g.edge[common.value];
      CopyCharged(e, m.body.inner.value, m.id, m.id, HalfPick(e.start, g.node[f].id, pairs),
          HalfPick(e.end, g.node[f].id, pairs));
    }
    forall k | k in h.edge ensures ChargedEdge(h.edge[k]) {
      var e, d, width := g.edge[k], h.edge[k], Width(g, g.edge[k], f, s);
      if e.start == f || e.start == s {
        CopyCharged(e, d, m.id, e.end, HalfPick(e.start, f, pairs), Identity(width));
      } else if e.end == f || e.end == s {
        CopyCharged(e, d, e.start, m.id, Identity(width), HalfPick(e.end, f, pairs));
      }
    }
    MergeEach(g, f, s, common, m, h, ChargedNode, ChargedEdge);
  }

  lemma RunKeepsCharged(gs: seq<Graph>, steps: seq<Step>, n: nat)
    requires Run(gs, steps) && n < |gs| && Charged(gs[0])
    ensures Charged(gs[n])
  {
    forall g, l, h | Shrinks(g, l, h) && Charged(g) ensures Charged(h) { StepKeepsCharged(g, l, h); }
    Invariant(gs, steps, Shrinks, Charged, n);
  }

  // ----- so does recomputing -----

  lemma {:induction false} LikeChargedNode(n: Node, m: Node)
    requires LikeNode(n, m) && ChargedNode(n)
    ensures ChargedNode(m)
    decreases n
  {
    match n.body {
      case Origin(_, _) =>
      case Merged(f, s, _, inner) =>
        LikeChargedNode(f, m.body.first);
        LikeChargedNode(s, m.body.second);
        if inner.Some? { LikeChargedEdge(inner.value, m.body.inner.value); }
    }
    forall d | d in m.children ensures ChargedNode(d.node) && ChargedEdge(d.edge) {
      var i :| 0 <= i < |m.children| && m.children[i] == d;
      assert n.children[i] in n.children;
      LikeChargedNode(n.children[i].node, d.node);
      LikeChargedEdge(n.children[i].edge, d.edge);
    }
  }

  lemma {:induction false} LikeChargedEdge(e: Edge, d: Edge)
    requires LikeEdge(e, d) && ChargedEdge(e)
    ensures ChargedEdge(d)
    decreases e
  {
    match e.body
    case Bare(_, _) =>
    case Parallel(list) =>
      forall b | b in d.body.list ensures ChargedEdge(b) {
        var i :| 0 <= i < |d.body.list| && d.body.list[i] == b;
        assert list[i] in list;
        LikeChargedEdge(list[i], b);
      }
    case Through(mid, a, b, _) =>
      LikeChargedNode(mid, d.body.mid);
      LikeChargedEdge(a, d.body.first);
      LikeChargedEdge(b, d.body.second);
  }

  lemma LikeCharged(g: Graph, h: Graph)
    requires LikeGraph(g, h) && Charged(g)
    ensures Charged(h)
  {
    hide LikeNode, LikeEdge, ChargedNode, ChargedEdge;
    forall i | i in h.node ensures ChargedNode(h.node[i]) { LikeChargedNode(g.node[i], h.node[i]); }
    forall k | k in h.edge ensures ChargedEdge(h.edge[k]) { LikeChargedEdge(g.edge[k], h.edge[k]); }
  }

  /** What holds of the original graph carries over. As a function value it stays whole. */
  ghost function ChargedAs(g0: Graph): Graph -> bool { g => Charged(g0) ==> Charged(g) }

  lemma ChargedAlong(g0: Graph, g: Graph, t: Trace, h: Graph)
    requires ChargedAs(g0)(g) && Leads(g, t, h)
    ensures ChargedAs(g0)(h)
  {
    hide Charged, Shrinks;
    if Charged(g0) { RunKeepsCharged(t.gs, t.steps, |t.steps|); }
  }

  lemma ChargedLike(g0: Graph, g: Graph, h: Graph)
    requires ChargedAs(g0)(g) && LikeGraph(g, h)
    ensures ChargedAs(g0)(h)
  {
    hide Charged, LikeGraph;
    if Charged(g0) { LikeCharged(g, h); }
  }

  // ----- tables that are up to date -----

  ghost predicate NonNegativeTable(e: Edge, s: Parts, t: Parts) {
    forall i, j :: Meant(s, t, i, j) ==> 0.0 <= Cell(e.cost, i, j)
  }

  // as function values the conditions stay whole
  ghost function Sure(r: real): Node -> bool { n => ShapeNode(n) && FreshNode(n, r) && ChargedNode(n) }

  ghost function SureEdge(r: real): (Edge, Parts, Parts) -> bool {
    (e, s, t) => ShapeEdge(e, s, t) && FreshEdge(e, s, t, r) && ChargedEdge(e)
  }

  lemma {:induction false} SureCost(n: Node, r: real)
    requires 0.0 <= r && Sure(r)(n)
    ensures NonNegativeNode(n)
    decreases n, 2
  {
    hide BodyCost, ChildrenCost;
    assert NodeFreshHere(n, r);
    forall i | 0 <= i < |n.cost| ensures 0.0 <= n.cost[i] {
      SureBody(n, r, i);
      SureChildren(n, r, i, |n.children|);
      assert n.children[..|n.children|] == n.children;
    }
  }

  lemma {:induction false} SureBody(n: Node, r: real, i: Sig)
    requires 0.0 <= r && Sure(r)(n) && i < |n.cost|
    ensures 0.0 <= BodyCost(n, i, r)
    decreases n, 1
  {
    match n.body
    case Origin(time, memory) => WeighSure(if i < |time| then time[i] else 0.0, if i < |memory| then memory[i] else 0,
        r);
    case Merged(f, s, _, inner) =>
      hide Sure, SureEdge, NonNegativeTable;
      HalvesSure(n, r);
      SureCost(f, r);
      SureCost(s, r);
      if inner.Some? {
        SureTable(inner.value, PartsOf(n), PartsOf(n), r);
        Diagonal(n, inner.value, i);
      }
  }

  lemma WeighSure(time: real, memory: int, r: real)
    requires 0.0 <= time && 0 <= memory && 0.0 <= r
    ensures 0.0 <= Weigh(time, memory, r)
  {
    assert 0.0 <= memory as real && 0.0 <= r * memory as real;
  }

  lemma HalvesSure(n: Node, r: real)
    requires Sure(r)(n) && n.body.Merged?
    ensures Sure(r)(n.body.first) && Sure(r)(n.body.second) && |n.cost| == Size(PartsOf(n))
    ensures n.body.inner.Some? ==> SureEdge(r)(n.body.inner.value, PartsOf(n), PartsOf(n))
  {
    hide NodeFreshHere;
  }

  lemma Diagonal(n: Node, e: Edge, i: Sig)
    requires NonNegativeTable(e, PartsOf(n), PartsOf(n)) && i < |n.cost| == Size(PartsOf(n))
    ensures 0.0 <= Cell(e.cost, i, i)
  {
    hide PartsOf, Size;
    assert Meant(PartsOf(n), PartsOf(n), i, i);
  }

  lemma {:induction false} SureChildren(n: Node, r: real, i: Sig, k: nat)
    requires 0.0 <= r && Sure(r)(n) && i < |n.cost| && k <= |n.children|
    ensures 0.0 <= ChildrenCost(n.children[..k], i)
    decreases n, 1, k
  {
    hide Sure, ChildCost;
    if k > 0 {
      SureChildren(n, r, i, k - 1);
      assert n.children[..k][..k - 1] == n.children[..k - 1];
      SureChild(n, r, k - 1, i);
    }
  }

  lemma {:induction false} SureChild(n: Node, r: real, k: nat, i: Sig)
    requires 0.0 <= r && Sure(r)(n) && i < |n.cost| && k < |n.children|
    ensures |n.children[k].sig| == |n.cost| && 0.0 <= ChildCost(n.children[k], i, n.children[k].sig[i])
    decreases n, 0
  {
    var c, p := n.children[k], PartsOf(n);
    var q := PartsOf(c.node);
    assert c in n.children;
    SureCost(c.node, r);
    SureTable(c.edge, Pick(p, q, c.edge.start), Pick(p, q, c.edge.end), r);
    ChildSure(n, c, i, c.sig[i]);
  }

  lemma ChildSure(n: Node, c: Child, i: Sig, m: Sig)
    requires ShapeNode(n) && c in n.children && i < |n.cost| && m < |c.node.cost| && NonNegativeNode(c.node)
    requires NonNegativeTable(c.edge, Pick(PartsOf(n), PartsOf(c.node), c.edge.start),
             Pick(PartsOf(n), PartsOf(c.node), c.edge.end))
    ensures 0.0 <= ChildCost(c, i, m)
  {
    var p, q := PartsOf(n), PartsOf(c.node);
    assert p.id == n.id && q.id == c.node.id && p.id in Comps(p) && q.id in Comps(q);
    assert Pick(p, q, n.id) == p && Pick(p, q, c.node.id) == q && p != q;
    assert Size(p) == |n.cost| && Size(q) == |c.node.cost|;
    if c.edge.end == c.node.id { assert Meant(p, q, i, m); } else { assert Meant(q, p, m, i); }
  }

  lemma {:induction false} SureTable(e: Edge, s: Parts, t: Parts, r: real)
    requires 0.0 <= r && SureEdge(r)(e, s, t)
    ensures NonNegativeTable(e, s, t)
    decreases e, 2
  {
    hide ListCost, ThroughFresh;
    forall i, j | Meant(s, t, i, j) ensures 0.0 <= Cell(e.cost, i, j) {
      match e.body
      case Bare(time, memory) => WeighSure(Cell(time, i, j), MemoryCell(memory, i, j), r);
      case Parallel(list) =>
        SureList(e, s, t, r, i, j, |list|);
        assert list[..|list|] == list;
      case Through(_, _, _, _) => SureThrough(e, s, t, r, i, j);
    }
  }

  lemma {:induction false} SureList(e: Edge, s: Parts, t: Parts, r: real, i: Sig, j: Sig, k: nat)
    requires 0.0 <= r && SureEdge(r)(e, s, t) && e.body.Parallel? && k <= |e.body.list| && Meant(s, t, i, j)
    ensures 0.0 <= ListCost(e.body.list[..k], s, t, i, j)
    decreases e, 1, k
  {
    hide PartCost;
    if k > 0 {
      var list := e.body.list;
      SureList(e, s, t, r, i, j, k - 1);
      assert list[..k][..k - 1] == list[..k - 1];
      var a := list[k - 1];
      assert a in list;
      SureTable(a, Pick(s, t, a.start), Pick(s, t, a.end), r);
      PartSure(a, s, t, i, j);
    }
  }

  lemma PartSure(a: Edge, s: Parts, t: Parts, i: Sig, j: Sig)
    requires PartsOk(s) && PartsOk(t) && (s == t || Comps(s) !! Comps(t)) && Meant(s, t, i, j) && Joins(a, s, t)
    requires NonNegativeTable(a, Pick(s, t, a.start), Pick(s, t, a.end))
    ensures 0.0 <= PartCost(a, s, t, i, j)
  {
    if a.start in Comps(s) { CellMeant(s, t, i, j, a.start, a.end); } else { CellMeant(t, s, j, i, a.start, a.end); }
  }

  lemma {:induction false} SureThrough(e: Edge, s: Parts, t: Parts, r: real, i: Sig, j: Sig)
    requires 0.0 <= r && SureEdge(r)(e, s, t) && e.body.Through? && Meant(s, t, i, j)
    ensures 0.0 <= Cell(e.cost, i, j)
    decreases e, 1
  {
    hide SideCost, NonNegativeTable;
    var mid, a, b, q := e.body.mid, e.body.first, e.body.second, PartsOf(e.body.mid);
    SureCost(mid, r);
    SureTable(a, Pick(s, q, a.start), Pick(s, q, a.end), r);
    SureTable(b, Pick(t, q, b.start), Pick(t, q, b.end), r);
    var m := e.body.sig[i][j];
    SideSure(a, mid, s, i, m);
    SideSure(b, mid, t, j, m);
  }

  lemma SideSure(a: Edge, mid: Node, s: Parts, i: Sig, m: Sig)
    requires PartsOk(s) && ShapeNode(mid) && Comps(PartsOf(mid)) !! Comps(s) && Ties(a, mid.id, Comps(s))
             && i < Size(s) && m < |mid.cost|
    requires NonNegativeTable(a, Pick(s, PartsOf(mid), a.start), Pick(s, PartsOf(mid), a.end))
    ensures 0.0 <= SideCost(a, mid.id, s, i, m)
  {
    var q := PartsOf(mid);
    assert q.id == mid.id && q.id in Comps(q) && Size(q) == |mid.cost|;
    if a.end == mid.id { CellMeant(s, q, i, m, a.start, mid.id); } else { CellMeant(q, s, m, i, mid.id, a.end); }
  }

  /** A graph whose tables are up to date, over original costs that are not negative, has no
      negative table. */
  lemma FreshNonNegative(g: Graph, r: real)
    requires 0.0 <= r && Good(g, r) && Charged(g)
    ensures NonNegative(g)
  {
    hide ShapeNode, ShapeEdge, FreshNode, FreshEdge, ChargedNode, ChargedEdge, Owned, NonNegativeNode;
    forall i | i in g.node ensures NonNegativeNode(g.node[i]) {
      assert ShapeNode(g.node[i]) && FreshNodes(r)(g.node[i]);
      SureCost(g.node[i], r);
    }
    forall k | k in g.edge ensures NonNegativeEdge(g.edge[k]) {
      assert EdgeHolds(g, ShapeEdge, k) && EdgeHolds(g, FreshEdges(r), k);
      LiveTable(g, k, r);
    }
  }

  lemma LiveTable(g: Graph, k: Id, r: real)
    requires 0.0 <= r && Wired(g) && k in g.edge && EdgeHolds(g, ShapeEdge, k) && EdgeHolds(g, FreshEdges(r), k)
             && ChargedEdge(g.edge[k])
    ensures NonNegativeEdge(g.edge[k])
  {
    hide FreshEdge, ChargedEdge;
    var e := g.edge[k];
    var s, t := PartsOf(g.node[e.start]), PartsOf(g.node[e.end]);
    assert s.id == e.start && t.id == e.end;
    SureTable(e, s, t, r);
    forall i: Sig, j: Sig ensures 0.0 <= Cell(e.cost, i, j) {
      if i < |e.cost| && j < |e.cost[i]| { assert Meant(s, t, i, j); }
    }
  }
}
