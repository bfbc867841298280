/** Every step of the reduction keeps the graph sound, owned and fresh, and keeps the original
    cost of every assignment. */
module SbpReduction {
  import opened Wrappers
  import opened Sums
  import opened SbpForest
  import opened SbpOwnership
  import opened SbpSteps
  import opened SbpObjects
  import opened SbpConserve
  import opened SbpMerge

  // ----- folding -----

  lemma FoldEdge(g: Graph, n: Id, a: Id, b: Id, e: Edge, h: Graph)
    requires Sound(g) && Owned(g) && FoldStep(g, n, a, b, e, h)
    ensures ShapeEdge(e, PartsOf(g.node[e.start]), PartsOf(g.node[e.end]))
    ensures Comps(PartsOf(g.node[e.start])) !! Comps(PartsOf(g.node[n]))
    ensures Comps(PartsOf(g.node[e.end])) !! Comps(PartsOf(g.node[n]))
    ensures Between(g.edge[a], e.start, n) && Between(g.edge[b], e.end, n)
    ensures PartsOf(g.node[n]).id == n && PartsOf(g.node[e.start]).id == e.start && PartsOf(g.node[e.end]).id == e.end
  {
    hide Owned, ShapeEdge, ThroughFresh, Unused, Comps, ShapeNode;
    LiveEdge(g, a);
    LiveEdge(g, b);
    LiveNode(g, n);
    LiveNode(g, e.start);
    LiveNode(g, e.end);
    OwnedApart(g, e.start, n);
    OwnedApart(g, e.end, n);
    OwnedApart(g, e.start, e.end);
    assert Touches(g.edge[a], n) && Touches(g.edge[b], n);
    ThroughShape(e, PartsOf(g.node[e.start]), PartsOf(g.node[e.end]));
  }

  lemma FoldFreshEdge(g: Graph, n: Id, a: Id, b: Id, e: Edge, h: Graph, ratio: real)
    requires Sound(g) && Owned(g) && FoldStep(g, n, a, b, e, h) && Fresh(g, ratio)
    ensures FreshEdge(e, PartsOf(g.node[e.start]), PartsOf(g.node[e.end]), ratio)
  {
    FoldEdge(g, n, a, b, e, h);
    assert EdgeHolds(g, FreshEdges(ratio), a) && EdgeHolds(g, FreshEdges(ratio), b);
    assert FreshNodes(ratio)(g.node[n]);
    ThroughIsFresh(e, PartsOf(g.node[e.start]), PartsOf(g.node[e.end]), ratio);
  }

  lemma FoldKeeps(g: Graph, n: Id, a: Id, b: Id, e: Edge, h: Graph)
    requires Sound(g) && Owned(g) && FoldStep(g, n, a, b, e, h)
    ensures Sound(h)
    ensures forall ratio: real :: Fresh(g, ratio) ==> Fresh(h, ratio)
  {
    FoldEdge(g, n, a, b, e, h);
    FoldHolds(g, n, a, b, e, h, ShapeNode, ShapeEdge);
    forall ratio: real | Fresh(g, ratio) ensures Fresh(h, ratio) {
      FoldFreshEdge(g, n, a, b, e, h, ratio);
      FoldHolds(g, n, a, b, e, h, FreshNodes(ratio), FreshEdges(ratio));
    }
  }

  lemma FoldKeepsOwned(g: Graph, n: Id, a: Id, b: Id, e: Edge, h: Graph)
    requires Owned(g) && FoldMoves(g, n, a, b, e, h) && Unused(g, e.id)
    ensures Owned(h)
  {
    assert EdgeIds(e) == {e.id} + NodeIds(g.node[n]) + EdgeIds(g.edge[a]) + EdgeIds(g.edge[b]);
    FoldDisjoint(g, n, a, b, e, h, NodeIds, EdgeIds);
    assert ForestEdge(e) by {
      assert ForestNode(g.node[n]) && ForestEdge(g.edge[a]) && ForestEdge(g.edge[b]);
      assert NodeIds(g.node[n]) !! EdgeIds(g.edge[a]) && NodeIds(g.node[n]) !! EdgeIds(g.edge[b]);
      assert EdgeIds(g.edge[a]) !! EdgeIds(g.edge[b]);
    }
    FoldEach(g, n, a, b, e, h, ForestNode, ForestEdge);
  }

  lemma FoldConserves(g: Graph, n: Id, a: Id, b: Id, e: Edge, h: Graph, x: Assign, ratio: real)
    requires FoldMoves(g, n, a, b, e, h)
    ensures GraphBase(h, x, ratio) == GraphBase(g, x, ratio)
    ensures Legal(h, x) <==> Legal(g, x)
  {
    FoldTotal(g, n, a, b, e, h, NodeBases(x, ratio), EdgeBases(x, ratio));
    FoldEach(g, n, a, b, e, h, LegalNodes(x), LegalEdges(x));
  }

  // ----- collapsing -----

  lemma CollapseEdge(g: Graph, ks: seq<Id>, e: Edge, h: Graph)
    requires Sound(g) && Owned(g) && CollapseStep(g, ks, e, h)
    ensures ShapeEdge(e, PartsOf(g.node[e.start]), PartsOf(g.node[e.end]))
    ensures Comps(PartsOf(g.node[e.start])) !! Comps(PartsOf(g.node[e.end]))
    ensures PartsOf(g.node[e.start]).id == e.start && PartsOf(g.node[e.end]).id == e.end
  {
    hide ShapeNode, ShapeEdge, Owned, Sound;
    LiveNode(g, e.start);
    LiveNode(g, e.end);
    OwnedApart(g, e.start, e.end);
    var s, t := PartsOf(g.node[e.start]), PartsOf(g.node[e.end]);
    forall d | d in e.body.list ensures Between(d, s.id, t.id) && ShapeEdge(d, End(s, t, d.start), End(s, t, d.end)) {
      var i :| 0 <= i < |ks| && e.body.list[i] == d;
      assert ks[i] in ks;
      LiveEdge(g, ks[i]);
    }
    ParallelShape(e, s, t);
  }

  lemma CollapseFreshEdge(g: Graph, ks: seq<Id>, e: Edge, h: Graph, ratio: real)
    requires Sound(g) && Owned(g) && CollapseStep(g, ks, e, h) && Fresh(g, ratio)
    ensures FreshEdge(e, PartsOf(g.node[e.start]), PartsOf(g.node[e.end]), ratio)
  {
    hide ShapeNode, ShapeEdge, FreshEdge, FreshNode, Owned;
    CollapseEdge(g, ks, e, h);
    var s, t := PartsOf(g.node[e.start]), PartsOf(g.node[e.end]);
    forall d | d in e.body.list
      ensures Between(d, s.id, t.id) && FreshEdge(d, End(s, t, d.start), End(s, t, d.end), ratio)
    {
      var i :| 0 <= i < |ks| && e.body.list[i] == d;
      assert ks[i] in ks;
      assert EdgeHolds(g, FreshEdges(ratio), ks[i]);
    }
    ParallelIsFresh(e, s, t, ratio);
  }

  lemma CollapseKeeps(g: Graph, ks: seq<Id>, e: Edge, h: Graph)
    requires Sound(g) && Owned(g) && CollapseStep(g, ks, e, h)
    ensures Sound(h)
    ensures forall ratio: real :: Fresh(g, ratio) ==> Fresh(h, ratio)
  {
    CollapseEdge(g, ks, e, h);
    CollapseHolds(g, ks, e, h, ShapeNode, ShapeEdge);
    forall ratio: real | Fresh(g, ratio) ensures Fresh(h, ratio) {
      CollapseFreshEdge(g, ks, e, h, ratio);
      CollapseHolds(g, ks, e, h, FreshNodes(ratio), FreshEdges(ratio));
    }
  }

  lemma CollapseKeepsOwned(g: Graph, ks: seq<Id>, e: Edge, h: Graph)
    requires Owned(g) && CollapseMoves(g, ks, e, h) && Unused(g, e.id)
    ensures Owned(h)
  {
    var list := e.body.list;
    forall i | i in EdgeIds(e) ensures i == e.id || exists a :: a in list && i in EdgeIds(a) { ListIdsMember(list, i); }
    CollapseDisjoint(g, ks, e, h, NodeIds, EdgeIds);
    forall i | 0 <= i < |list| ensures ks[i] in g.edge && list[i] == g.edge[ks[i]] && ForestEdge(list[i]) {
      assert ks[i] in ks;
    }
    assert e.id !in ListIds(list) by { ListIdsMember(list, e.id); }
    forall i, j | 0 <= i < j < |list| ensures EdgeIds(list[i]) !! EdgeIds(list[j]) {
      assert ks[i] in ks && ks[j] in ks && ks[i] != ks[j];
    }
    assert ForestEdge(e);
    CollapseEach(g, ks, e, h, ForestNode, ForestEdge);
  }

  lemma {:induction false} ListBaseAlong(es: seq<Edge>, x: Assign, ratio: real)
    ensures ListBase(es, x, ratio) == AlongList(es, EdgeBases(x, ratio))
    decreases |es|
  {
    if es != [] { ListBaseAlong(es[..|es| - 1], x, ratio); }
  }

  lemma CollapseConserves(g: Graph, ks: seq<Id>, e: Edge, h: Graph, x: Assign, ratio: real)
    requires CollapseMoves(g, ks, e, h)
    ensures GraphBase(h, x, ratio) == GraphBase(g, x, ratio)
    ensures Legal(h, x) <==> Legal(g, x)
  {
    ListBaseAlong(e.body.list, x, ratio);
    CollapseTotal(g, ks, e, h, NodeBases(x, ratio), EdgeBases(x, ratio));
    CollapseEach(g, ks, e, h, LegalNodes(x), LegalEdges(x));
  }

  // ----- absorbing -----

  lemma AbsorbEnds(g: Graph, c: Id, k: Id, father: Node, h: Graph)
    requires Sound(g) && Owned(g) && AbsorbStep(g, c, k, father, h)
    ensures var f, e := Other(g.edge[k], c), g.edge[k];
            && f in g.node && f != c && father.id == f && Between(e, f, c)
            && g.node[f].id == f && g.node[c].id == c
            && ShapeNode(g.node[f]) && ShapeNode(g.node[c])
            && Comps(PartsOf(g.node[c])) !! Comps(PartsOf(g.node[f]))
            && PartsOf(g.node[e.start]) == End(PartsOf(g.node[f]), PartsOf(g.node[c]), e.start)
            && PartsOf(g.node[e.end]) == End(PartsOf(g.node[f]), PartsOf(g.node[c]), e.end)
            && ShapeEdge(e, PartsOf(g.node[e.start]), PartsOf(g.node[e.end]))
  {
    var f := Other(g.edge[k], c);
    assert Touches(g.edge[k], c);
    LiveEdge(g, k);
    LiveNode(g, c);
    LiveNode(g, f);
    OwnedApart(g, c, f);
  }

  lemma AbsorbKeepsSound(g: Graph, c: Id, k: Id, father: Node, h: Graph)
    requires Sound(g) && Owned(g) && AbsorbStep(g, c, k, father, h)
    ensures Sound(h)
  {
    var f := Other(g.edge[k], c);
    AbsorbEnds(g, c, k, father, h);
    AdoptParts(g.node[f], g.node[c], g.edge[k], father);
    SwallowSized(g.node[f], g.node[c], g.edge[k], father);
    AdoptShape(g.node[f], g.node[c], g.edge[k], father);
    AbsorbHolds(g, c, k, f, father, h, ShapeNode, ShapeEdge);
  }

  lemma AbsorbKeepsFresh(g: Graph, c: Id, k: Id, father: Node, h: Graph, ratio: real)
    requires Sound(g) && Owned(g) && AbsorbStep(g, c, k, father, h) && Fresh(g, ratio)
    ensures Wired(h) && Fresh(h, ratio)
  {
    var f := Other(g.edge[k], c);
    AbsorbEnds(g, c, k, father, h);
    AdoptParts(g.node[f], g.node[c], g.edge[k], father);
    assert EdgeHolds(g, FreshEdges(ratio), k) && FreshNodes(ratio)(g.node[f]) && FreshNodes(ratio)(g.node[c]);
    SwallowFresh(g.node[f], g.node[c], g.edge[k], father, ratio);
    AbsorbHolds(g, c, k, f, father, h, FreshNodes(ratio), FreshEdges(ratio));
  }

  lemma AbsorbKeepsOwned(g: Graph, c: Id, k: Id, f: Id, father: Node, h: Graph)
    requires Owned(g) && AbsorbMoves(g, c, k, f, father, h) && Adopted(g.node[f], g.node[c], g.edge[k], father)
    ensures Owned(h)
  {
    AdoptIds(g.node[f], g.node[c], g.edge[k], father);
    AbsorbDisjoint(g, c, k, f, father, h, NodeIds, EdgeIds);
    AdoptForest(g.node[f], g.node[c], g.edge[k], father);
    AbsorbEach(g, c, k, f, father, h, ForestNode, ForestEdge);
  }

  lemma AbsorbConserves(g: Graph, c: Id, k: Id, f: Id, father: Node, h: Graph, x: Assign, ratio: real)
    requires AbsorbMoves(g, c, k, f, father, h) && Adopted(g.node[f], g.node[c], g.edge[k], father)
    ensures GraphBase(h, x, ratio) == GraphBase(g, x, ratio)
    ensures Legal(h, x) <==> Legal(g, x)
  {
    AdoptBase(g.node[f], g.node[c], g.edge[k], father, x, ratio);
    AbsorbTotal(g, c, k, f, father, h, NodeBases(x, ratio), EdgeBases(x, ratio));
    AdoptLegal(g.node[f], g.node[c], g.edge[k], father, x);
    AbsorbEach(g, c, k, f, father, h, LegalNodes(x), LegalEdges(x));
  }

  // ----- merging -----

  lemma MergeKeepsSound(g: Graph, f: Id, s: Id, common: Option<Id>, m: Node, h: Graph)
    requires Merging(g, f, s, common, m, h)
    ensures Sound(h)
  {
    MergingReady(g, f, s, common, m, h);
    MergeShape(g.node[f], g.node[s], CommonEdge(g, common), m);
    forall k | k in h.edge ensures Lands(h, ShapeEdge, k) { MergingShape(g, f, s, common, m, h, k); }
    MergeHolds(g, f, s, common, m, h, ShapeNode, ShapeEdge);
  }

  lemma MergeKeepsFresh(g: Graph, f: Id, s: Id, common: Option<Id>, m: Node, h: Graph, ratio: real)
    requires Merging(g, f, s, common, m, h) && Fresh(g, ratio)
    ensures Wired(h) && Fresh(h, ratio)
  {
    MergedIsFresh(g, f, s, common, m, h, ratio);
    forall k | k in h.edge ensures Lands(h, FreshEdges(ratio), k) { MergingFresh(g, f, s, common, m, h, k, ratio); }
    MergeHolds(g, f, s, common, m, h, FreshNodes(ratio), FreshEdges(ratio));
  }

  lemma MergedIsFresh(g: Graph, f: Id, s: Id, common: Option<Id>, m: Node, h: Graph, ratio: real)
    requires Merging(g, f, s, common, m, h) && Fresh(g, ratio)
    ensures FreshNode(m, ratio)
  {
    MergingReady(g, f, s, common, m, h);
    assert FreshNodes(ratio)(g.node[f]) && FreshNodes(ratio)(g.node[s]);
    LiveNode(g, f);
    LiveNode(g, s);
    if common.Some? { assert EdgeHolds(g, FreshEdges(ratio), common.value); }
    MergeFresh(g.node[f], g.node[s], CommonEdge(g, common), m, ratio);
  }

  lemma RedirectedIds(e: Edge, d: Edge, f: Id, s: Id, m: Node, width: nat)
    requires m.body.Merged? && Redirected(e, d, f, s, m, width)
    ensures EdgeIds(d) == EdgeIds(e) && (ForestEdge(d) <==> ForestEdge(e))
  {
    if e.start == f || e.start == s {
      CopyIds(e, d, m.id, e.end, HalfPick(e.start, f, m.body.pairs), Identity(width));
    } else if e.end == f || e.end == s {
      CopyIds(e, d, e.start, m.id, Identity(width), HalfPick(e.end, f, m.body.pairs));
    }
  }

  lemma MergedForest(g: Graph, f: Id, s: Id, common: Option<Id>, m: Node, h: Graph)
    requires Wired(g) && Owned(g) && MergeMoves(g, f, s, common, m, h) && Unused(g, m.id)
    requires Joined(g.node[f], g.node[s], CommonEdge(g, common), m)
    ensures ForestNode(m)
    ensures NodeIds(m) == {m.id} + NodeIds(g.node[f]) + NodeIds(g.node[s])
                          + (if common.Some? then EdgeIds(g.edge[common.value]) else {})
  {
    var c := CommonEdge(g, common);
    MergeIds(g.node[f], g.node[s], c, m);
    OwnedApart(g, f, s);
    if common.Some? { EdgeApart(g, common.value, f); EdgeApart(g, common.value, s); }
    MergeForest(g.node[f], g.node[s], c, m);
  }

  lemma MergeKeepsOwned(g: Graph, f: Id, s: Id, common: Option<Id>, m: Node, h: Graph)
    requires Wired(g) && Owned(g) && MergeMoves(g, f, s, common, m, h) && Unused(g, m.id)
    requires Joined(g.node[f], g.node[s], CommonEdge(g, common), m)
    requires forall k :: k in h.edge ==> Redirected(g.edge[k], h.edge[k], f, s, m, Width(g, g.edge[k], f, s))
    ensures Owned(h)
  {
    forall k | k in h.edge ensures EdgeIds(h.edge[k]) == EdgeIds(g.edge[k]) && ForestEdge(h.edge[k]) {
      RedirectedIds(g.edge[k], h.edge[k], f, s, m, Width(g, g.edge[k], f, s));
      assert ForestEdge(g.edge[k]);
    }
    MergedForest(g, f, s, common, m, h);
    MergeDisjoint(g, f, s, common, m, h, NodeIds, EdgeIds);
    MergeEach(g, f, s, common, m, h, ForestNode, ForestEdge);
  }

  lemma RedirectedBase(e: Edge, d: Edge, f: Id, s: Id, m: Node, width: nat, x: Assign, ratio: real)
    requires m.body.Merged? && Redirected(e, d, f, s, m, width) && !Between(e, f, s) && e.start != e.end && f != s
    requires At(x, m.id) < |m.body.pairs| && m.body.pairs[At(x, m.id)] == (At(x, f), At(x, s))
    requires e.start == f || e.start == s ==> At(x, e.end) < width
    requires e.end == f || e.end == s ==> At(x, e.start) < width
    ensures EdgeBase(d, x, ratio) == EdgeBase(e, x, ratio)
    ensures LegalEdge(d, x) <==> LegalEdge(e, x)
  {
    if e.start == f || e.start == s {
      var pick := HalfPick(e.start, f, m.body.pairs);
      CopyBase(e, d, e.start, e.end, m.id, e.end, pick, Identity(width), x, ratio);
      CopyLegal(e, d, m.id, e.end, pick, Identity(width), x);
    } else if e.end == f || e.end == s {
      var pick := HalfPick(e.end, f, m.body.pairs);
      CopyBase(e, d, e.start, e.end, e.start, m.id, Identity(width), pick, x, ratio);
      CopyLegal(e, d, e.start, m.id, Identity(width), pick, x);
    }
  }

  lemma LegalInRange(n: Node, x: Assign)
    requires ShapeNode(n) && LegalNode(n, x)
    ensures At(x, n.id) < |n.cost|
  {
    assert PartsOf(n).id == n.id;
  }

  /** Every live node holds one of its own signatures. */
  /** The redirected edges keep their original cost and their legality. */
  lemma RedirectAll(g: Graph, f: Id, s: Id, common: Option<Id>, m: Node, h: Graph, x: Assign, ratio: real)
    requires Wired(g) && MergeMoves(g, f, s, common, m, h) && IsCommon(g, f, s, common)
    requires forall k :: k in h.edge ==> Redirected(g.edge[k], h.edge[k], f, s, m, Width(g, g.edge[k], f, s))
    requires Sigs(g, x) && PairFits(g.node[f], g.node[s], m, x)
    ensures forall k :: k in h.edge ==> EdgeBase(h.edge[k], x, ratio) == EdgeBase(g.edge[k], x, ratio)
    ensures forall k :: k in h.edge ==> (LegalEdge(h.edge[k], x) <==> LegalEdge(g.edge[k], x))
  {
    forall k | k in h.edge
      ensures EdgeBase(h.edge[k], x, ratio) == EdgeBase(g.edge[k], x, ratio)
      ensures LegalEdge(h.edge[k], x) <==> LegalEdge(g.edge[k], x)
    {
      var e := g.edge[k];
      assert !Between(e, f, s);
      RedirectedBase(e, h.edge[k], f, s, m, Width(g, e, f, s), x, ratio);
    }
  }

  lemma MergeLegalBack(g: Graph, f: Id, s: Id, common: Option<Id>, m: Node, h: Graph, pn: Node -> bool,
                       pe: Edge -> bool)
    requires MergeMoves(g, f, s, common, m, h) && Each(h, pn, pe) && pn(g.node[f]) && pn(g.node[s])
    requires common.Some? ==> pe(g.edge[common.value])
    requires forall k :: k in h.edge ==> (pe(h.edge[k]) <==> pe(g.edge[k]))
    ensures Each(g, pn, pe)
  {
    forall i | i in g.node ensures pn(g.node[i]) { assert i == f || i == s || h.node[i] == g.node[i]; }
    forall k | k in g.edge ensures pe(g.edge[k]) { assert k in h.edge || common == Some(k); }
  }

  lemma MergedDown(g: Graph, f: Id, s: Id, common: Option<Id>, m: Node, h: Graph, x: Assign)
    requires MergeMoves(g, f, s, common, m, h) && Joined(g.node[f], g.node[s], CommonEdge(g, common), m) && Legal(h, x)
    ensures PairFits(g.node[f], g.node[s], m, x)
    ensures LegalNode(g.node[f], x) && LegalNode(g.node[s], x)
    ensures common.Some? ==> LegalEdge(g.edge[common.value], x)
  {
    assert LegalNodes(x)(h.node[m.id]);
    MergeLegalDown(g.node[f], g.node[s], CommonEdge(g, common), m, x);
  }

  lemma LiveSig(g: Graph, i: Id, x: Assign)
    requires Sound(g) && i in g.node && LegalNode(g.node[i], x)
    ensures At(x, i) < |g.node[i].cost|
  {
    LiveNode(g, i);
    LegalInRange(g.node[i], x);
  }

  lemma NodesSigs(g: Graph, x: Assign)
    requires Sound(g) && forall i :: i in g.node ==> LegalNodes(x)(g.node[i])
    ensures Sigs(g, x)
  {
    forall i | i in g.node ensures At(x, i) < |g.node[i].cost| {
      assert LegalNodes(x)(g.node[i]);
      LiveSig(g, i, x);
    }
  }

  lemma MergeNodesBack(g: Graph, f: Id, s: Id, common: Option<Id>, m: Node, h: Graph, pn: Node -> bool)
    requires MergeMoves(g, f, s, common, m, h) && pn(g.node[f]) && pn(g.node[s])
    requires forall i :: i in h.node ==> pn(h.node[i])
    ensures forall i :: i in g.node ==> pn(g.node[i])
  {
    forall i | i in g.node ensures pn(g.node[i]) { assert i == f || i == s || h.node[i] == g.node[i]; }
  }

  lemma MergedBase(g: Graph, f: Id, s: Id, common: Option<Id>, m: Node, x: Assign, ratio: real)
    requires Wired(g) && f in g.node && s in g.node && f != s && IsCommon(g, f, s, common)
    requires Joined(g.node[f], g.node[s], CommonEdge(g, common), m) && PairFits(g.node[f], g.node[s], m, x)
    ensures NodeBases(x, ratio)(m) == NodeBases(x, ratio)(g.node[f]) + NodeBases(x, ratio)(g.node[s])
                                      + (if common.Some? then EdgeBases(x, ratio)(g.edge[common.value]) else 0.0)
  {
    MergeBase(g.node[f], g.node[s], CommonEdge(g, common), m, x, ratio);
  }

  lemma MergeConserves(g: Graph, f: Id, s: Id, common: Option<Id>, m: Node, h: Graph, x: Assign, ratio: real)
    requires Sound(g) && MergeStep(g, f, s, common, m, h) && Legal(h, x)
    ensures Legal(g, x) && GraphBase(h, x, ratio) == GraphBase(g, x, ratio)
  {
    MergedDown(g, f, s, common, m, h, x);
    MergeNodesBack(g, f, s, common, m, h, LegalNodes(x));
    NodesSigs(g, x);
    RedirectAll(g, f, s, common, m, h, x, ratio);
    MergeLegalBack(g, f, s, common, m, h, LegalNodes(x), LegalEdges(x));
    MergedBase(g, f, s, common, m, x, ratio);
    MergeTotal(g, f, s, common, m, h, NodeBases(x, ratio), EdgeBases(x, ratio));
  }

  /** An assignment of the smaller graph is one of the larger graph, at the same original cost. */
  lemma StepConserves(g: Graph, step: Step, h: Graph, x: Assign, ratio: real)
    requires Sound(g) && Owned(g) && Shrinks(g, step, h) && Legal(h, x)
    ensures Legal(g, x) && GraphBase(h, x, ratio) == GraphBase(g, x, ratio)
  {
    hide Owned, Legal, GraphBase;
    match step {
      case Fold(n, a, b, e) => FoldConserves(g, n, a, b, e, h, x, ratio);
      case Collapse(ks, e) => CollapseConserves(g, ks, e, h, x, ratio);
      case Absorb(c, k, father) => AbsorbConserves(g, c, k, Other(g.edge[k], c), father, h, x, ratio);
      case Merge(f, s, common, m) => MergeConserves(g, f, s, common, m, h, x, ratio);
    }
  }

  lemma StepKeepsSound(g: Graph, step: Step, h: Graph)
    requires Sound(g) && Owned(g) && Shrinks(g, step, h)
    ensures Sound(h)
  {
    hide Owned, Sound, FoldStep, CollapseStep, AbsorbStep, MergeStep;
    match step {
      case Fold(n, a, b, e) => FoldKeeps(g, n, a, b, e, h);
      case Collapse(ks, e) => CollapseKeeps(g, ks, e, h);
      case Absorb(c, k, father) => AbsorbKeepsSound(g, c, k, father, h);
      case Merge(f, s, common, m) => MergeKeepsSound(g, f, s, common, m, h);
    }
  }

  lemma StepKeepsOwned(g: Graph, step: Step, h: Graph)
    requires Sound(g) && Owned(g) && Shrinks(g, step, h)
    ensures Owned(h)
  {
    hide Owned;
    match step {
      case Fold(n, a, b, e) => FoldKeepsOwned(g, n, a, b, e, h);
      case Collapse(ks, e) => CollapseKeepsOwned(g, ks, e, h);
      case Absorb(c, k, father) => AbsorbKeepsOwned(g, c, k, Other(g.edge[k], c), father, h);
      case Merge(f, s, common, m) => MergeKeepsOwned(g, f, s, common, m, h);
    }
  }

  lemma StepKeepsFresh(g: Graph, step: Step, h: Graph, ratio: real)
    requires Sound(g) && Owned(g) && Shrinks(g, step, h) && Fresh(g, ratio)
    ensures Wired(h) && Fresh(h, ratio)
  {
    hide Owned, FoldStep, CollapseStep, AbsorbStep, MergeStep;
    match step {
      case Fold(n, a, b, e) => FoldKeeps(g, n, a, b, e, h);
      case Collapse(ks, e) => CollapseKeeps(g, ks, e, h);
      case Absorb(c, k, father) => AbsorbKeepsFresh(g, c, k, father, h, ratio);
      case Merge(f, s, common, m) => MergeKeepsFresh(g, f, s, common, m, h, ratio);
    }
  }
}
