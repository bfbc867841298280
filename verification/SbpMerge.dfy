/** Merging two live nodes. */
module SbpMerge {
  import opened Wrappers
  import opened Sums
  import opened SbpForest
  import opened SbpOwnership
  import opened SbpSteps
  import opened SbpObjects

  lemma MergeNodeTotal(g: Graph, f: Id, s: Id, m: Node, h: Graph, fn: Node -> real)
    requires f in g.node && s in g.node && f != s && m.id !in g.node && h.node == (g.node - {f, s})[m.id := m]
    ensures Sum(h.node.Keys, NodeTerm(h, fn)) == Sum(g.node.Keys, NodeTerm(g, fn)) - fn(g.node[f]) - fn(g.node[s])
            + fn(m)
  {
    assert h.node.Keys == g.node.Keys - {f} - {s} + {m.id};
    SumSwap(g.node.Keys, f, s, m.id, NodeTerm(g, fn), NodeTerm(h, fn));
  }

  lemma MergeEdgeTotal(g: Graph, common: Option<Id>, h: Graph, fe: Edge -> real)
    requires common.Some? ==> common.value in g.edge
    requires h.edge.Keys == g.edge.Keys - (if common.Some? then {common.value} else {})
    requires forall k :: k in h.edge ==> fe(h.edge[k]) == fe(g.edge[k])
    ensures Sum(h.edge.Keys, EdgeTerm(h, fe))
         == Sum(g.edge.Keys, EdgeTerm(g, fe)) - (if common.Some? then fe(g.edge[common.value]) else 0.0)
  {
    SumSame(h.edge.Keys, EdgeTerm(g, fe), EdgeTerm(h, fe));
    if common.Some? {
      SumTake(g.edge.Keys, common.value, EdgeTerm(g, fe));
    } else {
      assert h.edge.Keys == g.edge.Keys;
    }
  }

  lemma MergeTotal(g: Graph, f: Id, s: Id, common: Option<Id>, m: Node, h: Graph, fn: Node -> real, fe: Edge -> real)
    requires MergeMoves(g, f, s, common, m, h)
    requires fn(m) == fn(g.node[f]) + fn(g.node[s]) + (if common.Some? then fe(g.edge[common.value]) else 0.0)
    requires forall k :: k in h.edge ==> fe(h.edge[k]) == fe(g.edge[k])
    ensures Total(h, fn, fe) == Total(g, fn, fe)
  {
    MergeNodeTotal(g, f, s, m, h, fn);
    MergeEdgeTotal(g, common, h, fe);
  }

  lemma MergeDisjoint(g: Graph, f: Id, s: Id, common: Option<Id>, m: Node, h: Graph,
                      nodeIds: Node -> set<Id>, edgeIds: Edge -> set<Id>)
    requires MergeMoves(g, f, s, common, m, h) && Disjoint(g, nodeIds, edgeIds)
    requires nodeIds(m) == {m.id} + nodeIds(g.node[f]) + nodeIds(g.node[s])
                           + (if common.Some? then edgeIds(g.edge[common.value]) else {})
    requires forall k :: k in h.edge ==> edgeIds(h.edge[k]) == edgeIds(g.edge[k])
    requires forall i :: i in g.node ==> m.id !in nodeIds(g.node[i])
    requires forall k :: k in g.edge ==> m.id !in edgeIds(g.edge[k])
    ensures Disjoint(h, nodeIds, edgeIds)
  {
  }

  /** The edge k joins two different live nodes and has the property pe there. */
  ghost predicate Lands(h: Graph, pe: (Edge, Parts, Parts) -> bool, k: Id) {
    && k in h.edge && h.edge[k].id == k
    && h.edge[k].start in h.node && h.edge[k].end in h.node && h.edge[k].start != h.edge[k].end
    && pe(h.edge[k], PartsOf(h.node[h.edge[k].start]), PartsOf(h.node[h.edge[k].end]))
  }

  lemma MergeHolds(g: Graph, f: Id, s: Id, common: Option<Id>, m: Node, h: Graph, pn: Node -> bool,
                   pe: (Edge, Parts, Parts) -> bool)
    requires Wired(g) && (forall i :: i in g.node ==> pn(g.node[i])) && MergeMoves(g, f, s, common, m, h)
    requires pn(m)
    requires forall k :: k in h.edge ==> Lands(h, pe, k)
    ensures Wired(h) && Holds(h, pn, pe)
  {
    assert Wired(h) by {
      forall k | k in h.edge ensures Lands(h, pe, k) { }
    }
    forall k | k in h.edge ensures EdgeHolds(h, pe, k) { assert Lands(h, pe, k); }
  }

  lemma MergeEach(g: Graph, f: Id, s: Id, common: Option<Id>, m: Node, h: Graph, pn: Node -> bool, pe: Edge -> bool)
    requires MergeMoves(g, f, s, common, m, h) && Each(g, pn, pe) && pn(m)
    requires forall k :: k in h.edge ==> pe(h.edge[k])
    ensures Each(h, pn, pe)
  {
  }

  lemma RedirectStart(e: Edge, d: Edge, f: Node, s: Node, common: Option<Edge>, m: Node, t: Parts)
    requires MergeReady(f, s, common, m) && (e.start == f.id || e.start == s.id) && e.end == t.id
    requires ShapeEdge(e, End(PartsOf(f), PartsOf(s), e.start), t)
    requires Copied(e, d, m.id, e.end, HalfPick(e.start, f.id, m.body.pairs), Identity(Size(t)))
    requires Comps(t) !! Comps(PartsOf(m)) && EdgeIds(e) !! Comps(PartsOf(m)) && EdgeIds(e) !! Comps(t)
    ensures ShapeEdge(d, PartsOf(m), t)
    ensures forall ratio: real :: FreshEdge(e, End(PartsOf(f), PartsOf(s), e.start), t, ratio) ==>
                                  FreshEdge(d, PartsOf(m), t, ratio)
  {
    MergeParts(f, s, common, m);
    WidensSelf(t);
    var half := End(PartsOf(f), PartsOf(s), e.start);
    var pick := HalfPick(e.start, f.id, m.body.pairs);
    CopyShape(e, d, half, t, PartsOf(m), t, pick, Identity(Size(t)));
    forall ratio: real | FreshEdge(e, half, t, ratio) ensures FreshEdge(d, PartsOf(m), t, ratio) {
      CopyFresh(e, d, half, t, PartsOf(m), t, pick, Identity(Size(t)), ratio);
    }
  }

  lemma RedirectEnd(e: Edge, d: Edge, f: Node, s: Node, common: Option<Edge>, m: Node, t: Parts)
    requires MergeReady(f, s, common, m) && (e.end == f.id || e.end == s.id) && e.start == t.id
    requires ShapeEdge(e, t, End(PartsOf(f), PartsOf(s), e.end))
    requires Copied(e, d, e.start, m.id, Identity(Size(t)), HalfPick(e.end, f.id, m.body.pairs))
    requires Comps(t) !! Comps(PartsOf(m)) && EdgeIds(e) !! Comps(PartsOf(m)) && EdgeIds(e) !! Comps(t)
    ensures ShapeEdge(d, t, PartsOf(m))
    ensures forall ratio: real :: FreshEdge(e, t, End(PartsOf(f), PartsOf(s), e.end), ratio) ==>
                                  FreshEdge(d, t, PartsOf(m), ratio)
  {
    MergeParts(f, s, common, m);
    WidensSelf(t);
    var half := End(PartsOf(f), PartsOf(s), e.end);
    var pick := HalfPick(e.end, f.id, m.body.pairs);
    CopyShape(e, d, t, half, t, PartsOf(m), Identity(Size(t)), pick);
    forall ratio: real | FreshEdge(e, t, half, ratio) ensures FreshEdge(d, t, PartsOf(m), ratio) {
      CopyFresh(e, d, t, half, t, PartsOf(m), Identity(Size(t)), pick, ratio);
    }
  }

  // ----- in the graph -----

  ghost predicate Merging(g: Graph, f: Id, s: Id, common: Option<Id>, m: Node, h: Graph) {
    Sound(g) && Owned(g) && MergeStep(g, f, s, common, m, h)
  }

  lemma LiveNode(g: Graph, i: Id)
    requires Sound(g) && i in g.node
    ensures ShapeNode(g.node[i]) && g.node[i].id == i && PartsOf(g.node[i]).id == i
  {
  }

  lemma LiveEdge(g: Graph, k: Id)
    requires Sound(g) && k in g.edge
    ensures var e := g.edge[k];
            && e.start in g.node && e.end in g.node && e.start != e.end
            && ShapeEdge(e, PartsOf(g.node[e.start]), PartsOf(g.node[e.end]))
  {
    assert EdgeHolds(g, ShapeEdge, k);
  }

  lemma OwnedApart(g: Graph, i: Id, j: Id)
    requires Owned(g) && i in g.node && j in g.node && i != j
    ensures NodeIds(g.node[i]) !! NodeIds(g.node[j])
    ensures Comps(PartsOf(g.node[i])) !! Comps(PartsOf(g.node[j]))
  {
    CompsAreOwned(g.node[i]);
    CompsAreOwned(g.node[j]);
    assert NodeIds(g.node[i]) !! NodeIds(g.node[j]);
  }

  lemma EdgeApart(g: Graph, k: Id, i: Id)
    requires Owned(g) && k in g.edge && i in g.node
    ensures EdgeIds(g.edge[k]) !! NodeIds(g.node[i]) && EdgeIds(g.edge[k]) !! Comps(PartsOf(g.node[i]))
  {
    CompsAreOwned(g.node[i]);
    assert NodeIds(g.node[i]) !! EdgeIds(g.edge[k]);
  }

  lemma UnusedApart(g: Graph, m: Id, i: Id)
    requires Unused(g, m) && i in g.node
    ensures m !in NodeIds(g.node[i]) && m !in Comps(PartsOf(g.node[i]))
  {
    CompsAreOwned(g.node[i]);
  }

  lemma MergingReady(g: Graph, f: Id, s: Id, common: Option<Id>, m: Node, h: Graph)
    requires Merging(g, f, s, common, m, h)
    ensures MergeReady(g.node[f], g.node[s], CommonEdge(g, common), m)
  {
    LiveNode(g, f);
    LiveNode(g, s);
    OwnedApart(g, f, s);
    UnusedApart(g, m.id, f);
    UnusedApart(g, m.id, s);
    if common.Some? {
      LiveEdge(g, common.value);
      EdgeApart(g, common.value, f);
      EdgeApart(g, common.value, s);
    }
  }

  lemma MergingClear(g: Graph, f: Id, s: Id, common: Option<Id>, m: Node, h: Graph, k: Id, j: Id)
    requires Merging(g, f, s, common, m, h) && k in g.edge && j in g.node && j != f && j != s
    ensures var p := PartsOf(g.node[j]);
            && Comps(p) !! Comps(PartsOf(m)) && EdgeIds(g.edge[k]) !! Comps(PartsOf(m))
               && EdgeIds(g.edge[k]) !! Comps(p)
            && h.node[j] == g.node[j]
  {
    MergingReady(g, f, s, common, m, h);
    MergeParts(g.node[f], g.node[s], CommonEdge(g, common), m);
    EdgeApart(g, k, f);
    EdgeApart(g, k, s);
    EdgeApart(g, k, j);
    OwnedApart(g, j, f);
    OwnedApart(g, j, s);
    UnusedApart(g, m.id, j);
  }

  /** The edge d of the merged graph is as sound and as fresh as the edge e it was. */
  ghost predicate Carried(g: Graph, e: Edge, h: Graph, d: Edge) {
    && e.start in g.node && e.end in g.node
    && d.start in h.node && d.end in h.node && d.start != d.end
    && ShapeEdge(d, PartsOf(h.node[d.start]), PartsOf(h.node[d.end]))
    && forall ratio: real :: FreshEdge(e, PartsOf(g.node[e.start]), PartsOf(g.node[e.end]), ratio) ==>
                             FreshEdge(d, PartsOf(h.node[d.start]), PartsOf(h.node[d.end]), ratio)
  }

  /** What is known of a live edge k at one end j of which the merged node arrives. */
  ghost predicate Arriving(g: Graph, f: Id, s: Id, common: Option<Edge>, m: Node, h: Graph, k: Id, j: Id) {
    && k in g.edge && k in h.edge && f in g.node && s in g.node && j in g.node && j in h.node && m.id in h.node
    && h.node[m.id] == m && h.node[j] == g.node[j] && j != m.id
    && PartsOf(g.node[f]).id == f && PartsOf(g.node[s]).id == s && PartsOf(g.node[j]).id == j
    && g.node[f].id == f && g.node[s].id == s && g.node[j].id == j && f != s
    && MergeReady(g.node[f], g.node[s], common, m)
    && Size(PartsOf(g.node[j])) == |g.node[j].cost|
    && Comps(PartsOf(g.node[j])) !! Comps(PartsOf(m))
    && EdgeIds(g.edge[k]) !! Comps(PartsOf(m)) && EdgeIds(g.edge[k]) !! Comps(PartsOf(g.node[j]))
  }

  lemma CarryStart(g: Graph, f: Id, s: Id, common: Option<Edge>, m: Node, h: Graph, k: Id)
    requires k in g.edge && k in h.edge && Arriving(g, f, s, common, m, h, k, g.edge[k].end)
    requires var e := g.edge[k];
             && (e.start == f || e.start == s)
             && ShapeEdge(e, PartsOf(g.node[e.start]), PartsOf(g.node[e.end]))
             && Copied(e, h.edge[k], m.id, e.end, HalfPick(e.start, f, m.body.pairs), Identity(|g.node[e.end].cost|))
    ensures Carried(g, g.edge[k], h, h.edge[k])
  {
    RedirectStart(g.edge[k], h.edge[k], g.node[f], g.node[s], common, m, PartsOf(g.node[g.edge[k].end]));
  }

  lemma CarryEnd(g: Graph, f: Id, s: Id, common: Option<Edge>, m: Node, h: Graph, k: Id)
    requires k in g.edge && k in h.edge && Arriving(g, f, s, common, m, h, k, g.edge[k].start)
    requires var e := g.edge[k];
             && (e.end == f || e.end == s)
             && ShapeEdge(e, PartsOf(g.node[e.start]), PartsOf(g.node[e.end]))
             && Copied(e, h.edge[k], e.start, m.id, Identity(|g.node[e.start].cost|), HalfPick(e.end, f, m.body.pairs))
    ensures Carried(g, g.edge[k], h, h.edge[k])
  {
    RedirectEnd(g.edge[k], h.edge[k], g.node[f], g.node[s], common, m, PartsOf(g.node[g.edge[k].start]));
  }

  lemma MergingArrives(g: Graph, f: Id, s: Id, common: Option<Id>, m: Node, h: Graph, k: Id, j: Id)
    requires Merging(g, f, s, common, m, h) && k in h.edge && j in g.node && j != f && j != s
    ensures Arriving(g, f, s, CommonEdge(g, common), m, h, k, j)
  {
    MergingReady(g, f, s, common, m, h);
    MergingClear(g, f, s, common, m, h, k, j);
    LiveNode(g, f);
    LiveNode(g, s);
    LiveNode(g, j);
  }

  lemma MergingSelf(g: Graph, f: Id, s: Id, common: Option<Id>, m: Node, h: Graph, k: Id)
    requires Wired(g) && MergeStep(g, f, s, common, m, h) && k in h.edge
    ensures h.edge[k].id == k && k in g.edge && !Between(g.edge[k], f, s)
    ensures Redirected(g.edge[k], h.edge[k], f, s, m, Width(g, g.edge[k], f, s))
    ensures g.edge[k].start in g.node && g.edge[k].end in g.node && g.edge[k].start != g.edge[k].end
  {
  }

  /** One edge of the merged graph, with the merge trees of its ends. */
  lemma MergingEdge(g: Graph, f: Id, s: Id, common: Option<Id>, m: Node, h: Graph, k: Id)
    requires Merging(g, f, s, common, m, h) && k in h.edge
    ensures h.edge[k].id == k && Carried(g, g.edge[k], h, h.edge[k])
  {
    var e := g.edge[k];
    MergingSelf(g, f, s, common, m, h, k);
    LiveEdge(g, k);
    if e.start == f || e.start == s {
      MergingArrives(g, f, s, common, m, h, k, e.end);
      CarryStart(g, f, s, CommonEdge(g, common), m, h, k);
    } else if e.end == f || e.end == s {
      MergingArrives(g, f, s, common, m, h, k, e.start);
      CarryEnd(g, f, s, CommonEdge(g, common), m, h, k);
    }
  }

  lemma MergingShape(g: Graph, f: Id, s: Id, common: Option<Id>, m: Node, h: Graph, k: Id)
    requires Merging(g, f, s, common, m, h) && k in h.edge
    ensures Lands(h, ShapeEdge, k)
  {
    MergingEdge(g, f, s, common, m, h, k);
  }

  lemma MergingFresh(g: Graph, f: Id, s: Id, common: Option<Id>, m: Node, h: Graph, k: Id, ratio: real)
    requires Merging(g, f, s, common, m, h) && k in h.edge && Fresh(g, ratio)
    ensures Lands(h, FreshEdges(ratio), k)
  {
    MergingEdge(g, f, s, common, m, h, k);
    assert EdgeHolds(g, FreshEdges(ratio), k);
  }
}
