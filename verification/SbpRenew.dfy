/** ReComputeWeightedCost over the live graph. */
module SbpRenew {
  import opened Sums
  import opened SbpForest
  import opened SbpOwnership
  import opened SbpSteps
  import opened SbpRun
  import opened SbpHandDown
  import opened SbpLists
  import opened SbpState
  import opened SbpOps
  import opened SbpRecompute
  import opened SbpRefresh
  import opened SbpUnique
  import SbpDriver

  // Function values, so that the conditions stay whole.
  ghost function NodeRedone(r: real): (Node, Node) -> bool {
    (n, m) => LikeNode(n, m) && ShapeNode(m) && FreshNode(m, r)
  }

  ghost function EdgeRedone(r: real): (Edge, Edge, Parts, Parts) -> bool {
    (e, d, s, t) => LikeEdge(e, d) && ShapeEdge(d, s, t) && FreshEdge(d, s, t, r)
  }

  /** The live edge k of g and its recomputed form. */
  ghost predicate RedoneAt(g: Graph, d: Edge, k: Id, r: real) {
    && k in g.edge && g.edge[k].start in g.node && g.edge[k].end in g.node
    && EdgeRedone(r)(g.edge[k], d, PartsOf(g.node[g.edge[k].start]), PartsOf(g.node[g.edge[k].end]))
  }

  /** The nodes in done and the edges in ties have been recomputed; the others are as they were. */
  ghost predicate Halfway(g: Graph, h: Graph, done: set<Id>, ties: set<Id>, r: real) {
    && h.node.Keys == g.node.Keys && h.edge.Keys == g.edge.Keys
    && (forall i :: i in g.node ==> if i in done then NodeRedone(r)(g.node[i], h.node[i]) else h.node[i] == g.node[i])
    && (forall k :: k in g.edge ==> if k in ties then RedoneAt(g, h.edge[k], k, r) else h.edge[k] == g.edge[k])
  }

  lemma SameParts(g: Graph, h: Graph, done: set<Id>, ties: set<Id>, r: real, i: Id)
    requires Halfway(g, h, done, ties, r) && i in g.node
    ensures i in h.node && PartsOf(h.node[i]) == PartsOf(g.node[i])
  {
    hide ShapeNode, FreshNode, EdgeRedone;
    if i in done {
      assert NodeRedone(r)(g.node[i], h.node[i]);
      LikeParts(g.node[i], h.node[i]);
    }
  }

  lemma LiveShapes(g: Graph, k: Id, ratio: real)
    requires k in g.edge && GoodAt(ratio)(g)
    ensures var e := g.edge[k];
            e.start in g.node && e.end in g.node && ShapeEdge(e, PartsOf(g.node[e.start]), PartsOf(g.node[e.end]))
  {
    assert EdgeHolds(g, ShapeEdge, k);
  }

  method RedoEdge(g: Graph, h: Graph, k: Id, ghost done: set<Id>, ghost ties: set<Id>, r: real, ghost ratio: real)
    returns (d: Edge)
    requires k in h.edge && k in g.edge && k !in ties && Halfway(g, h, done, ties, r) && GoodAt(ratio)(g)
    ensures RedoneAt(g, d, k, r)
  {
    hide GoodAt, ShapeEdge, FreshEdge, LikeEdge, Halfway;
    LiveShapes(g, k, ratio);
    UntouchedEdge(g, h, done, ties, r, k);
    var e := g.edge[k];
    SameParts(g, h, done, ties, r, e.start);
    SameParts(g, h, done, ties, r, e.end);
    d := RecomputeEdge(h.edge[k], PartsOf(h.node[e.start]), PartsOf(h.node[e.end]), r);
  }

  lemma UntouchedEdge(g: Graph, h: Graph, done: set<Id>, ties: set<Id>, r: real, k: Id)
    requires Halfway(g, h, done, ties, r) && k in g.edge && k !in ties
    ensures k in h.edge && h.edge[k] == g.edge[k]
  {
  }

  method RedoNode(g: Graph, h: Graph, n: Id, ghost done: set<Id>, ghost ties: set<Id>, r: real, ghost ratio: real)
    returns (h': Graph)
    requires n in g.node && n !in done && Halfway(g, h, done, ties, r) && GoodAt(ratio)(g)
    ensures Halfway(g, h', done + {n}, ties, r)
  {
    hide GoodAt, ShapeNode, FreshNode, LikeNode, RedoneAt;
    assert n in h.node && h.node[n] == g.node[n];
    GoodNode(g, ratio, n);
    var m := RecomputeNode(h.node[n], r);
    h' := Graph(h.node[n := m], h.edge);
  }

  lemma EdgeKnown(g: Graph, h: Graph, k: Id, done: set<Id>, ties: set<Id>, r: real)
    requires Halfway(g, h, done, ties, r)
    ensures k in h.edge <==> k in g.edge
  {
    hide NodeRedone, RedoneAt;
  }

  lemma OneEdgeMore(g: Graph, h: Graph, k: Id, d: Edge, done: set<Id>, ties: set<Id>, r: real)
    requires Halfway(g, h, done, ties, r) && k in g.edge && RedoneAt(g, d, k, r)
    ensures Halfway(g, Graph(h.node, h.edge[k := d]), done, ties + {k}, r)
  {
    hide NodeRedone, RedoneAt;
  }

  /** One live node, and then the edges out of it. */
  method RedoLive(g: Graph, h: Graph, n: Id, outs: seq<Id>, ghost done: set<Id>, ghost ties: set<Id>, r: real,
                  ghost ratio: real) returns (h': Graph)
    requires n in g.node && n !in done && Distinct(outs) && (forall k :: k in outs ==> k in g.edge && k !in ties)
    requires Halfway(g, h, done, ties, r) && GoodAt(ratio)(g)
    ensures Halfway(g, h', done + {n}, ties + Elems(outs), r)
  {
    hide GoodAt, Halfway;
    h' := RedoNode(g, h, n, done, ties, r, ratio);
    assert ties + Elems(outs[..0]) == ties;
    for j := 0 to |outs|
      invariant Halfway(g, h', done + {n}, ties + Elems(outs[..j]), r)
    {
      var k := outs[j];
      assert k in outs && k !in outs[..j];
      assert outs[..j + 1] == outs[..j] + [k];
      EdgeKnown(g, h', k, done + {n}, ties + Elems(outs[..j]), r);
      var d := RedoEdge(g, h', k, done + {n}, ties + Elems(outs[..j]), r, ratio);
      OneEdgeMore(g, h', k, d, done + {n}, ties + Elems(outs[..j]), r);
      h' := Graph(h'.node, h'.edge[k := d]);
      assert ties + Elems(outs[..j + 1]) == ties + Elems(outs[..j]) + {k};
    }
    assert outs[..|outs|] == outs;
  }

  /** The edges that start at one of the first i nodes of the list. */
  ghost function Behind(v: View, i: nat): set<Id>
    requires i <= |v.nodeList|
  {
    set k | k in v.g.edge && v.g.edge[k].start in Elems(v.nodeList[..i])
  }

  lemma NextLive(v: View, i: nat, ratio: real)
    requires i < |v.nodeList| && Ok(ratio)(v)
    ensures var n := v.nodeList[i];
            && Has(v, n) && n !in Elems(v.nodeList[..i]) && Elems(v.nodeList[..i + 1]) == Elems(v.nodeList[..i]) + {n}
            && Distinct(v.out[n]) && (forall k :: k in v.out[n] ==> k in v.g.edge && k !in Behind(v, i))
            && Behind(v, i + 1) == Behind(v, i) + Elems(v.out[n])
  {
    hide Ok, GoodAt;
    SbpDriver.SlotOf(v, i, ratio);
    OkParts(v, ratio);
    var n := v.nodeList[i];
    assert v.nodeList[..i + 1] == v.nodeList[..i] + [n];
    assert OutList(v.g.edge, n, v.out[n]);
  }

  lemma AllBehind(v: View, ratio: real)
    requires Ok(ratio)(v)
    ensures Elems(v.nodeList[..|v.nodeList|]) == v.g.node.Keys && Behind(v, |v.nodeList|) == v.g.edge.Keys
  {
    hide Ok, GoodAt, Listed;
    OkParts(v, ratio);
    GoodWired(v.g, ratio);
    assert v.nodeList[..|v.nodeList|] == v.nodeList;
    forall i | i in v.g.node ensures i in Elems(v.nodeList) { assert v.nodeList[v.listId[i]] == i; }
  }

  method RecomputeAll(v: View, r: real, ghost ratio: real) returns (w: View)
    requires Ok(ratio)(v)
    ensures Ok(r)(w) && LikeGraph(v.g, w.g) && w == v.(g := w.g)
    ensures r == ratio ==> SameTables(v.g, w.g)
  {
    hide Ok, GoodAt, Halfway, LikeGraph, Behind;
    var h := v.g;
    StartHalfway(v, r);
    OkParts(v, ratio);
    for i := 0 to |v.nodeList|
      invariant Halfway(v.g, h, Elems(v.nodeList[..i]), Behind(v, i), r)
    {
      NextLive(v, i, ratio);
      var n := v.nodeList[i];
      h := RedoLive(v.g, h, n, v.out[n], Elems(v.nodeList[..i]), Behind(v, i), r, ratio);
    }
    AllBehind(v, ratio);
    w := v.(g := h);
    Renewed(v, w, r, ratio);
  }

  lemma StartHalfway(v: View, r: real)
    ensures Halfway(v.g, v.g, Elems(v.nodeList[..0]), Behind(v, 0), r)
  {
  }

  // ----- at the end -----

  /** Every live cost table is the same. */
  ghost predicate SameTables(g: Graph, h: Graph) {
    && (forall i :: i in g.node ==> i in h.node && h.node[i].cost == g.node[i].cost)
    && (forall k :: k in g.edge ==> k in h.edge && h.edge[k].cost == g.edge[k].cost)
  }

  lemma Renewed(v: View, w: View, r: real, ratio: real)
    requires Halfway(v.g, w.g, v.g.node.Keys, v.g.edge.Keys, r) && w == v.(g := w.g) && Ok(ratio)(v)
    ensures Ok(r)(w) && LikeGraph(v.g, w.g)
    ensures r == ratio ==> SameTables(v.g, w.g)
  {
    hide Ok, GoodAt, LikeGraph, Halfway, Good, Indexed, Listed, Beyond, RangedGraph;
    OkParts(v, ratio);
    OkRest(v, ratio);
    AllAlike(v.g, w.g, r);
    RenewedGood(v.g, w.g, r, ratio);
    RenewedLists(v, w);
    RenewedIds(v.g, w.g, v.next);
    LikeRanged(v.g, w.g, v.final);
    OkFrom(w, r);
    if r == ratio { Reproduced(v.g, w.g, r); }
  }

  lemma OkFrom(w: View, r: real)
    requires Good(w.g, r) && Lists(w) && Beyond(w.g, w.next) && RangedGraph(w.g, w.final)
    ensures Ok(r)(w)
  {
    hide Good, Indexed, Listed, Beyond, RangedGraph;
  }

  lemma AllAlike(g: Graph, h: Graph, r: real)
    requires Halfway(g, h, g.node.Keys, g.edge.Keys, r)
    ensures LikeGraph(g, h)
  {
    hide LikeNode, LikeEdge, ShapeNode, FreshNode, ShapeEdge, FreshEdge;
    forall i | i in g.node ensures LikeNode(g.node[i], h.node[i]) { assert NodeRedone(r)(g.node[i], h.node[i]); }
    forall k | k in g.edge ensures LikeEdge(g.edge[k], h.edge[k]) { assert RedoneAt(g, h.edge[k], k, r); }
  }

  lemma RenewedLists(v: View, w: View)
    requires Lists(v) && LikeGraph(v.g, w.g) && w == v.(g := w.g)
    ensures Lists(w)
  {
    hide LikeNode, LikeEdge;
    forall k | k in v.g.edge ensures w.g.edge[k].start == v.g.edge[k].start && w.g.edge[k].end == v.g.edge[k].end {
      LikeEnds(v.g.edge[k], w.g.edge[k]);
    }
    hide OutList, InList, LikeGraph;
    forall i | i in v.g.node ensures OutList(w.g.edge, i, v.out[i]) && InList(w.g.edge, i, v.into[i]) {
      RenewedAt(v.g.edge, w.g.edge, i, v.out[i], v.into[i]);
    }
  }

  lemma RenewedAt(edge: map<Id, Edge>, edge': map<Id, Edge>, i: Id, outs: seq<Id>, ins: seq<Id>)
    requires edge'.Keys == edge.Keys && forall k :: k in edge ==>
             edge'[k].start == edge[k].start && edge'[k].end == edge[k].end
    requires OutList(edge, i, outs) && InList(edge, i, ins)
    ensures OutList(edge', i, outs) && InList(edge', i, ins)
  {
  }

  lemma RenewedIds(g: Graph, h: Graph, next: Id)
    requires LikeGraph(g, h) && Beyond(g, next)
    ensures Beyond(h, next)
  {
    hide LikeNode, LikeEdge;
    forall i | i >= next ensures Unused(h, i) {
      assert Unused(g, i);
      forall j | j in h.node ensures i !in NodeIds(h.node[j]) { LikeNodeIds(g.node[j], h.node[j]); }
      forall k | k in h.edge ensures i !in EdgeIds(h.edge[k]) { LikeEdgeIds(g.edge[k], h.edge[k]); }
    }
  }

  lemma RenewedGood(g: Graph, h: Graph, r: real, ratio: real)
    requires Halfway(g, h, g.node.Keys, g.edge.Keys, r) && LikeGraph(g, h) && GoodAt(ratio)(g)
    ensures Good(h, r)
  {
    hide GoodAt, LikeGraph, Halfway, Owned, Wired;
    GoodWired(g, ratio);
    GoodOwned(g, ratio);
    LikeWired(g, h);
    LikeOwned(g, h);
    RenewedHolds(g, h, r);
  }

  lemma RenewedHolds(g: Graph, h: Graph, r: real)
    requires Halfway(g, h, g.node.Keys, g.edge.Keys, r) && Wired(h)
    ensures Holds(h, ShapeNode, ShapeEdge) && Holds(h, FreshNodes(r), FreshEdges(r))
  {
    hide LikeNode, LikeEdge, ShapeNode, FreshNode, ShapeEdge, FreshEdge, EdgeHolds;
    forall i | i in h.node
      ensures ShapeNode(h.node[i]) && FreshNodes(r)(h.node[i])
    {
      assert NodeRedone(r)(g.node[i], h.node[i]);
    }
    forall k | k in h.edge ensures EdgeHolds(h, ShapeEdge, k) && EdgeHolds(h, FreshEdges(r), k) {
      RedoneHolds(g, h, k, r);
    }
  }

  lemma GoodOwned(g: Graph, ratio: real)
    requires GoodAt(ratio)(g)
    ensures Owned(g)
  {
  }

  lemma RedoneHolds(g: Graph, h: Graph, k: Id, r: real)
    requires Halfway(g, h, g.node.Keys, g.edge.Keys, r) && Wired(h) && k in h.edge
    ensures EdgeHolds(h, ShapeEdge, k) && EdgeHolds(h, FreshEdges(r), k)
  {
    hide ShapeNode, FreshNode, ShapeEdge, FreshEdge, LikeNode, LikeEdge;
    assert RedoneAt(g, h.edge[k], k, r);
    LikeEnds(g.edge[k], h.edge[k]);
    SameParts(g, h, g.node.Keys, g.edge.Keys, r, h.edge[k].start);
    SameParts(g, h, g.node.Keys, g.edge.Keys, r, h.edge[k].end);
  }

  lemma Reproduced(g: Graph, h: Graph, r: real)
    requires Halfway(g, h, g.node.Keys, g.edge.Keys, r) && GoodAt(r)(g)
    ensures SameTables(g, h)
  {
    hide GoodAt, ShapeNode, FreshNode, ShapeEdge, FreshEdge, LikeNode, LikeEdge;
    forall i | i in g.node ensures h.node[i].cost == g.node[i].cost { NodeReproduced(g, h, i, r); }
    forall k | k in g.edge ensures h.edge[k].cost == g.edge[k].cost { EdgeReproduced(g, h, k, r); }
  }

  lemma NodeReproduced(g: Graph, h: Graph, i: Id, r: real)
    requires Halfway(g, h, g.node.Keys, g.edge.Keys, r) && GoodAt(r)(g) && i in g.node
    ensures h.node[i].cost == g.node[i].cost
  {
    hide ShapeNode, FreshNode, LikeNode, ShapeEdge, FreshEdge;
    assert NodeRedone(r)(g.node[i], h.node[i]);
    assert FreshNodes(r)(g.node[i]) && ShapeNode(g.node[i]);
    SameNode(g.node[i], h.node[i], r);
  }

  lemma EdgeReproduced(g: Graph, h: Graph, k: Id, r: real)
    requires Halfway(g, h, g.node.Keys, g.edge.Keys, r) && GoodAt(r)(g) && k in g.edge
    ensures h.edge[k].cost == g.edge[k].cost
  {
    hide ShapeNode, FreshNode, LikeNode, FreshEdge, LikeEdge;
    var e, d := g.edge[k], h.edge[k];
    assert RedoneAt(g, d, k, r);
    assert EdgeHolds(g, ShapeEdge, k) && EdgeHolds(g, FreshEdges(r), k);
    var s, t := PartsOf(g.node[e.start]), PartsOf(g.node[e.end]);
    SameEdge(e, d, s, t, r);
    FullTables(e, d, s, t);
  }

  lemma FullTables(e: Edge, d: Edge, s: Parts, t: Parts)
    requires SameTable(e, d, s, t) && Sized(e.cost, Size(s), Size(t)) && Sized(d.cost, Size(s), Size(t)) && s != t
    ensures d.cost == e.cost
  {
    forall i | 0 <= i < |e.cost| ensures d.cost[i] == e.cost[i] {
      forall j | 0 <= j < |e.cost[i]| ensures d.cost[i][j] == e.cost[i][j] { assert Meant(s, t, i, j); }
    }
  }
}
