/** FinalizeSbp over the whole live graph: once every live node has been finalized, in any
    order, all choices are settled and the assignment is legal for everything ever swallowed. */
module SbpHandDown {
  import opened Wrappers
  import opened Sums
  import opened SbpForest
  import opened SbpOwnership
  import opened SbpSteps
  import opened SbpRun
  import opened SbpComplete
  import opened SbpSettled
  import opened SbpFinalize

  // ----- settled assignments are legal -----

  lemma {:induction false} SettledLegalNode(n: Node, x: Assign)
    requires ShapeNode(n) && SettledNode(n, x) && At(x, n.id) < |n.cost|
    ensures LegalNode(n, x)
    decreases n
  {
    SettledObeys(n, x);
    match n.body {
      case Origin(_, _) =>
      case Merged(f, s, pairs, inner) =>
        assert Size(PartsOf(f)) == |f.cost| && Size(PartsOf(s)) == |s.cost|;
        SettledLegalNode(f, x);
        SettledLegalNode(s, x);
        if inner.Some? { SettledLegalEdge(inner.value, PartsOf(n), PartsOf(n), x); }
    }
    forall c | c in n.children ensures LegalNode(c.node, x) && LegalEdge(c.edge, x) {
      SettledLegalNode(c.node, x);
      SettledLegalEdge(c.edge, Pick(PartsOf(n), PartsOf(c.node), c.edge.start),
                       Pick(PartsOf(n), PartsOf(c.node), c.edge.end), x);
    }
  }

  lemma {:induction false} SettledLegalEdge(e: Edge, s: Parts, t: Parts, x: Assign)
    requires ShapeEdge(e, s, t) && SettledEdge(e, x)
    ensures LegalEdge(e, x)
    decreases e
  {
    match e.body
    case Bare(_, _) =>
    case Parallel(list) =>
      forall a | a in list ensures LegalEdge(a, x) {
        SettledLegalEdge(a, Pick(s, t, a.start), Pick(s, t, a.end), x);
      }
    case Through(mid, a, b, _) =>
      SettledLegalNode(mid, x);
      SettledLegalEdge(a, Pick(s, PartsOf(mid), a.start), Pick(s, PartsOf(mid), a.end), x);
      SettledLegalEdge(b, Pick(t, PartsOf(mid), b.start), Pick(t, PartsOf(mid), b.end), x);
  }

  // ----- one live node -----

  ghost function RangedNodes(x: Assign): Node -> bool { n => RangedNode(n, x) }

  ghost function RangedEdges(x: Assign): Edge -> bool { e => RangedEdge(e, x) }

  /** Every node, live or swallowed, holds one of its own signatures. */
  ghost predicate RangedGraph(g: Graph, x: Assign) { Each(g, RangedNodes(x), RangedEdges(x)) }

  ghost function Trees(g: Graph): map<Id, Parts> { map i | i in g.node :: PartsOf(g.node[i]) }

  /** es are the edges at the live node i, each once. */
  ghost predicate AllAt(g: Graph, i: Id, ks: seq<Id>, es: seq<Edge>) {
    && Distinct(ks) && |es| == |ks|
    && (forall k :: k in ks <==> k in g.edge && Touches(g.edge[k], i))
    && forall j :: 0 <= j < |ks| ==> es[j] == g.edge[ks[j]]
  }

  lemma TreesOwned(g: Graph, i: Id)
    requires i in g.node
    ensures Comps(PartsOf(g.node[i])) <= NodeIds(g.node[i])
  {
    CompsAreOwned(g.node[i]);
  }

  lemma LiveEdgesReady(g: Graph, i: Id, ks: seq<Id>, es: seq<Edge>)
    requires Sound(g) && Owned(g) && AllAt(g, i, ks, es)
    ensures Ready(es, Trees(g))
  {
    var at := Trees(g);
    forall e | e in es
      ensures e.start in at && e.end in at && ShapeEdge(e, at[e.start], at[e.end]) && ForestEdge(e)
    {
      var j :| 0 <= j < |es| && es[j] == e;
      assert ks[j] in ks;
      assert EdgeHolds(g, ShapeEdge, ks[j]);
    }
    forall p, q | 0 <= p < q < |es| ensures EdgeIds(es[p]) !! EdgeIds(es[q]) {
      assert ks[p] in ks && ks[q] in ks && ks[p] != ks[q];
    }
    forall e, c | e in es && c in at ensures EdgeIds(e) !! Comps(at[c]) {
      var j :| 0 <= j < |es| && es[j] == e;
      assert ks[j] in ks;
      TreesOwned(g, c);
    }
  }

  lemma LiveAround(g: Graph, i: Id)
    requires Sound(g) && Owned(g) && i in g.node
    ensures Around(g.node[i], Trees(g))
  {
    var n, at := g.node[i], Trees(g);
    forall c | c in at ensures Beside(n, at[c]) {
      assert ShapeNode(g.node[c]) && ForestNode(n);
      CompsAreOwned(g.node[c]);
      if c == i {
        assert n.id in Comps(PartsOf(n));
      } else {
        assert NodeIds(g.node[c]) !! NodeIds(n);
      }
    }
  }

  lemma LiveRanged(g: Graph, ks: seq<Id>, i: Id, es: seq<Edge>, x: Assign)
    requires Sound(g) && AllAt(g, i, ks, es) && RangedGraph(g, x)
    ensures RangedAll(Trees(g), x) && RangedList(es, x)
  {
    forall c | c in Trees(g) ensures Ranged(Trees(g)[c], x) {
      assert ShapeNode(g.node[c]) && RangedNodes(x)(g.node[c]);
      RangedNodeParts(g.node[c], x);
    }
    forall e | e in es ensures RangedEdge(e, x) {
      var j :| 0 <= j < |es| && es[j] == e;
      assert ks[j] in ks && RangedEdges(x)(g.edge[ks[j]]);
    }
  }

  lemma LiveApart(g: Graph, i: Id, ks: seq<Id>, es: seq<Edge>)
    requires Owned(g) && i in g.node && AllAt(g, i, ks, es)
    ensures forall e :: e in es ==> EdgeIds(e) !! NodeIds(g.node[i])
  {
    forall e | e in es ensures EdgeIds(e) !! NodeIds(g.node[i]) {
      var j :| 0 <= j < |es| && es[j] == e;
      assert ks[j] in ks;
    }
  }

  /** The live nodes in done have been finalized. */
  ghost predicate DoneFor(g: Graph, done: set<Id>, x: Assign) {
    && (forall i :: i in done && i in g.node ==> SettledNode(g.node[i], x))
    && (forall k :: k in g.edge && (g.edge[k].start in done || g.edge[k].end in done) ==> SettledEdge(g.edge[k], x))
  }

  method FinalizeLive(g: Graph, i: Id, ghost done: set<Id>, ghost ks: seq<Id>, es: seq<Edge>, x: Assign)
    returns (y: Assign)
    requires Sound(g) && Owned(g) && i in g.node && AllAt(g, i, ks, es)
    requires RangedGraph(g, x) && DoneFor(g, done, x)
    ensures DoneFor(g, done + {i}, y) && RangedGraph(g, y)
    ensures forall c :: c in g.node ==> At(y, c) == At(x, c)
  {
    LiveEdgesReady(g, i, ks, es);
    LiveAround(g, i);
    LiveRanged(g, ks, i, es, x);
    LiveApart(g, i, ks, es);
    assert ShapeNode(g.node[i]) && ForestNode(g.node[i]) && RangedNodes(x)(g.node[i]);
    y := FinalizeNode(g.node[i], es, Trees(g), x);
    Changes(g, i, ks, es);
    forall c | c in g.node ensures At(y, c) == At(x, c) { RootsKept(g, i, ks, es, c); }
    AfterLive(g, i, done, ks, es, x, y);
  }

  /** What finalizing i may rewrite, seen from the live objects. */
  ghost function Written(g: Graph, i: Id, es: seq<Edge>): set<Id>
    requires i in g.node
  {
    NodeIds(g.node[i]) - {g.node[i].id} + ListIds(es)
  }

  lemma Changes(g: Graph, i: Id, ks: seq<Id>, es: seq<Edge>)
    requires Owned(g) && i in g.node && AllAt(g, i, ks, es)
    ensures forall c :: c in g.node && c != i ==> NodeIds(g.node[c]) !! Written(g, i, es)
    ensures forall k :: k in g.edge && k !in ks ==> EdgeIds(g.edge[k]) !! Written(g, i, es)
  {
    forall c | c in g.node && c != i ensures NodeIds(g.node[c]) !! Written(g, i, es) {
      forall p | p in ListIds(es) ensures p !in NodeIds(g.node[c]) { AtSome(g, i, ks, es, p); }
    }
    forall k | k in g.edge && k !in ks ensures EdgeIds(g.edge[k]) !! Written(g, i, es) {
      forall p | p in ListIds(es) ensures p !in EdgeIds(g.edge[k]) { AtSome(g, i, ks, es, p); }
    }
  }

  lemma AtSome(g: Graph, i: Id, ks: seq<Id>, es: seq<Edge>, p: Id)
    requires AllAt(g, i, ks, es) && p in ListIds(es)
    ensures exists k :: k in ks && k in g.edge && p in EdgeIds(g.edge[k])
  {
    ListIdsMember(es, p);
    var e :| e in es && p in EdgeIds(e);
    var j :| 0 <= j < |es| && es[j] == e;
    assert ks[j] in ks;
  }

  lemma RootsKept(g: Graph, i: Id, ks: seq<Id>, es: seq<Edge>, c: Id)
    requires Sound(g) && Owned(g) && i in g.node && AllAt(g, i, ks, es) && c in g.node
    ensures c !in Written(g, i, es)
  {
    Changes(g, i, ks, es);
    assert g.node[c].id == c && c in NodeIds(g.node[c]);
    if c in ListIds(es) { AtSome(g, i, ks, es, c); }
  }

  lemma AfterLive(g: Graph, i: Id, done: set<Id>, ks: seq<Id>, es: seq<Edge>, x: Assign, y: Assign)
    requires Sound(g) && i in g.node && AllAt(g, i, ks, es)
    requires RangedGraph(g, x) && DoneFor(g, done, x)
    requires forall c :: c in g.node && c != i ==> NodeIds(g.node[c]) !! Written(g, i, es)
    requires forall k :: k in g.edge && k !in ks ==> EdgeIds(g.edge[k]) !! Written(g, i, es)
    requires forall c :: c in g.node ==> At(y, c) == At(x, c)
    requires SettledNode(g.node[i], y) && SettledList(es, y) && Outside(x, y, Written(g, i, es))
    ensures DoneFor(g, done + {i}, y) && RangedGraph(g, y)
  {
    hide NodeIds, EdgeIds, ShapeNode, SettledNode, SettledList, Written, AllAt;
    forall c | c in g.node ensures RangedNodes(y)(g.node[c]) && (c in done + {i} ==> SettledNode(g.node[c], y)) {
      assert ShapeNode(g.node[c]) && RangedNodes(x)(g.node[c]);
      NodeAfter(g.node[c], c == i, x, y, c in done);
    }
    forall k | k in g.edge
      ensures RangedEdges(y)(g.edge[k])
      ensures (g.edge[k].start in done + {i} || g.edge[k].end in done + {i}) ==> SettledEdge(g.edge[k], y)
    {
      AfterLiveEdge(g, i, done, ks, es, x, y, k);
    }
  }

  lemma AfterLiveEdge(g: Graph, i: Id, done: set<Id>, ks: seq<Id>, es: seq<Edge>, x: Assign, y: Assign, k: Id)
    requires Sound(g) && i in g.node && AllAt(g, i, ks, es) && k in g.edge
    requires RangedGraph(g, x) && DoneFor(g, done, x)
    requires forall c :: c in g.node && c != i ==> NodeIds(g.node[c]) !! Written(g, i, es)
    requires k !in ks ==> EdgeIds(g.edge[k]) !! Written(g, i, es)
    requires SettledList(es, y) && Outside(x, y, Written(g, i, es))
    ensures RangedEdge(g.edge[k], y)
    ensures (g.edge[k].start in done + {i} || g.edge[k].end in done + {i}) ==> SettledEdge(g.edge[k], y)
  {
    var e := g.edge[k];
    assert EdgeHolds(g, ShapeEdge, k) && RangedEdges(x)(e);
    TreesOwned(g, e.start);
    TreesOwned(g, e.end);
    if k in ks {
      var j :| 0 <= j < |ks| && ks[j] == k;
      assert es[j] in es;
    }
    EdgeAfter(e, PartsOf(g.node[e.start]), PartsOf(g.node[e.end]), k in ks, x, y, e.start in done || e.end in done);
  }

  lemma NodeAfter(n: Node, now: bool, x: Assign, y: Assign, before: bool)
    requires ShapeNode(n) && RangedNode(n, x) && At(y, n.id) == At(x, n.id)
    requires if now then SettledNode(n, y) else Agree(x, y, NodeIds(n))
    requires before ==> SettledNode(n, x)
    ensures RangedNode(n, y) && (before || now ==> SettledNode(n, y))
  {
    if now {
      SettledNodeRanged(n, y);
    } else {
      RangedNodeFrame(n, x, y);
      if before { SettledNodeFrame(n, x, y); }
    }
  }

  lemma EdgeAfter(e: Edge, s: Parts, t: Parts, now: bool, x: Assign, y: Assign, before: bool)
    requires ShapeEdge(e, s, t) && RangedEdge(e, x)
    requires if now then SettledEdge(e, y)
             else Agree(x, y, EdgeIds(e)) && (before ==> Agree(x, y, Comps(s)) && Agree(x, y, Comps(t)))
    requires before ==> SettledEdge(e, x)
    ensures RangedEdge(e, y) && (before || now ==> SettledEdge(e, y))
  {
    if now {
      SettledEdgeRanged(e, s, t, y);
    } else {
      RangedEdgeFrame(e, x, y);
      if before { SettledEdgeFrame(e, s, t, x, y); }
    }
  }

  // ----- the end -----

  /** Once every live node is done, the assignment is settled and legal for the whole forest. */
  lemma AllDone(g: Graph, x: Assign)
    requires Sound(g) && RangedGraph(g, x) && DoneFor(g, g.node.Keys, x)
    ensures Settled(g, x) && Legal(g, x)
  {
    forall i | i in g.node ensures SettledNodes(x)(g.node[i]) && LegalNodes(x)(g.node[i]) {
      assert ShapeNode(g.node[i]) && RangedNodes(x)(g.node[i]);
      SettledLegalNode(g.node[i], x);
    }
    forall k | k in g.edge ensures SettledEdges(x)(g.edge[k]) && LegalEdges(x)(g.edge[k]) {
      var e := g.edge[k];
      assert EdgeHolds(g, ShapeEdge, k);
      SettledLegalEdge(e, PartsOf(g.node[e.start]), PartsOf(g.node[e.end]), x);
    }
  }

  /** After a whole run, the settled assignment costs on the original graph exactly what the
      reduced assignment costs on the reduced graph. */
  lemma HandDownConserves(gs: seq<Graph>, steps: seq<Step>, x: Assign, ratio: real)
    requires Run(gs, steps) && Original(gs[0]) && Good(gs[0], ratio)
    requires var g := gs[|steps|]; Sound(g) && RangedGraph(g, x) && DoneFor(g, g.node.Keys, x)
    ensures Legal(gs[0], x) && GraphCost(gs[0], x) == GraphCost(gs[|steps|], x)
  {
    AllDone(gs[|steps|], x);
    RunConserves(gs, steps, |steps|, x, ratio, ratio);
    ReductionConserves(gs, steps, x, ratio);
  }
}
