/** What every step keeps: soundness, ownership, fresh tables, legal assignments and the
    original cost.  The lemmas about moving objects are stated for any property and any cost,
    so that the steps only have to supply the one fact about the object they build. */
module SbpConserve {
  import opened Sums
  import opened SbpForest
  import opened SbpSteps
  import opened SbpObjects

  // ----- folding -----

  lemma FoldTotal(g: Graph, n: Id, a: Id, b: Id, e: Edge, h: Graph, fn: Node -> real, fe: Edge -> real)
    requires FoldMoves(g, n, a, b, e, h)
    ensures Total(h, fn, fe) == Total(g, fn, fe) + fe(e) - (fn(g.node[n]) + fe(g.edge[a]) + fe(g.edge[b]))
  {
    var p := NodeTerm(g, fn);
    SumTake(g.node.Keys, n, p);
    assert h.node.Keys == g.node.Keys - {n};
    SumSame(h.node.Keys, p, NodeTerm(h, fn));
    assert h.edge.Keys == g.edge.Keys - {a} - {b} + {e.id};
    SumSwap(g.edge.Keys, a, b, e.id, EdgeTerm(g, fe), EdgeTerm(h, fe));
  }

  lemma FoldEach(g: Graph, n: Id, a: Id, b: Id, e: Edge, h: Graph, pn: Node -> bool, pe: Edge -> bool)
    requires FoldMoves(g, n, a, b, e, h)
    requires pe(e) <==> pn(g.node[n]) && pe(g.edge[a]) && pe(g.edge[b])
    ensures Each(h, pn, pe) <==> Each(g, pn, pe)
  {
    assert e.id in h.edge && h.edge[e.id] == e;
    if Each(h, pn, pe) {
      forall i | i in g.node ensures pn(g.node[i]) { assert i == n || h.node[i] == g.node[i]; }
      forall k | k in g.edge ensures pe(g.edge[k]) { assert k == a || k == b || h.edge[k] == g.edge[k]; }
    }
  }

  lemma FoldDisjoint(g: Graph, n: Id, a: Id, b: Id, e: Edge, h: Graph, nodeIds: Node -> set<Id>,
                     edgeIds: Edge -> set<Id>)
    requires FoldMoves(g, n, a, b, e, h) && Disjoint(g, nodeIds, edgeIds)
    requires edgeIds(e) == {e.id} + nodeIds(g.node[n]) + edgeIds(g.edge[a]) + edgeIds(g.edge[b])
    requires forall i :: i in g.node ==> e.id !in nodeIds(g.node[i])
    requires forall k :: k in g.edge ==> e.id !in edgeIds(g.edge[k])
    ensures Disjoint(h, nodeIds, edgeIds)
  {
  }

  lemma FoldHolds(g: Graph, n: Id, a: Id, b: Id, e: Edge, h: Graph, pn: Node -> bool, pe: (Edge, Parts, Parts) -> bool)
    requires Wired(g) && Holds(g, pn, pe) && FoldMoves(g, n, a, b, e, h)
    requires forall k :: k in g.edge ==> (Touches(g.edge[k], n) <==> k == a || k == b)
    requires e.start in h.node && e.end in h.node && e.start != e.end
    requires pe(e, PartsOf(g.node[e.start]), PartsOf(g.node[e.end]))
    ensures Wired(h) && Holds(h, pn, pe)
  {
    forall k | k in h.edge ensures EdgeHolds(h, pe, k) {
      if k != e.id { assert EdgeHolds(g, pe, k); }
    }
  }

  // ----- collapsing -----

  lemma {:induction false} ListTotal(g: Graph, ks: seq<Id>, es: seq<Edge>, fe: Edge -> real)
    requires Distinct(ks) && (forall k :: k in ks ==> k in g.edge)
    requires |es| == |ks| && forall i :: 0 <= i < |ks| ==> es[i] == g.edge[ks[i]]
    ensures AlongList(es, fe) == Sum(Elems(ks), EdgeTerm(g, fe))
    decreases |ks|
  {
    if ks == [] {
      assert Elems(ks) == {};
    } else {
      var l := |ks| - 1;
      ListTotal(g, ks[..l], es[..l], fe);
      assert Elems(ks) == Elems(ks[..l]) + {ks[l]} && ks[l] !in Elems(ks[..l]);
      SumAdd(Elems(ks[..l]), ks[l], EdgeTerm(g, fe));
    }
  }

  ghost function AlongList(es: seq<Edge>, fe: Edge -> real): real
  {
    if es == [] then 0.0 else AlongList(es[..|es| - 1], fe) + fe(es[|es| - 1])
  }

  lemma CollapseTotal(g: Graph, ks: seq<Id>, e: Edge, h: Graph, fn: Node -> real, fe: Edge -> real)
    requires CollapseMoves(g, ks, e, h)
    requires fe(e) == AlongList(e.body.list, fe)
    ensures Total(h, fn, fe) == Total(g, fn, fe)
  {
    var q := EdgeTerm(g, fe);
    var rest := g.edge.Keys - Elems(ks);
    ListTotal(g, ks, e.body.list, fe);
    assert g.edge.Keys == rest + Elems(ks);
    SumUnion(rest, Elems(ks), q);
    assert h.edge.Keys == rest + {e.id};
    SumAdd(rest, e.id, EdgeTerm(h, fe));
    SumSame(rest, q, EdgeTerm(h, fe));
    SumSame(g.node.Keys, NodeTerm(g, fn), NodeTerm(h, fn));
  }

  lemma CollapseEach(g: Graph, ks: seq<Id>, e: Edge, h: Graph, pn: Node -> bool, pe: Edge -> bool)
    requires CollapseMoves(g, ks, e, h)
    requires pe(e) <==> forall a :: a in e.body.list ==> pe(a)
    ensures Each(h, pn, pe) <==> Each(g, pn, pe)
  {
    assert e.id in h.edge && h.edge[e.id] == e;
    assert forall k :: k in g.edge && k !in ks ==> k in h.edge && h.edge[k] == g.edge[k];
    forall a | a in e.body.list ensures exists k :: k in ks && g.edge[k] == a {
      var i :| 0 <= i < |ks| && e.body.list[i] == a;
      assert ks[i] in ks && g.edge[ks[i]] == a;
    }
    forall k | k in ks ensures g.edge[k] in e.body.list {
      var i :| 0 <= i < |ks| && ks[i] == k;
      assert e.body.list[i] == g.edge[k];
    }
  }

  lemma CollapseDisjoint(g: Graph, ks: seq<Id>, e: Edge, h: Graph, nodeIds: Node -> set<Id>, edgeIds: Edge -> set<Id>)
    requires CollapseMoves(g, ks, e, h) && Disjoint(g, nodeIds, edgeIds)
    requires forall i :: i in edgeIds(e) ==> i == e.id || exists a :: a in e.body.list && i in edgeIds(a)
    requires forall i :: i in g.node ==> e.id !in nodeIds(g.node[i])
    requires forall k :: k in g.edge ==> e.id !in edgeIds(g.edge[k])
    ensures Disjoint(h, nodeIds, edgeIds)
  {
    forall i | i in edgeIds(e) && i != e.id ensures exists k :: k in ks && i in edgeIds(g.edge[k]) {
      var a :| a in e.body.list && i in edgeIds(a);
      var p :| 0 <= p < |ks| && e.body.list[p] == a;
      assert ks[p] in ks;
    }
  }

  lemma CollapseHolds(g: Graph, ks: seq<Id>, e: Edge, h: Graph, pn: Node -> bool, pe: (Edge, Parts, Parts) -> bool)
    requires Wired(g) && Holds(g, pn, pe) && CollapseMoves(g, ks, e, h)
    requires e.start in h.node && e.end in h.node && e.start != e.end
    requires pe(e, PartsOf(g.node[e.start]), PartsOf(g.node[e.end]))
    ensures Wired(h) && Holds(h, pn, pe)
  {
    forall k | k in h.edge ensures EdgeHolds(h, pe, k) {
      if k != e.id { assert EdgeHolds(g, pe, k); }
    }
  }

  // ----- absorbing -----

  lemma AbsorbTotal(g: Graph, c: Id, k: Id, f: Id, father: Node, h: Graph, fn: Node -> real, fe: Edge -> real)
    requires AbsorbMoves(g, c, k, f, father, h)
    ensures Total(h, fn, fe) == Total(g, fn, fe) + fn(father) - (fn(g.node[f]) + (fn(g.node[c]) + fe(g.edge[k])))
  {
    var p := NodeTerm(g, fn);
    SumTake(g.node.Keys, c, p);
    assert h.node.Keys == g.node.Keys - {c};
    SumChange(h.node.Keys, f, p, NodeTerm(h, fn));
    SumTake(g.edge.Keys, k, EdgeTerm(g, fe));
    assert h.edge.Keys == g.edge.Keys - {k};
    SumSame(h.edge.Keys, EdgeTerm(g, fe), EdgeTerm(h, fe));
  }

  lemma AbsorbEach(g: Graph, c: Id, k: Id, f: Id, father: Node, h: Graph, pn: Node -> bool, pe: Edge -> bool)
    requires AbsorbMoves(g, c, k, f, father, h)
    requires pn(father) <==> pn(g.node[f]) && pn(g.node[c]) && pe(g.edge[k])
    ensures Each(h, pn, pe) <==> Each(g, pn, pe)
  {
    assert f in h.node && h.node[f] == father;
    if Each(h, pn, pe) {
      forall i | i in g.node ensures pn(g.node[i]) { assert i == c || i == f || h.node[i] == g.node[i]; }
      forall l | l in g.edge ensures pe(g.edge[l]) { assert l == k || h.edge[l] == g.edge[l]; }
    }
  }

  lemma AbsorbDisjoint(g: Graph, c: Id, k: Id, f: Id, father: Node, h: Graph,
                       nodeIds: Node -> set<Id>, edgeIds: Edge -> set<Id>)
    requires AbsorbMoves(g, c, k, f, father, h) && Disjoint(g, nodeIds, edgeIds)
    requires nodeIds(father) == nodeIds(g.node[f]) + nodeIds(g.node[c]) + edgeIds(g.edge[k])
    ensures Disjoint(h, nodeIds, edgeIds)
  {
  }

  lemma AbsorbHolds(g: Graph, c: Id, k: Id, f: Id, father: Node, h: Graph, pn: Node -> bool,
                    pe: (Edge, Parts, Parts) -> bool)
    requires Wired(g) && Holds(g, pn, pe) && AbsorbMoves(g, c, k, f, father, h)
    requires forall l :: l in g.edge ==> (Touches(g.edge[l], c) <==> l == k)
    requires father.id == f && PartsOf(father) == PartsOf(g.node[f]) && pn(father)
    ensures Wired(h) && Holds(h, pn, pe)
  {
    forall l | l in h.edge ensures EdgeHolds(h, pe, l) {
      assert EdgeHolds(g, pe, l);
      var e := g.edge[l];
      assert h.edge[l] == e && e.start != c && e.end != c;
      assert PartsOf(h.node[e.start]) == PartsOf(g.node[e.start]);
      assert PartsOf(h.node[e.end]) == PartsOf(g.node[e.end]);
    }
  }

  // ----- the objects that the steps build -----

  lemma ThroughShape(e: Edge, s: Parts, t: Parts)
    requires e.body.Through? && e.start == s.id && e.end == t.id && ThroughFresh(e, s, t)
    requires PartsOk(s) && PartsOk(t) && ShapeNode(e.body.mid)
    requires Comps(s) !! Comps(t) && Comps(s) !! Comps(PartsOf(e.body.mid)) && Comps(t) !! Comps(PartsOf(e.body.mid))
    requires var a, b, m := e.body.first, e.body.second, PartsOf(e.body.mid);
             && Between(a, s.id, m.id) && Between(b, t.id, m.id)
             && ShapeEdge(a, End(s, m, a.start), End(s, m, a.end))
             && ShapeEdge(b, End(t, m, b.start), End(t, m, b.end))
    ensures ShapeEdge(e, s, t)
  {
    PickRoots(s, PartsOf(e.body.mid));
    PickRoots(t, PartsOf(e.body.mid));
  }

  lemma ThroughIsFresh(e: Edge, s: Parts, t: Parts, ratio: real)
    requires e.body.Through? && ThroughFresh(e, s, t) && FreshNode(e.body.mid, ratio)
    requires Comps(s) !! Comps(PartsOf(e.body.mid)) && Comps(t) !! Comps(PartsOf(e.body.mid))
    requires var a, b, m := e.body.first, e.body.second, PartsOf(e.body.mid);
             && Between(a, s.id, m.id) && Between(b, t.id, m.id)
             && FreshEdge(a, End(s, m, a.start), End(s, m, a.end), ratio)
             && FreshEdge(b, End(t, m, b.start), End(t, m, b.end), ratio)
    ensures FreshEdge(e, s, t, ratio)
  {
    PickRoots(s, PartsOf(e.body.mid));
    PickRoots(t, PartsOf(e.body.mid));
  }

  lemma ParallelShape(e: Edge, s: Parts, t: Parts)
    requires e.body.Parallel? && e.start == s.id && e.end == t.id && Sized(e.cost, Size(s), Size(t))
    requires PartsOk(s) && PartsOk(t) && Comps(s) !! Comps(t)
    requires forall a :: a in e.body.list ==>
             Between(a, s.id, t.id) && ShapeEdge(a, End(s, t, a.start), End(s, t, a.end))
    ensures ShapeEdge(e, s, t)
  {
    PickRoots(s, t);
  }

  lemma ParallelIsFresh(e: Edge, s: Parts, t: Parts, ratio: real)
    requires e.body.Parallel? && Comps(s) !! Comps(t) && EdgeFreshHere(e, s, t, 0.0)
    requires forall a :: a in e.body.list ==>
               Between(a, s.id, t.id) && FreshEdge(a, End(s, t, a.start), End(s, t, a.end), ratio)
    ensures FreshEdge(e, s, t, ratio)
  {
    PickRoots(s, t);
  }
}
