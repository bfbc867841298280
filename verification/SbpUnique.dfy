/** Tables that are up to date at the same memory ratio are the same tables: recomputing at an
    unchanged ratio reproduces every live table. */
module SbpUnique {
  import opened Wrappers
  import opened SbpForest
  import opened SbpRecompute
  import opened SbpRefresh

  /** The two tables agree wherever they are meaningful. */
  ghost predicate SameTable(e: Edge, d: Edge, s: Parts, t: Parts) {
    forall i, j :: Meant(s, t, i, j) ==> Cell(e.cost, i, j) == Cell(d.cost, i, j)
  }

  // Two versions of an object, both up to date; as function values the conditions stay whole.
  ghost function Twins(r: real): (Node, Node) -> bool {
    (n, m) => LikeNode(n, m) && ShapeNode(n) && ShapeNode(m) && FreshNode(n, r) && FreshNode(m, r)
  }

  ghost function TwinEdges(r: real): (Edge, Edge, Parts, Parts) -> bool {
    (e, d, s, t) => LikeEdge(e, d) && ShapeEdge(e, s, t) && ShapeEdge(d, s, t) && FreshEdge(e, s, t, r)
        && FreshEdge(d, s, t, r)
  }

  lemma TwinCosts(n: Node, m: Node, r: real)
    requires Twins(r)(n, m)
    ensures |n.cost| == |m.cost| && |n.children| == |m.children|
    ensures forall i :: 0 <= i < |n.cost| ==> n.cost[i] == BodyCost(n, i, r) + ChildrenCost(n.children, i)
    ensures forall i :: 0 <= i < |m.cost| ==> m.cost[i] == BodyCost(m, i, r) + ChildrenCost(m.children, i)
  {
    hide ShapeNode, BodyCost, ChildrenCost;
  }

  lemma {:induction false} SameNode(n: Node, m: Node, r: real)
    requires Twins(r)(n, m)
    ensures n.cost == m.cost
    decreases n, 2
  {
    hide Twins, BodyCost, ChildrenCost;
    TwinCosts(n, m, r);
    forall i | 0 <= i < |n.cost| ensures n.cost[i] == m.cost[i] {
      SameBody(n, m, r, i);
      SameChildren(n, m, r, i, |n.children|);
      assert n.children[..|n.children|] == n.children && m.children[..|n.children|] == m.children;
    }
  }

  lemma {:induction false} SameBody(n: Node, m: Node, r: real, i: Sig)
    requires Twins(r)(n, m) && i < |n.cost|
    ensures BodyCost(n, i, r) == BodyCost(m, i, r)
    decreases n, 1
  {
    match n.body
    case Origin(_, _) =>
    case Merged(f, s, _, inner) =>
      SameNode(f, m.body.first, r);
      SameNode(s, m.body.second, r);
      if inner.Some? {
        LikeParts(n, m);
        SameEdge(inner.value, m.body.inner.value, PartsOf(n), PartsOf(n), r);
        assert Meant(PartsOf(n), PartsOf(n), i, i);
      }
  }

  lemma {:induction false} SameChildren(n: Node, m: Node, r: real, i: Sig, k: nat)
    requires |m.children| == |n.children| && i < |n.cost| && k <= |n.children| && Twins(r)(n, m)
    ensures ChildrenCost(n.children[..k], i) == ChildrenCost(m.children[..k], i)
    decreases n, 1, k
  {
    hide Twins, ChildCost;
    if k > 0 {
      SameChildren(n, m, r, i, k - 1);
      assert n.children[..k][..k - 1] == n.children[..k - 1] && m.children[..k][..k - 1] == m.children[..k - 1];
      SameChild(n, m, r, k - 1, i);
    }
  }

  lemma {:induction false} SameChild(n: Node, m: Node, r: real, k: nat, i: Sig)
    requires |m.children| == |n.children| && i < |n.cost| && k < |n.children| && Twins(r)(n, m)
    ensures |n.children[k].sig| == |m.children[k].sig| == |n.cost|
    ensures var c, d := n.children[k], m.children[k];
            ChildCost(c, i, c.sig[i]) == ChildCost(d, i, d.sig[i])
    decreases n, 0
  {
    hide Twins, TwinEdges, ChildCost, ChildBest, SameTable;
    var c, d := n.children[k], m.children[k];
    ChildTwins(n, m, r, k);
    var p, q := PartsOf(n), PartsOf(c.node);
    SameNode(c.node, d.node, r);
    SameEdge(c.edge, d.edge, Pick(p, q, c.edge.start), Pick(p, q, c.edge.end), r);
    ChildTables(n, c, d, i);
    Least(c, d, i, c.sig[i], d.sig[i]);
  }

  lemma ChildTwins(n: Node, m: Node, r: real, k: nat)
    requires k < |n.children| == |m.children| && Twins(r)(n, m)
    ensures var c, d, p := n.children[k], m.children[k], PartsOf(n);
            && c in n.children && Twins(r)(c.node, d.node) && d.node.id == c.node.id
            && d.edge.start == c.edge.start && d.edge.end == c.edge.end
            && TwinEdges(r)(c.edge, d.edge, Pick(p, PartsOf(c.node), c.edge.start),
               Pick(p, PartsOf(c.node), c.edge.end))
            && |c.sig| == |n.cost| && |d.sig| == |n.cost|
            && forall i :: 0 <= i < |n.cost| ==> ChildBest(c, i, c.sig[i]) && ChildBest(d, i, d.sig[i])
    ensures ShapeNode(n)
  {
    hide ChildBest, Pick, BodyCost, ChildrenCost;
    var c, d := n.children[k], m.children[k];
    assert c in n.children && d in m.children;
    LikeParts(n, m);
    LikeParts(c.node, d.node);
    LikeRoots(c.node, d.node);
    LikeEnds(c.edge, d.edge);
    assert ChildFresh(n, c) && ChildFresh(m, d);
  }

  lemma ChildTables(n: Node, c: Child, d: Child, i: Sig)
    requires ShapeNode(n) && c in n.children && c.node.cost == d.node.cost && d.node.id == c.node.id && i < |n.cost|
    requires d.edge.start == c.edge.start && d.edge.end == c.edge.end
    requires SameTable(c.edge, d.edge, Pick(PartsOf(n), PartsOf(c.node), c.edge.start),
             Pick(PartsOf(n), PartsOf(c.node), c.edge.end))
    ensures forall m :: 0 <= m < |c.node.cost| ==> ChildCost(c, i, m) == ChildCost(d, i, m)
  {
    var p, q := PartsOf(n), PartsOf(c.node);
    assert p.id == n.id && q.id == c.node.id && p.id in Comps(p) && q.id in Comps(q);
    assert Pick(p, q, n.id) == p && Pick(p, q, c.node.id) == q && p != q;
    assert Size(p) == |n.cost| && Size(q) == |c.node.cost|;
    forall m | 0 <= m < |c.node.cost| ensures ChildCost(c, i, m) == ChildCost(d, i, m) {
      if c.edge.end == c.node.id { assert Meant(p, q, i, m); } else { assert Meant(q, p, m, i); }
    }
  }

  /** The least of equal costs is the same, whichever signature attains it. */
  lemma Least(c: Child, d: Child, i: Sig, a: Sig, b: Sig)
    requires |c.node.cost| == |d.node.cost| && ChildBest(c, i, a) && ChildBest(d, i, b)
    requires forall m :: 0 <= m < |c.node.cost| ==> ChildCost(c, i, m) == ChildCost(d, i, m)
    ensures ChildCost(c, i, a) == ChildCost(d, i, b)
  {
    assert ChildCost(c, i, a) <= ChildCost(c, i, b) && ChildCost(d, i, b) <= ChildCost(d, i, a);
  }

  lemma {:induction false} SameEdge(e: Edge, d: Edge, s: Parts, t: Parts, r: real)
    requires TwinEdges(r)(e, d, s, t)
    ensures SameTable(e, d, s, t)
    decreases e, 2
  {
    hide ListCost, ThroughFresh;
    forall i, j | Meant(s, t, i, j) ensures Cell(e.cost, i, j) == Cell(d.cost, i, j) {
      match e.body
      case Bare(_, _) =>
      case Parallel(list) =>
        SameList(e, d, s, t, r, i, j, |list|);
        assert list[..|list|] == list && d.body.list[..|list|] == d.body.list;
      case Through(_, _, _, _) => SameThrough(e, d, s, t, r, i, j);
    }
  }

  lemma {:induction false} SameList(e: Edge, d: Edge, s: Parts, t: Parts, r: real, i: Sig, j: Sig, k: nat)
    requires e.body.Parallel? && d.body.Parallel? && |d.body.list| == |e.body.list| && k <= |e.body.list|
             && Meant(s, t, i, j)
    requires TwinEdges(r)(e, d, s, t)
    ensures ListCost(e.body.list[..k], s, t, i, j) == ListCost(d.body.list[..k], s, t, i, j)
    decreases e, 1, k
  {
    hide TwinEdges, PartCost;
    if k > 0 {
      var list, es := e.body.list, d.body.list;
      SameList(e, d, s, t, r, i, j, k - 1);
      assert list[..k][..k - 1] == list[..k - 1] && es[..k][..k - 1] == es[..k - 1];
      SamePart(e, d, s, t, r, i, j, k - 1);
    }
  }

  lemma {:induction false} SamePart(e: Edge, d: Edge, s: Parts, t: Parts, r: real, i: Sig, j: Sig, k: nat)
    requires e.body.Parallel? && d.body.Parallel? && |d.body.list| == |e.body.list| && k < |e.body.list|
             && Meant(s, t, i, j)
    requires TwinEdges(r)(e, d, s, t)
    ensures PartCost(e.body.list[k], s, t, i, j) == PartCost(d.body.list[k], s, t, i, j)
    decreases e, 0
  {
    hide ListCost, PartCost;
    var a, b := e.body.list[k], d.body.list[k];
    assert a in e.body.list && b in d.body.list;
    LikeEnds(a, b);
    SameEdge(a, b, Pick(s, t, a.start), Pick(s, t, a.end), r);
    PartTables(a, b, s, t, i, j);
  }

  lemma PartTables(a: Edge, b: Edge, s: Parts, t: Parts, i: Sig, j: Sig)
    requires PartsOk(s) && PartsOk(t) && (s == t || Comps(s) !! Comps(t)) && Meant(s, t, i, j) && Joins(a, s, t)
    requires b.start == a.start && b.end == a.end && SameTable(a, b, Pick(s, t, a.start), Pick(s, t, a.end))
    ensures PartCost(a, s, t, i, j) == PartCost(b, s, t, i, j)
  {
    if a.start in Comps(s) {
      CellMeant(s, t, i, j, a.start, a.end);
    } else {
      CellMeant(t, s, j, i, a.start, a.end);
    }
  }

  lemma CellMeant(s: Parts, t: Parts, i: Sig, j: Sig, a: Id, b: Id)
    requires PartsOk(s) && PartsOk(t) && (s == t || Comps(s) !! Comps(t)) && i < Size(s) && j < Size(t)
             && (s == t ==> i == j)
    requires a in Comps(s) && b in Comps(t)
    ensures Meant(Part(s, a), Part(t, b), Comp(s, i, a), Comp(t, j, b))
  {
    ComponentInRange(s, i, a);
    ComponentInRange(t, j, b);
    PartFacts(s, a);
    PartFacts(t, b);
  }

  lemma {:induction false} SameThrough(e: Edge, d: Edge, s: Parts, t: Parts, r: real, i: Sig, j: Sig)
    requires e.body.Through? && Meant(s, t, i, j) && TwinEdges(r)(e, d, s, t)
    ensures Cell(e.cost, i, j) == Cell(d.cost, i, j)
    decreases e, 1
  {
    hide TwinEdges, ThroughFresh, SideCost, ThroughCost;
    ThroughTwins(e, d, s, t, r);
    var mid, a, b, q := e.body.mid, e.body.first, e.body.second, PartsOf(e.body.mid);
    var mid', a', b' := d.body.mid, d.body.first, d.body.second;
    SameNode(mid, mid', r);
    SameEdge(a, a', Pick(s, q, a.start), Pick(s, q, a.end), r);
    SameEdge(b, b', Pick(t, q, b.start), Pick(t, q, b.end), r);
    forall m | 0 <= m < |mid.cost|
      ensures ThroughCost(mid, a, b, s, t, i, m, j) == ThroughCost(mid', a', b', s, t, i, m, j)
    {
      SameSides(e, d, s, t, r, i, m, j);
    }
    LeastThrough(e, d, s, t, i, j);
  }

  lemma SameSides(e: Edge, d: Edge, s: Parts, t: Parts, r: real, i: Sig, m: Sig, j: Sig)
    requires e.body.Through? && d.body.Through? && i < Size(s) && j < Size(t) && m < |e.body.mid.cost|
             && d.body.mid.cost == e.body.mid.cost
    requires var a, q := e.body.first, PartsOf(e.body.mid);
             SameTable(a, d.body.first, Pick(s, q, a.start), Pick(s, q, a.end))
    requires var b, q := e.body.second, PartsOf(e.body.mid);
             SameTable(b, d.body.second, Pick(t, q, b.start), Pick(t, q, b.end))
    requires TwinEdges(r)(e, d, s, t)
    ensures ThroughCost(e.body.mid, e.body.first, e.body.second, s, t, i, m, j)
            == ThroughCost(d.body.mid, d.body.first, d.body.second, s, t, i, m, j)
  {
    hide SideCost, SameTable;
    LikeEnds(e.body.first, d.body.first);
    LikeEnds(e.body.second, d.body.second);
    SideTables(e.body.first, d.body.first, e.body.mid, s, i, m);
    SideTables(e.body.second, d.body.second, e.body.mid, t, j, m);
  }

  lemma ThroughTwins(e: Edge, d: Edge, s: Parts, t: Parts, r: real)
    requires e.body.Through? && TwinEdges(r)(e, d, s, t)
    ensures d.body.Through? && Twins(r)(e.body.mid, d.body.mid) && ThroughFresh(e, s, t) && ThroughFresh(d, s, t)
    ensures var q := PartsOf(e.body.mid);
            && TwinEdges(r)(e.body.first, d.body.first, Pick(s, q, e.body.first.start), Pick(s, q, e.body.first.end))
            && TwinEdges(r)(e.body.second, d.body.second, Pick(t, q, e.body.second.start),
               Pick(t, q, e.body.second.end))
  {
    hide ThroughFresh, Pick;
    LikeParts(e.body.mid, d.body.mid);
    LikeEnds(e.body.first, d.body.first);
    LikeEnds(e.body.second, d.body.second);
  }

  lemma SideTables(a: Edge, a': Edge, mid: Node, s: Parts, i: Sig, m: Sig)
    requires PartsOk(s) && ShapeNode(mid) && Comps(PartsOf(mid)) !! Comps(s) && Ties(a, mid.id, Comps(s))
             && i < Size(s) && m < |mid.cost|
    requires a'.start == a.start && a'.end == a.end
             && SameTable(a, a', Pick(s, PartsOf(mid), a.start), Pick(s, PartsOf(mid), a.end))
    ensures SideCost(a, mid.id, s, i, m) == SideCost(a', mid.id, s, i, m)
  {
    var q := PartsOf(mid);
    assert q.id == mid.id && q.id in Comps(q) && Size(q) == |mid.cost|;
    if a.end == mid.id {
      CellMeant(s, q, i, m, a.start, mid.id);
    } else {
      CellMeant(q, s, m, i, mid.id, a.end);
    }
  }

  lemma LeastThrough(e: Edge, d: Edge, s: Parts, t: Parts, i: Sig, j: Sig)
    requires e.body.Through? && d.body.Through? && |e.body.mid.cost| == |d.body.mid.cost| && Meant(s, t, i, j)
    requires ThroughFresh(e, s, t) && ThroughFresh(d, s, t)
    requires forall m :: 0 <= m < |e.body.mid.cost| ==>
               ThroughCost(e.body.mid, e.body.first, e.body.second, s, t, i, m, j)
                   == ThroughCost(d.body.mid, d.body.first, d.body.second, s, t, i, m, j)
    ensures Cell(e.cost, i, j) == Cell(d.cost, i, j)
  {
    hide ThroughCost;
    var x, y := e.body.sig[i][j], d.body.sig[i][j];
    assert e.cost[i][j] <= ThroughCost(e.body.mid, e.body.first, e.body.second, s, t, i, y, j);
    assert d.cost[i][j] <= ThroughCost(d.body.mid, d.body.first, d.body.second, s, t, i, x, j);
  }
}
