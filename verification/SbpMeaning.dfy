/** What the tables of a compound object mean: the entry for a choice of signatures is the
    least original cost of everything swallowed inside, and the recorded choices attain it. */
module SbpMeaning {
  import opened Wrappers
  import opened SbpForest

  lemma LegalSides(a: Edge, k: Parts, l: Parts, x: Assign)
    requires PartsOk(k) && PartsOk(l) && Obeys(k, x) && Obeys(l, x)
    requires k == l || Comps(k) !! Comps(l)
    requires Joins(a, k, l)
    ensures Obeys(Pick(k, l, a.start), x) && Obeys(Pick(k, l, a.end), x)
    ensures PartCost(a, k, l, At(x, k.id), At(x, l.id)) == Cell(a.cost, At(x, a.start), At(x, a.end))
  {
    if a.start in Comps(k) {
      ComponentAgrees(k, x, a.start);
      ComponentAgrees(l, x, a.end);
      if a.end in Comps(k) { ComponentAgrees(k, x, a.end); }
    } else {
      ComponentAgrees(l, x, a.start);
      ComponentAgrees(k, x, a.end);
    }
  }

  lemma LegalSide(a: Edge, mid: Node, k: Parts, x: Assign)
    requires PartsOk(k) && PartsOk(PartsOf(mid)) && Obeys(k, x) && Obeys(PartsOf(mid), x)
    requires Comps(PartsOf(mid)) !! Comps(k)
    requires Ties(a, mid.id, Comps(k))
    ensures Obeys(Pick(k, PartsOf(mid), a.start), x) && Obeys(Pick(k, PartsOf(mid), a.end), x)
    ensures SideCost(a, mid.id, k, At(x, k.id), At(x, mid.id)) == Cell(a.cost, At(x, a.start), At(x, a.end))
  {
    var c := if a.end == mid.id then a.start else a.end;
    ComponentAgrees(k, x, c);
    ComponentAgrees(PartsOf(mid), x, mid.id);
    assert mid.id in Comps(PartsOf(mid));
  }

  lemma {:induction false} NodeMeaning(n: Node, x: Assign, ratio: real)
    requires ShapeNode(n) && FreshNode(n, ratio) && LegalNode(n, x)
    ensures At(x, n.id) < |n.cost|
    ensures n.cost[At(x, n.id)] <= NodeBase(n, x, ratio)
    ensures SettledNode(n, x) ==> n.cost[At(x, n.id)] == NodeBase(n, x, ratio)
    decreases n, 1
  {
    var i := At(x, n.id);
    match n.body {
      case Origin(_, _) =>
      case Merged(f, s, pairs, inner) =>
        NodeMeaning(f, x, ratio);
        NodeMeaning(s, x, ratio);
        if inner.Some? { EdgeMeaning(inner.value, PartsOf(n), PartsOf(n), x, ratio); }
    }
    ChildrenMeaning(n, |n.children|, x, ratio);
    assert n.children[..|n.children|] == n.children;
  }

  lemma {:induction false} ChildrenMeaning(n: Node, k: nat, x: Assign, ratio: real)
    requires ShapeNode(n) && FreshNode(n, ratio) && LegalNode(n, x)
    requires k <= |n.children|
    ensures ChildrenCost(n.children[..k], At(x, n.id)) <= ChildrenBase(n.children[..k], x, ratio)
    ensures SettledNode(n, x) ==>
              ChildrenCost(n.children[..k], At(x, n.id)) == ChildrenBase(n.children[..k], x, ratio)
    decreases n, 0, k
  {
    if k > 0 {
      var c, i := n.children[k - 1], At(x, n.id);
      assert n.children[..k][..k - 1] == n.children[..k - 1];
      ChildrenMeaning(n, k - 1, x, ratio);
      ChildMeaning(n, c, x, ratio);
      assert ChildrenCost(n.children[..k], i) == ChildrenCost(n.children[..k - 1], i) + ChildCost(c, i, c.sig[i]);
    }
  }

  lemma {:induction false} ChildMeaning(n: Node, c: Child, x: Assign, ratio: real)
    requires ShapeNode(n) && FreshNode(n, ratio) && LegalNode(n, x) && c in n.children
    ensures |c.sig| == |n.cost| && At(x, n.id) < |n.cost|
    ensures ChildCost(c, At(x, n.id), c.sig[At(x, n.id)]) <= NodeBase(c.node, x, ratio) + EdgeBase(c.edge, x, ratio)
    ensures SettledNode(n, x) ==>
              ChildCost(c, At(x, n.id), c.sig[At(x, n.id)]) == NodeBase(c.node, x, ratio) + EdgeBase(c.edge, x, ratio)
    decreases n, 0, 0
  {
    var i, p, q := At(x, n.id), PartsOf(n), PartsOf(c.node);
    assert ChildBest(c, i, c.sig[i]) by { assert ChildFresh(n, c); }
    NodeMeaning(c.node, x, ratio);
    assert n.id in Comps(p) && c.node.id in Comps(q);
    EdgeMeaning(c.edge, Pick(p, q, c.edge.start), Pick(p, q, c.edge.end), x, ratio);
    assert ChildCost(c, i, At(x, c.node.id)) <= NodeBase(c.node, x, ratio) + EdgeBase(c.edge, x, ratio);
  }

  lemma {:induction false} EdgeMeaning(e: Edge, s: Parts, t: Parts, x: Assign, ratio: real)
    requires ShapeEdge(e, s, t) && FreshEdge(e, s, t, ratio) && LegalEdge(e, x)
    requires Obeys(s, x) && Obeys(t, x)
    ensures Cell(e.cost, At(x, e.start), At(x, e.end)) <= EdgeBase(e, x, ratio)
    ensures SettledEdge(e, x) ==> Cell(e.cost, At(x, e.start), At(x, e.end)) == EdgeBase(e, x, ratio)
    decreases e, 1
  {
    var i, j := At(x, e.start), At(x, e.end);
    assert Meant(s, t, i, j);
    match e.body {
      case Bare(_, _) =>
      case Parallel(list) =>
        ListMeaning(e, list, |list|, s, t, x, ratio);
        assert list[..|list|] == list;
      case Through(mid, a, b, sig) =>
        ThroughMeaning(e, s, t, x, ratio);
    }
  }

  lemma {:induction false} ThroughMeaning(e: Edge, s: Parts, t: Parts, x: Assign, ratio: real)
    requires ShapeEdge(e, s, t) && FreshEdge(e, s, t, ratio) && LegalEdge(e, x)
    requires Obeys(s, x) && Obeys(t, x)
    requires e.body.Through?
    ensures Cell(e.cost, At(x, e.start), At(x, e.end)) <= EdgeBase(e, x, ratio)
    ensures SettledEdge(e, x) ==> Cell(e.cost, At(x, e.start), At(x, e.end)) == EdgeBase(e, x, ratio)
    decreases e, 0
  {
    hide Comps, SettledNode;
    var i, j := At(x, e.start), At(x, e.end);
    assert Meant(s, t, i, j);
    var mid, a, b := e.body.mid, e.body.first, e.body.second;
    var p := PartsOf(mid);
    assert Cell(e.cost, i, j) <= ThroughCost(mid, a, b, s, t, i, At(x, mid.id), j)
        && (SettledEdge(e, x) ==> Cell(e.cost, i, j) == ThroughCost(mid, a, b, s, t, i, At(x, mid.id), j)) by {
      assert ThroughFresh(e, s, t);
    }
    NodeMeaning(mid, x, ratio);
    LegalSide(a, mid, s, x);
    LegalSide(b, mid, t, x);
    EdgeMeaning(a, Pick(s, p, a.start), Pick(s, p, a.end), x, ratio);
    EdgeMeaning(b, Pick(t, p, b.start), Pick(t, p, b.end), x, ratio);
  }

  lemma {:induction false} ListMeaning(e: Edge, list: seq<Edge>, k: nat, s: Parts, t: Parts, x: Assign, ratio: real)
    requires ShapeEdge(e, s, t) && FreshEdge(e, s, t, ratio) && LegalEdge(e, x)
    requires Obeys(s, x) && Obeys(t, x)
    requires e.body == Parallel(list) && k <= |list|
    ensures ListCost(list[..k], s, t, At(x, s.id), At(x, t.id)) <= ListBase(list[..k], x, ratio)
    ensures SettledEdge(e, x) ==>
              ListCost(list[..k], s, t, At(x, s.id), At(x, t.id)) == ListBase(list[..k], x, ratio)
    decreases e, 0, k
  {
    if k > 0 {
      var a := list[k - 1];
      assert a in list;
      assert list[..k][..k - 1] == list[..k - 1];
      ListMeaning(e, list, k - 1, s, t, x, ratio);
      LegalSides(a, s, t, x);
      EdgeMeaning(a, Pick(s, t, a.start), Pick(s, t, a.end), x, ratio);
    }
  }
}
