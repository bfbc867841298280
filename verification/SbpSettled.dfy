/** Assignments that follow every recorded choice inside an object: what they depend on, and
    that they stay within the signatures each node has. */
module SbpSettled {
  import opened Wrappers
  import opened SbpForest
  import opened SbpOwnership
  import opened SbpComplete

  /** Every node of the merge tree holds one of its own signatures, obedient or not. */
  ghost predicate Ranged(k: Parts, x: Assign)
  {
    && At(x, k.id) < Size(k)
    && (k.Pair? ==> Ranged(k.first, x) && Ranged(k.second, x))
  }

  lemma {:induction false} RangedPart(k: Parts, c: Id, x: Assign)
    requires Ranged(k, x) && c in Comps(k)
    ensures Ranged(Part(k, c), x)
    decreases k
  {
    if c != k.id {
      match k
      case Whole(_, _) =>
      case Pair(_, f, s, _) => if c in Comps(f) { RangedPart(f, c, x); } else { RangedPart(s, c, x); }
    }
  }

  lemma {:induction false} RangedFrame(k: Parts, x: Assign, y: Assign)
    requires Ranged(k, x) && Agree(x, y, Comps(k))
    ensures Ranged(k, y)
    decreases k
  {
    assert k.id in Comps(k);
    match k
    case Whole(_, _) =>
    case Pair(_, f, s, _) => RangedFrame(f, x, y); RangedFrame(s, x, y);
  }

  lemma {:induction false} ObeysRanged(k: Parts, x: Assign)
    requires Obeys(k, x)
    ensures Ranged(k, x)
    decreases k
  {
    match k
    case Whole(_, _) =>
    case Pair(_, f, s, _) => ObeysRanged(f, x); ObeysRanged(s, x);
  }

  /** Rewriting one component within range keeps the whole tree within range. */
  lemma {:induction false} RangedReplace(k: Parts, c: Id, x: Assign, y: Assign)
    requires PartsOk(k) && c in Comps(k) && Ranged(k, x)
    requires Agree(x, y, Comps(k) - Comps(Part(k, c))) && Ranged(Part(k, c), y)
    ensures Ranged(k, y)
    decreases k
  {
    if c != k.id {
      PartFacts(k, c);
      match k
      case Whole(_, _) =>
      case Pair(_, f, s, _) =>
        assert k.id in Comps(k);
        if c in Comps(f) {
          PartFacts(f, c);
          RangedReplace(f, c, x, y);
          RangedFrame(s, x, y);
        } else {
          PartFacts(s, c);
          RangedReplace(s, c, x, y);
          RangedFrame(f, x, y);
        }
    }
  }

  /** Settled choices obey the merges. */
  lemma {:induction false} SettledObeys(n: Node, x: Assign)
    requires ShapeNode(n) && SettledNode(n, x) && At(x, n.id) < |n.cost|
    ensures Obeys(PartsOf(n), x)
    decreases n
  {
    match n.body
    case Origin(_, _) =>
    case Merged(f, s, pairs, _) =>
      assert PartsOf(f).id == f.id && PartsOf(s).id == s.id;
      assert Size(PartsOf(f)) == |f.cost| && Size(PartsOf(s)) == |s.cost|;
      SettledObeys(f, x);
      SettledObeys(s, x);
  }

  // ----- settledness looks only at the object and at the nodes its edges name -----

  lemma PickInside(k: Parts, l: Parts, c: Id)
    requires PartsOk(k) && PartsOk(l) && (c in Comps(k) || c in Comps(l))
    ensures Comps(Pick(k, l, c)) <= Comps(k) + Comps(l)
  {
    if c in Comps(k) { PartFacts(k, c); } else { PartFacts(l, c); }
  }

  lemma {:induction false} SettledNodeFrame(n: Node, x: Assign, y: Assign)
    requires ShapeNode(n) && SettledNode(n, x) && Agree(x, y, NodeIds(n))
    ensures SettledNode(n, y)
    decreases n, 1
  {
    CompsAreOwned(n);
    match n.body {
      case Origin(_, _) =>
      case Merged(f, s, _, inner) =>
        assert f.id in NodeIds(f) && s.id in NodeIds(s);
        SettledNodeFrame(f, x, y);
        SettledNodeFrame(s, x, y);
        if inner.Some? { SettledEdgeFrame(inner.value, PartsOf(n), PartsOf(n), x, y); }
    }
    forall c | c in n.children
      ensures && At(y, n.id) < |c.sig| && At(y, c.node.id) == c.sig[At(y, n.id)]
              && SettledNode(c.node, y) && SettledEdge(c.edge, y)
    {
      SettledChildFrame(n, c, x, y);
    }
  }

  lemma {:induction false} SettledChildFrame(n: Node, c: Child, x: Assign, y: Assign)
    requires ShapeNode(n) && SettledNode(n, x) && Agree(x, y, NodeIds(n)) && c in n.children
    ensures At(y, n.id) < |c.sig| && At(y, c.node.id) == c.sig[At(y, n.id)]
    ensures SettledNode(c.node, y) && SettledEdge(c.edge, y)
    decreases n, 0
  {
    CompsAreOwned(n);
    CompsAreOwned(c.node);
    forall i | i in ChildIds(c) ensures i in NodeIds(n) { ChildrenIdsMember(n.children, i); }
    var p, q := PartsOf(n), PartsOf(c.node);
    assert n.id in Comps(p) && c.node.id in Comps(q) && c.node.id in NodeIds(c.node);
    PickInside(p, q, c.edge.start);
    PickInside(p, q, c.edge.end);
    SettledNodeFrame(c.node, x, y);
    SettledEdgeFrame(c.edge, Pick(p, q, c.edge.start), Pick(p, q, c.edge.end), x, y);
  }

  lemma {:induction false} SettledEdgeFrame(e: Edge, s: Parts, t: Parts, x: Assign, y: Assign)
    requires ShapeEdge(e, s, t) && SettledEdge(e, x)
    requires Agree(x, y, EdgeIds(e)) && Agree(x, y, Comps(s)) && Agree(x, y, Comps(t))
    ensures SettledEdge(e, y)
    decreases e, 1
  {
    assert s.id in Comps(s) && t.id in Comps(t);
    match e.body
    case Bare(_, _) =>
    case Parallel(list) =>
      forall a | a in list ensures SettledEdge(a, y) {
        forall i | i in EdgeIds(a) ensures i in EdgeIds(e) { ListIdsMember(list, i); }
        PickInside(s, t, a.start);
        PickInside(s, t, a.end);
        SettledEdgeFrame(a, Pick(s, t, a.start), Pick(s, t, a.end), x, y);
      }
    case Through(mid, a, b, _) =>
      SettledNodeFrame(mid, x, y);
      assert mid.id in NodeIds(mid);
      SettledSideFrame(e, s, a, x, y);
      SettledSideFrame(e, t, b, x, y);
  }

  /** One of the two edges inside a folded edge. */
  lemma {:induction false} SettledSideFrame(e: Edge, s: Parts, a: Edge, x: Assign, y: Assign)
    requires e.body.Through? && (a == e.body.first || a == e.body.second) && PartsOk(s) && ShapeNode(e.body.mid)
    requires Ties(a, e.body.mid.id, Comps(s))
    requires ShapeEdge(a, Pick(s, PartsOf(e.body.mid), a.start), Pick(s, PartsOf(e.body.mid), a.end))
    requires SettledEdge(a, x) && Agree(x, y, EdgeIds(a)) && Agree(x, y, NodeIds(e.body.mid)) && Agree(x, y, Comps(s))
    ensures SettledEdge(a, y)
    decreases e, 0
  {
    var mid := e.body.mid;
    var m := PartsOf(mid);
    CompsAreOwned(mid);
    assert mid.id in Comps(m);
    PickInside(s, m, a.start);
    PickInside(s, m, a.end);
    SettledEdgeFrame(a, Pick(s, m, a.start), Pick(s, m, a.end), x, y);
  }

  // ----- every node holds one of its own signatures -----

  ghost predicate RangedNode(n: Node, x: Assign)
    decreases n
  {
    && At(x, n.id) < |n.cost|
    && (match n.body
        case Origin(_, _) => true
        case Merged(f, s, _, inner) =>
          RangedNode(f, x) && RangedNode(s, x) && (inner.Some? ==> RangedEdge(inner.value, x)))
    && forall c :: c in n.children ==> RangedNode(c.node, x) && RangedEdge(c.edge, x)
  }

  ghost predicate RangedEdge(e: Edge, x: Assign)
    decreases e
  {
    match e.body
    case Bare(_, _) => true
    case Parallel(list) => forall a :: a in list ==> RangedEdge(a, x)
    case Through(mid, a, b, _) => RangedNode(mid, x) && RangedEdge(a, x) && RangedEdge(b, x)
  }

  lemma {:induction false} RangedNodeParts(n: Node, x: Assign)
    requires ShapeNode(n) && RangedNode(n, x)
    ensures Ranged(PartsOf(n), x)
    decreases n
  {
    assert PartsOf(n).id == n.id;
    match n.body
    case Origin(_, _) =>
    case Merged(f, s, _, _) => RangedNodeParts(f, x); RangedNodeParts(s, x);
  }

  lemma {:induction false} RangedNodeFrame(n: Node, x: Assign, y: Assign)
    requires RangedNode(n, x) && Agree(x, y, NodeIds(n))
    ensures RangedNode(n, y)
    decreases n
  {
    match n.body {
      case Origin(_, _) =>
      case Merged(f, s, _, inner) =>
        RangedNodeFrame(f, x, y);
        RangedNodeFrame(s, x, y);
        if inner.Some? {
          assert EdgeIds(inner.value) <= NodeIds(n);
          RangedEdgeFrame(inner.value, x, y);
        }
    }
    forall c | c in n.children ensures RangedNode(c.node, y) && RangedEdge(c.edge, y) {
      forall i | i in ChildIds(c) ensures i in NodeIds(n) { ChildrenIdsMember(n.children, i); }
      RangedNodeFrame(c.node, x, y);
      RangedEdgeFrame(c.edge, x, y);
    }
  }

  lemma {:induction false} RangedEdgeFrame(e: Edge, x: Assign, y: Assign)
    requires RangedEdge(e, x) && Agree(x, y, EdgeIds(e))
    ensures RangedEdge(e, y)
    decreases e
  {
    match e.body
    case Bare(_, _) =>
    case Parallel(list) =>
      forall a | a in list ensures RangedEdge(a, y) {
        forall i | i in EdgeIds(a) ensures i in EdgeIds(e) { ListIdsMember(list, i); }
        RangedEdgeFrame(a, x, y);
      }
    case Through(mid, a, b, _) =>
      RangedNodeFrame(mid, x, y);
      RangedEdgeFrame(a, x, y);
      RangedEdgeFrame(b, x, y);
  }

  lemma {:induction false} SettledNodeRanged(n: Node, x: Assign)
    requires ShapeNode(n) && SettledNode(n, x) && At(x, n.id) < |n.cost|
    ensures RangedNode(n, x)
    decreases n
  {
    match n.body {
      case Origin(_, _) =>
      case Merged(f, s, pairs, inner) =>
        assert Size(PartsOf(f)) == |f.cost| && Size(PartsOf(s)) == |s.cost|;
        SettledNodeRanged(f, x);
        SettledNodeRanged(s, x);
        if inner.Some? { SettledEdgeRanged(inner.value, PartsOf(n), PartsOf(n), x); }
    }
    forall c | c in n.children ensures RangedNode(c.node, x) && RangedEdge(c.edge, x) {
      SettledNodeRanged(c.node, x);
      SettledEdgeRanged(c.edge, Pick(PartsOf(n), PartsOf(c.node), c.edge.start),
                        Pick(PartsOf(n), PartsOf(c.node), c.edge.end), x);
    }
  }

  lemma {:induction false} SettledEdgeRanged(e: Edge, s: Parts, t: Parts, x: Assign)
    requires ShapeEdge(e, s, t) && SettledEdge(e, x)
    ensures RangedEdge(e, x)
    decreases e
  {
    match e.body
    case Bare(_, _) =>
    case Parallel(list) =>
      forall a | a in list ensures RangedEdge(a, x) {
        SettledEdgeRanged(a, Pick(s, t, a.start), Pick(s, t, a.end), x);
      }
    case Through(mid, a, b, _) =>
      SettledNodeRanged(mid, x);
      SettledEdgeRanged(a, Pick(s, PartsOf(mid), a.start), Pick(s, PartsOf(mid), a.end), x);
      SettledEdgeRanged(b, Pick(t, PartsOf(mid), b.start), Pick(t, PartsOf(mid), b.end), x);
  }
}
