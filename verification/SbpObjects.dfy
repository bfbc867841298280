/** The objects built by absorbing and merging, and the edges that merging redirects. */
module SbpObjects {
  import opened Wrappers
  import opened SbpForest
  import opened SbpOwnership
  import opened SbpSteps

  function End(k: Parts, l: Parts, c: Id): Parts { if c == k.id then k else l }

  lemma PickRoots(k: Parts, l: Parts)
    requires Comps(k) !! Comps(l)
    ensures Pick(k, l, k.id) == k && Pick(k, l, l.id) == l && k.id in Comps(k) && l.id in Comps(l)
  {
  }

  // ----- a father that has swallowed a leaf -----

  lemma AdoptParts(f: Node, c: Node, k: Edge, father: Node)
    requires Adopted(f, c, k, father)
    ensures PartsOf(father) == PartsOf(f)
  {
  }

  lemma Appended<T>(xs: seq<T>, ys: seq<T>, l: T, d: T)
    requires ys == xs + [l]
    ensures d in ys <==> d in xs || d == l
  {
  }

  lemma SwallowSized(f: Node, c: Node, k: Edge, father: Node)
    requires Swallowed(f, c, k, father)
    ensures |father.children[|f.children|].sig| == |f.cost|
    ensures forall i :: 0 <= i < |f.cost| ==> father.children[|f.children|].sig[i] < |c.cost|
  {
    var child := father.children[|f.children|];
    forall i | 0 <= i < |f.cost| ensures child.sig[i] < |c.cost| { assert ChildBest(child, i, child.sig[i]); }
  }

  lemma AdoptShape(f: Node, c: Node, k: Edge, father: Node)
    requires Adopted(f, c, k, father) && ShapeNode(f) && ShapeNode(c)
    requires |father.children[|f.children|].sig| == |f.cost|
    requires forall i :: 0 <= i < |f.cost| ==> father.children[|f.children|].sig[i] < |c.cost|
    requires Comps(PartsOf(c)) !! Comps(PartsOf(f)) && Between(k, f.id, c.id)
    requires ShapeEdge(k, End(PartsOf(f), PartsOf(c), k.start), End(PartsOf(f), PartsOf(c), k.end))
    ensures ShapeNode(father)
  {
    AdoptParts(f, c, k, father);
    forall d | d in father.children ensures ChildShape(father, d) {
      Appended(f.children, father.children, father.children[|f.children|], d);
      if d in f.children { OldChildShape(f, d); } else { NewChildShape(f, c, k, d); }
      assert ChildShape(f, d);
    }
    ChildrenShape(f, father);
  }

  /** What ShapeNode asks of one child. */
  ghost predicate ChildShape(n: Node, d: Child) {
    && ShapeNode(d.node) && Comps(PartsOf(d.node)) !! Comps(PartsOf(n)) && |d.sig| == |n.cost|
    && (forall i :: 0 <= i < |d.sig| ==> d.sig[i] < |d.node.cost|)
    && Ties(d.edge, d.node.id, {n.id})
    && ShapeEdge(d.edge, Pick(PartsOf(n), PartsOf(d.node), d.edge.start), Pick(PartsOf(n), PartsOf(d.node), d.edge.end))
  }

  lemma OldChildShape(n: Node, d: Child)
    requires ShapeNode(n) && d in n.children
    ensures ChildShape(n, d)
  {
  }

  lemma NewChildShape(f: Node, c: Node, k: Edge, d: Child)
    requires ShapeNode(c) && Comps(PartsOf(c)) !! Comps(PartsOf(f)) && Between(k, f.id, c.id)
    requires ShapeEdge(k, End(PartsOf(f), PartsOf(c), k.start), End(PartsOf(f), PartsOf(c), k.end))
    requires d.node == c && d.edge == k && |d.sig| == |f.cost| && forall i :: 0 <= i < |d.sig| ==> d.sig[i] < |c.cost|
    ensures ChildShape(f, d)
  {
    assert PartsOf(f).id == f.id && PartsOf(c).id == c.id;
    PickRoots(PartsOf(f), PartsOf(c));
  }

  lemma ChildrenShape(f: Node, father: Node)
    requires ShapeNode(f) && father.id == f.id && father.body == f.body && |father.cost| == |f.cost|
    requires PartsOf(father) == PartsOf(f) && forall d :: d in father.children ==> ChildShape(father, d)
    ensures ShapeNode(father)
  {
  }

  lemma AdoptChildrenFresh(f: Node, c: Node, k: Edge, father: Node, ratio: real, d: Child)
    requires Adopted(f, c, k, father) && FreshNode(f, ratio) && FreshNode(c, ratio)
    requires Comps(PartsOf(c)) !! Comps(PartsOf(f)) && Between(k, f.id, c.id)
    requires FreshEdge(k, End(PartsOf(f), PartsOf(c), k.start), End(PartsOf(f), PartsOf(c), k.end), ratio)
    requires d in father.children
    ensures FreshNode(d.node, ratio)
    ensures FreshEdge(d.edge, Pick(PartsOf(f), PartsOf(d.node), d.edge.start),
                      Pick(PartsOf(f), PartsOf(d.node), d.edge.end), ratio)
    ensures d in f.children ==> ChildFresh(f, d)
  {
    PickRoots(PartsOf(f), PartsOf(c));
    Appended(f.children, father.children, father.children[|f.children|], d);
  }

  lemma SwallowCost(f: Node, c: Node, k: Edge, father: Node, ratio: real, i: Sig)
    requires Swallowed(f, c, k, father) && NodeFreshHere(f, ratio) && i < |f.cost|
    ensures father.cost[i] == BodyCost(father, i, ratio) + ChildrenCost(father.children, i)
  {
    var l := father.children[|f.children|];
    assert father.children[..|f.children|] == f.children;
    assert ChildrenCost(father.children, i) == ChildrenCost(f.children, i) + ChildCost(l, i, l.sig[i]);
    assert BodyCost(father, i, ratio) == BodyCost(f, i, ratio);
  }

  lemma SwallowFreshHere(f: Node, c: Node, k: Edge, father: Node, ratio: real)
    requires Swallowed(f, c, k, father) && NodeFreshHere(f, ratio)
    ensures NodeFreshHere(father, ratio)
  {
    forall i | 0 <= i < |father.cost|
      ensures father.cost[i] == BodyCost(father, i, ratio) + ChildrenCost(father.children, i)
    {
      SwallowCost(f, c, k, father, ratio, i);
    }
    forall d | d in father.children ensures ChildFresh(father, d) {
      Appended(f.children, father.children, father.children[|f.children|], d);
      if d in f.children { assert ChildFresh(f, d); }
    }
  }

  lemma SwallowFresh(f: Node, c: Node, k: Edge, father: Node, ratio: real)
    requires Swallowed(f, c, k, father) && FreshNode(f, ratio) && FreshNode(c, ratio)
    requires Comps(PartsOf(c)) !! Comps(PartsOf(f)) && Between(k, f.id, c.id)
    requires FreshEdge(k, End(PartsOf(f), PartsOf(c), k.start), End(PartsOf(f), PartsOf(c), k.end), ratio)
    ensures FreshNode(father, ratio)
  {
    SwallowFreshHere(f, c, k, father, ratio);
    AdoptFresh(f, c, k, father, ratio);
  }

  lemma AdoptFresh(f: Node, c: Node, k: Edge, father: Node, ratio: real)
    requires Adopted(f, c, k, father) && FreshNode(f, ratio) && FreshNode(c, ratio)
    requires Comps(PartsOf(c)) !! Comps(PartsOf(f)) && Between(k, f.id, c.id)
    requires FreshEdge(k, End(PartsOf(f), PartsOf(c), k.start), End(PartsOf(f), PartsOf(c), k.end), ratio)
    requires NodeFreshHere(father, ratio)
    ensures FreshNode(father, ratio)
  {
    AdoptParts(f, c, k, father);
    forall d | d in father.children
      ensures && FreshNode(d.node, ratio)
              && FreshEdge(d.edge, Pick(PartsOf(father), PartsOf(d.node), d.edge.start),
                           Pick(PartsOf(father), PartsOf(d.node), d.edge.end), ratio)
    {
      AdoptChildrenFresh(f, c, k, father, ratio, d);
    }
  }

  lemma AdoptBase(f: Node, c: Node, k: Edge, father: Node, x: Assign, ratio: real)
    requires Adopted(f, c, k, father)
    ensures NodeBase(father, x, ratio) == NodeBase(f, x, ratio) + (NodeBase(c, x, ratio) + EdgeBase(k, x, ratio))
  {
    assert father.children[..|f.children|] == f.children;
    assert BodyBase(father, x, ratio) == BodyBase(f, x, ratio);
    assert ChildrenBase(father.children, x, ratio)
        == ChildrenBase(f.children, x, ratio) + (NodeBase(c, x, ratio) + EdgeBase(k, x, ratio));
  }

  lemma AdoptLegal(f: Node, c: Node, k: Edge, father: Node, x: Assign)
    requires Adopted(f, c, k, father)
    ensures LegalNode(father, x) <==> LegalNode(f, x) && LegalNode(c, x) && LegalEdge(k, x)
  {
    AdoptParts(f, c, k, father);
    forall d ensures d in father.children <==> d in f.children || d == father.children[|f.children|] {
      Appended(f.children, father.children, father.children[|f.children|], d);
    }
  }

  lemma AdoptIds(f: Node, c: Node, k: Edge, father: Node)
    requires Adopted(f, c, k, father)
    ensures NodeIds(father) == NodeIds(f) + NodeIds(c) + EdgeIds(k)
  {
    assert father.children[..|f.children|] == f.children;
    assert HalfIds(father) == HalfIds(f);
    assert ChildrenIds(father.children) == ChildrenIds(f.children) + (NodeIds(c) + EdgeIds(k));
  }

  lemma AdoptForest(f: Node, c: Node, k: Edge, father: Node)
    requires Adopted(f, c, k, father) && ForestNode(f) && ForestNode(c) && ForestEdge(k)
    requires NodeIds(f) !! NodeIds(c) && NodeIds(f) !! EdgeIds(k) && NodeIds(c) !! EdgeIds(k)
    ensures ForestNode(father)
  {
    var l := father.children[|f.children|];
    assert father.children[..|f.children|] == f.children;
    assert ChildIds(l) == NodeIds(c) + EdgeIds(k);
    assert HalfIds(father) == HalfIds(f);
    assert ChildrenIds(father.children) == ChildrenIds(f.children) + ChildIds(l);
    forall i, j | 0 <= i < j < |father.children| ensures ChildIds(father.children[i]) !! ChildIds(father.children[j]) {
      if j == |f.children| {
        forall o | o in ChildIds(f.children[i]) ensures o in NodeIds(f) { ChildrenIdsMember(f.children, o); }
      }
    }
    forall d | d in father.children
      ensures ForestNode(d.node) && ForestEdge(d.edge) && NodeIds(d.node) !! EdgeIds(d.edge)
    {
      Appended(f.children, father.children, l, d);
    }
  }

  // ----- re-indexed edges -----

  /** The wide merge tree contains the narrow one, which has signature pick[i] when the wide
      one has signature i. */
  ghost predicate Widens(wide: Parts, narrow: Parts, pick: seq<Sig>) {
    && PartsOk(wide) && PartsOk(narrow) && Size(wide) == |pick| && Comps(narrow) <= Comps(wide)
    && (forall i :: 0 <= i < |pick| ==> pick[i] < Size(narrow))
    && (forall c :: c in Comps(narrow) ==> Part(wide, c) == Part(narrow, c))
    && (forall i, c :: 0 <= i < |pick| && c in Comps(narrow) ==> Comp(wide, i, c) == Comp(narrow, pick[i], c))
  }

  lemma WidensSelf(k: Parts)
    requires PartsOk(k)
    ensures Widens(k, k, Identity(Size(k)))
  {
  }

  lemma WidensFirst(w: Parts)
    requires PartsOk(w) && w.Pair?
    ensures Widens(w, w.first, Firsts(w.pairs))
  {
  }

  lemma WidensSecond(w: Parts)
    requires PartsOk(w) && w.Pair?
    ensures Widens(w, w.second, Seconds(w.pairs))
  {
  }

  lemma WidePick(s: Parts, t: Parts, s': Parts, t': Parts, rows: seq<Sig>, cols: seq<Sig>, c: Id)
    requires Widens(s', s, rows) && Widens(t', t, cols) && Comps(s) !! Comps(t)
    requires s' == t' || Comps(s') !! Comps(t')
    requires c in Comps(s) || c in Comps(t)
    ensures Pick(s', t', c) == Pick(s, t, c)
  {
  }

  lemma CopyShape(e: Edge, d: Edge, s: Parts, t: Parts, s': Parts, t': Parts, rows: seq<Sig>, cols: seq<Sig>)
    requires ShapeEdge(e, s, t) && Comps(s) !! Comps(t) && Copied(e, d, s'.id, t'.id, rows, cols)
    requires Widens(s', s, rows) && Widens(t', t, cols)
    requires s' == t' || Comps(s') !! Comps(t')
    requires EdgeIds(e) !! Comps(s') && EdgeIds(e) !! Comps(t')
    ensures ShapeEdge(d, s', t')
  {
    match e.body {
      case Bare(_, _) =>
      case Parallel(list) =>
        forall a | a in list
          ensures Joins(a, s', t') && ShapeEdge(a, Pick(s', t', a.start), Pick(s', t', a.end))
        {
          WidePick(s, t, s', t', rows, cols, a.start);
          WidePick(s, t, s', t', rows, cols, a.end);
        }
      case Through(mid, a, b, _) =>
        MidApart(e, s');
        MidApart(e, t');
        TiePick(a, mid, s, s', rows);
        TiePick(b, mid, t, t', cols);
        PickedBelow(e.body.sig, d.body.sig, rows, cols, |mid.cost|);
    }
  }

  lemma PickedBelow(t: seq<seq<Sig>>, u: seq<seq<Sig>>, rows: seq<Sig>, cols: seq<Sig>, bound: nat)
    requires Picked(t, u, rows, cols) && Below(t, bound)
    ensures Below(u, bound)
  {
    forall i, j | 0 <= i < |u| && 0 <= j < |u[i]| ensures u[i][j] < bound {
      PickedAt(t, u, rows, cols, i, j);
    }
  }

  lemma MidApart(e: Edge, k: Parts)
    requires e.body.Through? && EdgeIds(e) !! Comps(k)
    ensures Comps(PartsOf(e.body.mid)) !! Comps(k) && e.body.mid.id in Comps(PartsOf(e.body.mid))
    ensures PartsOf(e.body.mid).id == e.body.mid.id
  {
    CompsAreOwned(e.body.mid);
  }

  lemma TiePick(a: Edge, mid: Node, s: Parts, s': Parts, rows: seq<Sig>)
    requires Widens(s', s, rows) && Ties(a, mid.id, Comps(s)) && PartsOf(mid).id == mid.id
    requires Comps(PartsOf(mid)) !! Comps(s') && mid.id in Comps(PartsOf(mid))
    ensures Ties(a, mid.id, Comps(s'))
    ensures Pick(s', PartsOf(mid), a.start) == Pick(s, PartsOf(mid), a.start)
    ensures Pick(s', PartsOf(mid), a.end) == Pick(s, PartsOf(mid), a.end)
  {
  }

  lemma CopyFresh(e: Edge, d: Edge, s: Parts, t: Parts, s': Parts, t': Parts, rows: seq<Sig>, cols: seq<Sig>,
                  ratio: real)
    requires ShapeEdge(e, s, t) && Comps(s) !! Comps(t) && Copied(e, d, s'.id, t'.id, rows, cols)
    requires Widens(s', s, rows) && Widens(t', t, cols)
    requires s' == t' || Comps(s') !! Comps(t')
    requires EdgeIds(e) !! Comps(s') && EdgeIds(e) !! Comps(t')
    requires FreshEdge(e, s, t, ratio)
    ensures FreshEdge(d, s', t', ratio)
  {
    match e.body {
      case Bare(_, _) =>
        CopyBareFresh(e, d, s, t, s', t', rows, cols, ratio);
      case Parallel(list) =>
        CopyParallelFresh(e, d, s, t, s', t', rows, cols);
        forall a | a in list ensures FreshEdge(a, Pick(s', t', a.start), Pick(s', t', a.end), ratio) {
          WidePick(s, t, s', t', rows, cols, a.start);
          WidePick(s, t, s', t', rows, cols, a.end);
        }
      case Through(mid, a, b, sig) =>
        MidApart(e, s');
        MidApart(e, t');
        TiePick(a, mid, s, s', rows);
        TiePick(b, mid, t, t', cols);
        CopyThroughFresh(e, d, s, t, s', t', rows, cols);
    }
  }

  lemma CopyBareFresh(e: Edge, d: Edge, s: Parts, t: Parts, s': Parts, t': Parts, rows: seq<Sig>, cols: seq<Sig>,
                      ratio: real)
    requires e.body.Bare? && Copied(e, d, s'.id, t'.id, rows, cols) && Comps(s) !! Comps(t)
    requires Widens(s', s, rows) && Widens(t', t, cols) && EdgeFreshHere(e, s, t, ratio)
    ensures EdgeFreshHere(d, s', t', ratio)
  {
    forall i, j | Meant(s', t', i, j)
      ensures Cell(d.cost, i, j) == BareCost(d.body.time, d.body.memory, i, j, ratio)
    {
      assert s.id in Comps(s);
      assert Meant(s, t, rows[i], cols[j]);
    }
  }

  lemma CopyParallelFresh(e: Edge, d: Edge, s: Parts, t: Parts, s': Parts, t': Parts, rows: seq<Sig>, cols: seq<Sig>)
    requires e.body.Parallel? && Copied(e, d, s'.id, t'.id, rows, cols) && Comps(s) !! Comps(t)
    requires Widens(s', s, rows) && Widens(t', t, cols) && (s' == t' || Comps(s') !! Comps(t'))
    requires forall a :: a in e.body.list ==> Joins(a, s, t)
    requires EdgeFreshHere(e, s, t, 0.0)
    ensures EdgeFreshHere(d, s', t', 0.0)
  {
    var list := e.body.list;
    forall i, j | Meant(s', t', i, j)
      ensures Cell(d.cost, i, j) == ListCost(list, s', t', i, j)
    {
      assert s.id in Comps(s);
      assert Meant(s, t, rows[i], cols[j]);
      WideList(list, |list|, s, t, s', t', rows, cols, i, j);
      assert list[..|list|] == list;
    }
  }

  lemma {:induction false} WideList(list: seq<Edge>, k: nat, s: Parts, t: Parts, s': Parts, t': Parts,
                                    rows: seq<Sig>, cols: seq<Sig>, i: Sig, j: Sig)
    requires Widens(s', s, rows) && Widens(t', t, cols) && Comps(s) !! Comps(t)
    requires s' == t' || Comps(s') !! Comps(t')
    requires Meant(s', t', i, j) && k <= |list|
    requires forall a :: a in list ==> Joins(a, s, t)
    ensures ListCost(list[..k], s', t', i, j) == ListCost(list[..k], s, t, rows[i], cols[j])
    decreases k
  {
    if k > 0 {
      assert list[..k][..k - 1] == list[..k - 1] && list[k - 1] in list;
      WideList(list, k - 1, s, t, s', t', rows, cols, i, j);
      WidePart(list[k - 1], s, t, s', t', rows, cols, i, j);
    }
  }

  lemma WidePart(a: Edge, s: Parts, t: Parts, s': Parts, t': Parts, rows: seq<Sig>, cols: seq<Sig>, i: Sig, j: Sig)
    requires Widens(s', s, rows) && Widens(t', t, cols) && Comps(s) !! Comps(t)
    requires s' == t' || Comps(s') !! Comps(t')
    requires Meant(s', t', i, j) && Joins(a, s, t)
    ensures PartCost(a, s', t', i, j) == PartCost(a, s, t, rows[i], cols[j])
  {
  }

  lemma WideSide(a: Edge, mid: Id, s: Parts, s': Parts, rows: seq<Sig>, i: Sig, m: Sig)
    requires Widens(s', s, rows) && i < |rows| && Ties(a, mid, Comps(s))
    requires mid !in Comps(s) && mid !in Comps(s')
    ensures SideCost(a, mid, s', i, m) == SideCost(a, mid, s, rows[i], m)
  {
  }

  lemma WideThrough(e: Edge, s: Parts, t: Parts, s': Parts, t': Parts, rows: seq<Sig>, cols: seq<Sig>, i: Sig, m: Sig,
                    j: Sig)
    requires e.body.Through? && Widens(s', s, rows) && Widens(t', t, cols) && i < |rows| && j < |cols|
    requires Ties(e.body.first, e.body.mid.id, Comps(s)) && Ties(e.body.second, e.body.mid.id, Comps(t))
    requires e.body.mid.id !in Comps(s') && e.body.mid.id !in Comps(t')
    ensures ThroughCost(e.body.mid, e.body.first, e.body.second, s', t', i, m, j)
         == ThroughCost(e.body.mid, e.body.first, e.body.second, s, t, rows[i], m, cols[j])
  {
    WideSide(e.body.first, e.body.mid.id, s, s', rows, i, m);
    WideSide(e.body.second, e.body.mid.id, t, t', cols, j, m);
  }

  /** One meaningful entry of a re-indexed compound edge. */
  lemma CopyThroughEntry(e: Edge, d: Edge, s: Parts, t: Parts, s': Parts, t': Parts, rows: seq<Sig>, cols: seq<Sig>,
                         i: Sig, j: Sig)
    requires e.body.Through? && Comps(s) !! Comps(t) && Copied(e, d, s'.id, t'.id, rows, cols)
    requires Widens(s', s, rows) && Widens(t', t, cols)
    requires Ties(e.body.first, e.body.mid.id, Comps(s)) && Ties(e.body.second, e.body.mid.id, Comps(t))
    requires e.body.mid.id !in Comps(s') && e.body.mid.id !in Comps(t')
    requires ThroughFresh(e, s, t) && Meant(s', t', i, j)
    ensures var mid, a, b := e.body.mid, e.body.first, e.body.second;
            && |d.cost| == Size(s') && |d.cost[i]| == Size(t') && |d.body.sig| == Size(s')
               && |d.body.sig[i]| == Size(t')
            && d.body.sig[i][j] < |mid.cost|
            && d.cost[i][j] == ThroughCost(mid, a, b, s', t', i, d.body.sig[i][j], j)
            && forall m :: 0 <= m < |mid.cost| ==> d.cost[i][j] <= ThroughCost(mid, a, b, s', t', i, m, j)
  {
    assert s.id in Comps(s);
    assert Meant(s, t, rows[i], cols[j]);
    WideThrough(e, s, t, s', t', rows, cols, i, d.body.sig[i][j], j);
    forall m | 0 <= m < |e.body.mid.cost|
      ensures d.cost[i][j] <= ThroughCost(e.body.mid, e.body.first, e.body.second, s', t', i, m, j)
    {
      WideThrough(e, s, t, s', t', rows, cols, i, m, j);
    }
  }

  lemma CopyThroughFresh(e: Edge, d: Edge, s: Parts, t: Parts, s': Parts, t': Parts, rows: seq<Sig>, cols: seq<Sig>)
    requires e.body.Through? && Comps(s) !! Comps(t) && Copied(e, d, s'.id, t'.id, rows, cols)
    requires Widens(s', s, rows) && Widens(t', t, cols)
    requires Ties(e.body.first, e.body.mid.id, Comps(s)) && Ties(e.body.second, e.body.mid.id, Comps(t))
    requires e.body.mid.id !in Comps(s') && e.body.mid.id !in Comps(t')
    requires ThroughFresh(e, s, t)
    ensures ThroughFresh(d, s', t')
  {
    var mid, a, b := e.body.mid, e.body.first, e.body.second;
    forall i, j | Meant(s', t', i, j)
      ensures d.body.sig[i][j] < |mid.cost|
      ensures d.cost[i][j] == ThroughCost(mid, a, b, s', t', i, d.body.sig[i][j], j)
    {
      CopyThroughEntry(e, d, s, t, s', t', rows, cols, i, j);
    }
    forall i, j, m | Meant(s', t', i, j) && 0 <= m < |mid.cost|
      ensures d.cost[i][j] <= ThroughCost(mid, a, b, s', t', i, m, j)
    {
      CopyThroughEntry(e, d, s, t, s', t', rows, cols, i, j);
    }
  }

  lemma CopyBase(e: Edge, d: Edge, s: Id, t: Id, s': Id, t': Id, rows: seq<Sig>, cols: seq<Sig>, x: Assign, ratio: real)
    requires Copied(e, d, s', t', rows, cols) && e.start == s && e.end == t
    requires At(x, s') < |rows| && At(x, t') < |cols|
    requires At(x, s) == rows[At(x, s')] && At(x, t) == cols[At(x, t')]
    ensures EdgeBase(d, x, ratio) == EdgeBase(e, x, ratio)
  {
  }

  lemma CopyLegal(e: Edge, d: Edge, s': Id, t': Id, rows: seq<Sig>, cols: seq<Sig>, x: Assign)
    requires Copied(e, d, s', t', rows, cols)
    ensures LegalEdge(d, x) <==> LegalEdge(e, x)
  {
  }

  lemma CopyIds(e: Edge, d: Edge, s': Id, t': Id, rows: seq<Sig>, cols: seq<Sig>)
    requires Copied(e, d, s', t', rows, cols)
    ensures EdgeIds(d) == EdgeIds(e) && (ForestEdge(d) <==> ForestEdge(e))
  {
  }

  // ----- the merged node -----

  ghost predicate MergeReady(f: Node, s: Node, common: Option<Edge>, m: Node) {
    && Joined(f, s, common, m)
    && ShapeNode(f) && ShapeNode(s)
    && Comps(PartsOf(f)) !! Comps(PartsOf(s)) && m.id !in Comps(PartsOf(f)) && m.id !in Comps(PartsOf(s))
    && (common.Some? ==>
          && Between(common.value, f.id, s.id)
          && EdgeIds(common.value) !! Comps(PartsOf(f)) && EdgeIds(common.value) !! Comps(PartsOf(s))
          && m.id !in EdgeIds(common.value)
          && ShapeEdge(common.value, End(PartsOf(f), PartsOf(s), common.value.start),
                       End(PartsOf(f), PartsOf(s), common.value.end)))
  }

  lemma MergeParts(f: Node, s: Node, common: Option<Edge>, m: Node)
    requires MergeReady(f, s, common, m)
    ensures PartsOf(m) == Pair(m.id, PartsOf(f), PartsOf(s), m.body.pairs) && PartsOk(PartsOf(m))
    ensures Widens(PartsOf(m), PartsOf(f), Firsts(m.body.pairs))
    ensures Widens(PartsOf(m), PartsOf(s), Seconds(m.body.pairs))
    ensures PartsOf(f).id == f.id && PartsOf(s).id == s.id && f.id != s.id
  {
    assert f.id in Comps(PartsOf(f)) && s.id in Comps(PartsOf(s));
    assert Size(PartsOf(f)) == |f.cost| && Size(PartsOf(s)) == |s.cost|;
    WidensFirst(PartsOf(m));
    WidensSecond(PartsOf(m));
  }

  lemma MergeInnerShape(f: Node, s: Node, c: Edge, m: Node)
    requires MergeReady(f, s, Some(c), m)
    ensures ShapeEdge(m.body.inner.value, PartsOf(m), PartsOf(m))
  {
    MergeParts(f, s, Some(c), m);
    CopyShape(c, m.body.inner.value, End(PartsOf(f), PartsOf(s), c.start), End(PartsOf(f), PartsOf(s), c.end),
              PartsOf(m), PartsOf(m), HalfPick(c.start, f.id, m.body.pairs), HalfPick(c.end, f.id, m.body.pairs));
  }

  lemma MergeShape(f: Node, s: Node, common: Option<Edge>, m: Node)
    requires MergeReady(f, s, common, m)
    ensures ShapeNode(m)
  {
    MergeParts(f, s, common, m);
    if common.Some? { MergeInnerShape(f, s, common.value, m); }
  }

  lemma MergeInnerFresh(f: Node, s: Node, c: Edge, m: Node, ratio: real)
    requires MergeReady(f, s, Some(c), m)
    requires FreshEdge(c, End(PartsOf(f), PartsOf(s), c.start), End(PartsOf(f), PartsOf(s), c.end), ratio)
    ensures FreshEdge(m.body.inner.value, PartsOf(m), PartsOf(m), ratio)
  {
    MergeParts(f, s, Some(c), m);
    CopyFresh(c, m.body.inner.value, End(PartsOf(f), PartsOf(s), c.start), End(PartsOf(f), PartsOf(s), c.end),
              PartsOf(m), PartsOf(m), HalfPick(c.start, f.id, m.body.pairs), HalfPick(c.end, f.id, m.body.pairs),
                  ratio);
  }

  lemma MergeFreshHere(f: Node, s: Node, common: Option<Edge>, m: Node, ratio: real)
    requires MergedNode(f, s, common, m) && f.id != s.id
    requires common.Some? ==> Between(common.value, f.id, s.id)
    ensures NodeFreshHere(m, ratio)
  {
    forall i | 0 <= i < |m.cost| ensures m.cost[i] == BodyCost(m, i, ratio) + ChildrenCost(m.children, i) {
      var p := m.body.pairs[i];
      if common.Some? {
        var c, d := common.value, m.body.inner.value;
        assert Cell(d.cost, i, i) == HalfEdgeCost(c, f.id, p.0, p.1);
      }
    }
  }

  lemma MergeFresh(f: Node, s: Node, common: Option<Edge>, m: Node, ratio: real)
    requires MergeReady(f, s, common, m) && MergedNode(f, s, common, m) && FreshNode(f, ratio) && FreshNode(s, ratio)
    requires common.Some? ==>
               FreshEdge(common.value, End(PartsOf(f), PartsOf(s), common.value.start),
                         End(PartsOf(f), PartsOf(s), common.value.end), ratio)
    ensures FreshNode(m, ratio)
  {
    MergeParts(f, s, common, m);
    MergeFreshHere(f, s, common, m, ratio);
    if common.Some? { MergeInnerFresh(f, s, common.value, m, ratio); }
  }

  ghost function MaybeEdgeBase(common: Option<Edge>, x: Assign, ratio: real): real {
    if common.Some? then EdgeBase(common.value, x, ratio) else 0.0
  }

  lemma MergeBase(f: Node, s: Node, common: Option<Edge>, m: Node, x: Assign, ratio: real)
    requires Joined(f, s, common, m) && f.id != s.id
    requires common.Some? ==> Between(common.value, f.id, s.id)
    requires PairFits(f, s, m, x)
    ensures NodeBase(m, x, ratio) == NodeBase(f, x, ratio) + NodeBase(s, x, ratio) + MaybeEdgeBase(common, x, ratio)
  {
    assert NodeBase(m, x, ratio) == BodyBase(m, x, ratio) + ChildrenBase(m.children, x, ratio);
    if common.Some? {
      var c := common.value;
      CopyBase(c, m.body.inner.value, c.start, c.end, m.id, m.id,
               HalfPick(c.start, f.id, m.body.pairs), HalfPick(c.end, f.id, m.body.pairs), x, ratio);
    }
  }

  /** x gives the two halves a kept pair, namely the one m stands for. */
  ghost predicate PairFits(f: Node, s: Node, m: Node, x: Assign)
    requires m.body.Merged?
  {
    At(x, m.id) < |m.body.pairs| && m.body.pairs[At(x, m.id)] == (At(x, f.id), At(x, s.id))
  }

  lemma MergeLegalDown(f: Node, s: Node, common: Option<Edge>, m: Node, x: Assign)
    requires Joined(f, s, common, m) && LegalNode(m, x)
    ensures PairFits(f, s, m, x)
    ensures LegalNode(f, x) && LegalNode(s, x) && (common.Some? ==> LegalEdge(common.value, x))
  {
    assert PartsOf(m) == Pair(m.id, PartsOf(f), PartsOf(s), m.body.pairs);
    assert Obeys(PartsOf(m), x);
    if common.Some? {
      var c := common.value;
      CopyLegal(c, m.body.inner.value, m.id, m.id,
                HalfPick(c.start, f.id, m.body.pairs), HalfPick(c.end, f.id, m.body.pairs), x);
    }
  }

  lemma MergeLegalUp(f: Node, s: Node, common: Option<Edge>, m: Node, x: Assign)
    requires Joined(f, s, common, m) && PairFits(f, s, m, x)
    requires LegalNode(f, x) && LegalNode(s, x) && (common.Some? ==> LegalEdge(common.value, x))
    ensures LegalNode(m, x)
  {
    if common.Some? {
      var c := common.value;
      CopyLegal(c, m.body.inner.value, m.id, m.id,
                HalfPick(c.start, f.id, m.body.pairs), HalfPick(c.end, f.id, m.body.pairs), x);
    }
    LegalObeys(f, x);
    LegalObeys(s, x);
    assert Obeys(Pair(m.id, PartsOf(f), PartsOf(s), m.body.pairs), x);
  }

  lemma MergeIds(f: Node, s: Node, common: Option<Edge>, m: Node)
    requires Joined(f, s, common, m)
    ensures NodeIds(m) == {m.id} + NodeIds(f) + NodeIds(s) + (if common.Some? then EdgeIds(common.value) else {})
  {
    assert ChildrenIds(m.children) == {};
    if common.Some? {
      var c := common.value;
      CopyIds(c, m.body.inner.value, m.id, m.id,
              HalfPick(c.start, f.id, m.body.pairs), HalfPick(c.end, f.id, m.body.pairs));
    }
  }

  lemma MergeForest(f: Node, s: Node, common: Option<Edge>, m: Node)
    requires Joined(f, s, common, m) && ForestNode(f) && ForestNode(s) && NodeIds(f) !! NodeIds(s)
    requires m.id !in NodeIds(f) && m.id !in NodeIds(s)
    requires common.Some? ==>
               && ForestEdge(common.value) && EdgeIds(common.value) !! NodeIds(f) && EdgeIds(common.value) !! NodeIds(s)
               && m.id !in EdgeIds(common.value)
    ensures ForestNode(m)
  {
    assert ChildrenIds(m.children) == {};
    if common.Some? {
      var c := common.value;
      CopyIds(c, m.body.inner.value, m.id, m.id,
              HalfPick(c.start, f.id, m.body.pairs), HalfPick(c.end, f.id, m.body.pairs));
    }
  }
}
