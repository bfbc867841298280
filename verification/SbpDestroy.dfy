/** The destructors: deleting the graph deletes every object that was ever made exactly once,
    however deep it has been swallowed. */
module SbpDestroy {
  import opened Wrappers
  import opened Sums
  import opened SbpForest
  import opened SbpOwnership
  import opened SbpSteps
  import opened SbpRun
  import opened SbpLists
  import opened SbpOps
  import opened SbpDriver

  // ~SbpNode and ~SbpEdge: the ids of what they delete, in the order they finish

  function DeletedNode(n: Node): seq<Id>
    decreases n, 1
  {
    DeletedChildren(n.children) + DeletedHalves(n) + [n.id]
  }

  function DeletedHalves(n: Node): seq<Id>
    decreases n, 0
  {
    match n.body
    case Origin(_, _) => []
    case Merged(f, s, _, inner) =>
      (if inner.Some? then DeletedEdge(inner.value) else []) + DeletedNode(f) + DeletedNode(s)
  }

  function DeletedChildren(cs: seq<Child>): seq<Id>
    decreases cs
  {
    if cs == [] then [] else
      var c := cs[|cs| - 1];
      DeletedChildren(cs[..|cs| - 1]) + (DeletedEdge(c.edge) + DeletedNode(c.node))
  }

  function DeletedEdge(e: Edge): seq<Id>
    decreases e
  {
    (match e.body
     case Bare(_, _) => []
     case Parallel(list) => DeletedList(list)
     case Through(mid, a, b, _) => DeletedNode(mid) + (DeletedEdge(a) + DeletedEdge(b))) + [e.id]
  }

  function DeletedList(es: seq<Edge>): seq<Id>
    decreases es
  {
    if es == [] then [] else DeletedList(es[..|es| - 1]) + DeletedEdge(es[|es| - 1])
  }

  /** q holds each of ids exactly once. */
  ghost predicate Once(q: seq<Id>, ids: set<Id>) { Distinct(q) && Elems(q) == ids }

  lemma OnceBoth(p: seq<Id>, a: set<Id>, q: seq<Id>, b: set<Id>)
    requires Once(p, a) && Once(q, b) && a !! b
    ensures Once(p + q, a + b)
  {
    forall i, j | 0 <= i < |p| && 0 <= j < |q| ensures p[i] != q[j] { assert p[i] in a && q[j] in b; }
  }

  lemma OnceOne(i: Id)
    ensures Once([i], {i})
  {
  }

  lemma {:induction false} NodeOnce(n: Node)
    requires ForestNode(n)
    ensures Once(DeletedNode(n), NodeIds(n))
    decreases n, 2
  {
    hide Once;
    ChildrenOnce(n, |n.children|);
    assert n.children[..|n.children|] == n.children;
    HalvesOnce(n);
    OnceOne(n.id);
    OnceBoth(DeletedChildren(n.children), ChildrenIds(n.children), DeletedHalves(n), HalfIds(n));
    OnceBoth(DeletedChildren(n.children) + DeletedHalves(n), ChildrenIds(n.children) + HalfIds(n), [n.id], {n.id});
    assert NodeIds(n) == ChildrenIds(n.children) + HalfIds(n) + {n.id};
  }

  lemma {:induction false} HalvesOnce(n: Node)
    requires ForestNode(n)
    ensures Once(DeletedHalves(n), HalfIds(n))
    decreases n, 1
  {
    hide Once;
    NoneOnce();
    match n.body
    case Origin(_, _) =>
    case Merged(f, s, _, inner) =>
      var q := if inner.Some? then DeletedEdge(inner.value) else [];
      var ids := if inner.Some? then EdgeIds(inner.value) else {};
      if inner.Some? { EdgeOnce(inner.value); }
      NodeOnce(f);
      NodeOnce(s);
      OnceBoth(q, ids, DeletedNode(f), NodeIds(f));
      OnceBoth(q + DeletedNode(f), ids + NodeIds(f), DeletedNode(s), NodeIds(s));
      assert HalfIds(n) == ids + NodeIds(f) + NodeIds(s);
  }

  lemma NoneOnce()
    ensures Once([], {})
  {
  }

  lemma {:induction false} ChildrenOnce(n: Node, k: nat)
    requires ForestNode(n) && k <= |n.children|
    ensures Once(DeletedChildren(n.children[..k]), ChildrenIds(n.children[..k]))
    decreases n, 1, k
  {
    hide Once, ChildIds, NodeIds, EdgeIds;
    NoneOnce();
    if k > 0 {
      var cs, c := n.children, n.children[k - 1];
      ChildrenOnce(n, k - 1);
      assert cs[..k][..k - 1] == cs[..k - 1] && c in cs;
      ChildForest(n, c);
      NodeOnce(c.node);
      EdgeOnce(c.edge);
      OnceBoth(DeletedEdge(c.edge), EdgeIds(c.edge), DeletedNode(c.node), NodeIds(c.node));
      ChildIdsOf(c);
      ChildrenApart(n, k);
      OnceBoth(DeletedChildren(cs[..k - 1]), ChildrenIds(cs[..k - 1]), DeletedEdge(c.edge) + DeletedNode(c.node),
          ChildIds(c));
    }
  }

  lemma ChildrenApart(n: Node, k: nat)
    requires ForestNode(n) && 0 < k <= |n.children|
    ensures ChildrenIds(n.children[..k - 1]) !! ChildIds(n.children[k - 1])
  {
    hide ChildrenIds, ChildIds;
    var cs := n.children;
    var before, last := ChildrenIds(cs[..k - 1]), ChildIds(cs[k - 1]);
    forall i | i in before ensures i !in last {
      ChildrenIdsMember(cs[..k - 1], i);
      var d :| d in cs[..k - 1] && i in ChildIds(d);
      var j :| 0 <= j < k - 1 && cs[..k - 1][j] == d;
      assert ChildIds(cs[j]) !! ChildIds(cs[k - 1]);
    }
  }

  lemma {:induction false} EdgeOnce(e: Edge)
    requires ForestEdge(e)
    ensures Once(DeletedEdge(e), EdgeIds(e))
    decreases e, 2
  {
    hide Once;
    OnceOne(e.id);
    NoneOnce();
    match e.body
    case Bare(_, _) =>
      assert DeletedEdge(e) == [e.id] && EdgeIds(e) == {e.id};
    case Parallel(list) =>
      ListOnce(e, list, |list|);
      assert list[..|list|] == list;
      OnceBoth(DeletedList(list), ListIds(list), [e.id], {e.id});
      assert EdgeIds(e) == ListIds(list) + {e.id};
    case Through(mid, a, b, _) =>
      NodeOnce(mid);
      EdgeOnce(a);
      EdgeOnce(b);
      OnceBoth(DeletedEdge(a), EdgeIds(a), DeletedEdge(b), EdgeIds(b));
      OnceBoth(DeletedNode(mid), NodeIds(mid), DeletedEdge(a) + DeletedEdge(b), EdgeIds(a) + EdgeIds(b));
      OnceBoth(DeletedNode(mid) + (DeletedEdge(a) + DeletedEdge(b)), NodeIds(mid) + (EdgeIds(a) + EdgeIds(b)), [e.id],
          {e.id});
      assert EdgeIds(e) == NodeIds(mid) + (EdgeIds(a) + EdgeIds(b)) + {e.id};
  }

  lemma {:induction false} ListOnce(e: Edge, list: seq<Edge>, k: nat)
    requires ForestEdge(e) && e.body.Parallel? && list == e.body.list && k <= |list|
    ensures Once(DeletedList(list[..k]), ListIds(list[..k]))
    decreases e, 1, k
  {
    hide Once;
    NoneOnce();
    if k > 0 {
      var a := list[k - 1];
      ListOnce(e, list, k - 1);
      assert list[..k][..k - 1] == list[..k - 1] && a in list;
      EdgeOnce(a);
      forall i | i in ListIds(list[..k - 1]) ensures i !in EdgeIds(a) {
        ListIdsMember(list[..k - 1], i);
        var d :| d in list[..k - 1] && i in EdgeIds(d);
        var j :| 0 <= j < k - 1 && list[..k - 1][j] == d;
        assert EdgeIds(list[j]) !! EdgeIds(list[k - 1]);
      }
      OnceBoth(DeletedList(list[..k - 1]), ListIds(list[..k - 1]), DeletedEdge(a), EdgeIds(a));
    }
  }

  lemma ChildIdsOf(c: Child)
    ensures ChildIds(c) == EdgeIds(c.edge) + NodeIds(c.node)
  {
  }

  lemma ChildForest(n: Node, c: Child)
    requires ForestNode(n) && c in n.children
    ensures ForestNode(c.node) && ForestEdge(c.edge) && EdgeIds(c.edge) !! NodeIds(c.node)
  {
    hide NodeIds, EdgeIds;
  }

  // ----- ~SbpGraph -----

  /** Everything below the nodes ns and the edges ks. */
  ghost function Below(g: Graph, ns: set<Id>, ks: set<Id>): set<Id> {
    (set n, i | n in ns && n in g.node && i in NodeIds(g.node[n]) :: i)
        + (set k, i | k in ks && k in g.edge && i in EdgeIds(g.edge[k]) :: i)
  }

  lemma DeleteEdge(g: Graph, ns: set<Id>, ks: set<Id>, k: Id, q: seq<Id>)
    requires Owned(g) && k in g.edge && k !in ks && Once(q, Below(g, ns, ks))
    ensures Once(q + DeletedEdge(g.edge[k]), Below(g, ns, ks + {k}))
  {
    hide Once, NodeIds, EdgeIds;
    EdgeOnce(g.edge[k]);
    assert Below(g, ns, ks + {k}) == Below(g, ns, ks) + EdgeIds(g.edge[k]);
    assert Below(g, ns, ks) !! EdgeIds(g.edge[k]);
    OnceBoth(q, Below(g, ns, ks), DeletedEdge(g.edge[k]), EdgeIds(g.edge[k]));
  }

  lemma DeleteNode(g: Graph, ns: set<Id>, ks: set<Id>, n: Id, q: seq<Id>)
    requires Owned(g) && n in g.node && n !in ns && Once(q, Below(g, ns, ks))
    ensures Once(q + DeletedNode(g.node[n]), Below(g, ns + {n}, ks))
  {
    hide Once, NodeIds, EdgeIds;
    NodeOnce(g.node[n]);
    assert Below(g, ns + {n}, ks) == Below(g, ns, ks) + NodeIds(g.node[n]);
    assert Below(g, ns, ks) !! NodeIds(g.node[n]);
    OnceBoth(q, Below(g, ns, ks), DeletedNode(g.node[n]), NodeIds(g.node[n]));
  }

  /** The outgoing edges of one node. */
  method DeleteOut(g: Graph, outs: seq<Id>, ghost ns: set<Id>, ghost ks: set<Id>, q: seq<Id>) returns (q': seq<Id>)
    requires Owned(g) && Distinct(outs) && (forall k :: k in outs ==> k in g.edge && k !in ks)
             && Once(q, Below(g, ns, ks))
    ensures Once(q', Below(g, ns, ks + Elems(outs)))
  {
    hide Once, Owned, Below;
    q' := q;
    assert ks + Elems(outs[..0]) == ks;
    for j := 0 to |outs|
      invariant Once(q', Below(g, ns, ks + Elems(outs[..j])))
    {
      assert outs[j] in outs && outs[..j + 1] == outs[..j] + [outs[j]] && outs[j] !in outs[..j];
      DeleteEdge(g, ns, ks + Elems(outs[..j]), outs[j], q');
      assert ks + Elems(outs[..j + 1]) == ks + Elems(outs[..j]) + {outs[j]};
      q' := q' + DeletedEdge(g.edge[outs[j]]);
    }
    assert outs[..|outs|] == outs;
  }

  /** SbpGraph::~SbpGraph: every object of the graph, once. */
  method Destroy(v: View, ghost ratio: real) returns (deleted: seq<Id>)
    requires Ok(ratio)(v)
    ensures Distinct(deleted) && forall i :: i in deleted <==> !Unused(v.g, i)
  {
    hide Ok, Once, Owned, Below, GoodAt, Unused;
    deleted := [];
    GraphOwned(v, ratio);
    NoneBelow(v.g);
    for i := 0 to |v.nodeList|
      invariant Once(deleted, Below(v.g, Elems(v.nodeList[..i]), Leaving(v.g, Elems(v.nodeList[..i]))))
    {
      var n := v.nodeList[i];
      NextNode(v, i, ratio);
      ghost var done := Elems(v.nodeList[..i]);
      deleted := DeleteOut(v.g, v.out[n], done, Leaving(v.g, done), deleted);
      DeleteNode(v.g, done, Leaving(v.g, done) + Elems(v.out[n]), n, deleted);
      deleted := deleted + DeletedNode(v.g.node[n]);
    }
    assert v.nodeList[..|v.nodeList|] == v.nodeList;
    AllBelow(v, ratio, deleted);
  }

  lemma GraphOwned(v: View, ratio: real)
    requires Ok(ratio)(v)
    ensures Owned(v.g)
  {
  }

  lemma NoneBelow(g: Graph)
    ensures Once([], Below(g, Elems([]), Leaving(g, Elems([]))))
  {
    assert Below(g, Elems([]), Leaving(g, Elems([]))) == {};
  }

  lemma NextNode(v: View, i: nat, ratio: real)
    requires i < |v.nodeList| && Ok(ratio)(v)
    ensures var done, n := Elems(v.nodeList[..i]), v.nodeList[i];
            && n in v.g.node && n in v.out && n !in done && Elems(v.nodeList[..i + 1]) == done + {n}
               && Distinct(v.out[n])
            && (forall k :: k in v.out[n] ==> k in v.g.edge && k !in Leaving(v.g, done))
            && Leaving(v.g, done + {n}) == Leaving(v.g, done) + Elems(v.out[n])
  {
    hide Ok, GoodAt;
    SlotOf(v, i, ratio);
    OkParts(v, ratio);
    var done, n := Elems(v.nodeList[..i]), v.nodeList[i];
    assert v.nodeList[..i + 1] == v.nodeList[..i] + [n];
    assert OutList(v.g.edge, n, v.out[n]);
  }

  lemma AllBelow(v: View, ratio: real, q: seq<Id>)
    requires Ok(ratio)(v) && Once(q, Below(v.g, Elems(v.nodeList), Leaving(v.g, Elems(v.nodeList))))
    ensures Distinct(q) && forall i :: i in q <==> !Unused(v.g, i)
  {
    hide Ok, GoodAt, NodeIds, EdgeIds;
    OkParts(v, ratio);
    GoodWired(v.g, ratio);
    forall n | n in v.g.node ensures n in Elems(v.nodeList) { assert v.nodeList[v.listId[n]] == n; }
    forall k | k in v.g.edge ensures k in Leaving(v.g, Elems(v.nodeList)) { assert v.g.edge[k].start in v.g.node; }
    forall i ensures i in Elems(q) <==> !Unused(v.g, i) {}
  }
}
