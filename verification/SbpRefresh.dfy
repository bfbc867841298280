/** What recomputing the tables leaves unchanged: owners, original costs and legal
    assignments; and that tables are determined by the memory ratio. */
module SbpRefresh {
  import opened Wrappers
  import opened Sums
  import opened SbpForest
  import opened SbpOwnership
  import opened SbpSteps
  import opened SbpSettled
  import opened SbpHandDown
  import opened SbpRecompute

  // ----- owners -----

  ghost predicate LikeChildren(cs: seq<Child>, ds: seq<Child>) {
    |ds| == |cs| && forall i :: 0 <= i < |cs| ==> LikeNode(cs[i].node, ds[i].node) && LikeEdge(cs[i].edge, ds[i].edge)
  }

  ghost predicate LikeList(es: seq<Edge>, ds: seq<Edge>) {
    |ds| == |es| && forall i :: 0 <= i < |es| ==> LikeEdge(es[i], ds[i])
  }

  lemma {:induction false} LikeNodeIds(n: Node, m: Node)
    requires LikeNode(n, m)
    ensures NodeIds(m) == NodeIds(n) && HalfIds(m) == HalfIds(n) && ChildrenIds(m.children) == ChildrenIds(n.children)
    decreases n, 1
  {
    match n.body {
      case Origin(_, _) =>
      case Merged(f, s, _, inner) =>
        LikeNodeIds(f, m.body.first);
        LikeNodeIds(s, m.body.second);
        if inner.Some? { LikeEdgeIds(inner.value, m.body.inner.value); }
    }
    LikeChildrenIds(n.children, m.children);
  }

  lemma {:induction false} LikeChildrenIds(cs: seq<Child>, ds: seq<Child>)
    requires LikeChildren(cs, ds)
    ensures ChildrenIds(ds) == ChildrenIds(cs)
    decreases cs, |cs|
  {
    if cs != [] {
      var k := |cs| - 1;
      LikeNodeIds(cs[k].node, ds[k].node);
      LikeEdgeIds(cs[k].edge, ds[k].edge);
      LikeChildrenIds(cs[..k], ds[..k]);
    }
  }

  lemma {:induction false} LikeEdgeIds(e: Edge, d: Edge)
    requires LikeEdge(e, d)
    ensures EdgeIds(d) == EdgeIds(e)
    decreases e, 1
  {
    match e.body
    case Bare(_, _) =>
    case Parallel(list) => LikeListIds(list, d.body.list);
    case Through(mid, a, b, _) =>
      LikeNodeIds(mid, d.body.mid);
      LikeEdgeIds(a, d.body.first);
      LikeEdgeIds(b, d.body.second);
  }

  lemma {:induction false} LikeListIds(es: seq<Edge>, ds: seq<Edge>)
    requires LikeList(es, ds)
    ensures ListIds(ds) == ListIds(es)
    decreases es, |es|
  {
    if es != [] {
      var k := |es| - 1;
      LikeEdgeIds(es[k], ds[k]);
      LikeListIds(es[..k], ds[..k]);
    }
  }

  lemma {:induction false} LikeForestNode(n: Node, m: Node)
    requires LikeNode(n, m) && ForestNode(n)
    ensures ForestNode(m)
    decreases n, 1
  {
    hide LikeNode, LikeEdge, NodeIds, EdgeIds, HalfIds, ChildrenIds, ChildIds, ForestEdge;
    LikeNodeIds(n, m);
    LikeForestHalves(n, m);
    LikeForestChildren(n, m);
    LikeRoot(n, m);
    forall c | c in m.children
      ensures ForestNode(c.node) && ForestEdge(c.edge) && NodeIds(c.node) !! EdgeIds(c.edge)
    {
      var i :| 0 <= i < |m.children| && m.children[i] == c;
    }
  }

  lemma LikeRoot(n: Node, m: Node)
    requires LikeNode(n, m)
    ensures m.id == n.id
  {
    hide LikeEdge;
  }

  lemma {:induction false} LikeForestChildren(n: Node, m: Node)
    requires LikeNode(n, m) && ForestNode(n)
    ensures forall i :: 0 <= i < |m.children| ==>
              var c := m.children[i]; ForestNode(c.node) && ForestEdge(c.edge) && NodeIds(c.node) !! EdgeIds(c.edge)
    ensures forall i, j :: 0 <= i < j < |m.children| ==> ChildIds(m.children[i]) !! ChildIds(m.children[j])
    decreases n, 0
  {
    forall i | 0 <= i < |n.children|
      ensures ForestNode(m.children[i].node) && ForestEdge(m.children[i].edge)
      ensures NodeIds(m.children[i].node) == NodeIds(n.children[i].node)
              && EdgeIds(m.children[i].edge) == EdgeIds(n.children[i].edge)
      ensures NodeIds(n.children[i].node) !! EdgeIds(n.children[i].edge)
    {
      assert n.children[i] in n.children;
      LikeForestNode(n.children[i].node, m.children[i].node);
      LikeForestEdge(n.children[i].edge, m.children[i].edge);
      LikeNodeIds(n.children[i].node, m.children[i].node);
      LikeEdgeIds(n.children[i].edge, m.children[i].edge);
    }
    forall i, j | 0 <= i < j < |m.children| ensures ChildIds(m.children[i]) !! ChildIds(m.children[j]) {
      assert ChildIds(n.children[i]) !! ChildIds(n.children[j]);
    }
  }

  lemma {:induction false} LikeForestHalves(n: Node, m: Node)
    requires LikeNode(n, m) && ForestNode(n)
    ensures m.body.Merged? ==>
              var f, s, inner := m.body.first, m.body.second, m.body.inner;
              && ForestNode(f) && ForestNode(s) && NodeIds(f) !! NodeIds(s)
              && (inner.Some? ==>
                    && ForestEdge(inner.value)
                    && EdgeIds(inner.value) !! NodeIds(f) && EdgeIds(inner.value) !! NodeIds(s))
    decreases n, 0
  {
    if n.body.Merged? {
      LikeForestNode(n.body.first, m.body.first);
      LikeForestNode(n.body.second, m.body.second);
      LikeNodeIds(n.body.first, m.body.first);
      LikeNodeIds(n.body.second, m.body.second);
      if n.body.inner.Some? {
        LikeForestEdge(n.body.inner.value, m.body.inner.value);
        LikeEdgeIds(n.body.inner.value, m.body.inner.value);
      }
    }
  }

  lemma {:induction false} LikeForestEdge(e: Edge, d: Edge)
    requires LikeEdge(e, d) && ForestEdge(e)
    ensures ForestEdge(d)
    decreases e, 1
  {
    match e.body
    case Bare(_, _) =>
    case Parallel(list) =>
      LikeListIds(list, d.body.list);
      forall i | 0 <= i < |list| ensures ForestEdge(d.body.list[i]) && EdgeIds(d.body.list[i]) == EdgeIds(list[i]) {
        assert list[i] in list;
        LikeForestEdge(list[i], d.body.list[i]);
        LikeEdgeIds(list[i], d.body.list[i]);
      }
      forall i, j | 0 <= i < j < |list| ensures EdgeIds(d.body.list[i]) !! EdgeIds(d.body.list[j]) {
        assert EdgeIds(list[i]) !! EdgeIds(list[j]);
      }
    case Through(mid, a, b, _) =>
      LikeForestNode(mid, d.body.mid);
      LikeForestEdge(a, d.body.first);
      LikeForestEdge(b, d.body.second);
      LikeNodeIds(mid, d.body.mid);
      LikeEdgeIds(a, d.body.first);
      LikeEdgeIds(b, d.body.second);
  }

  // ----- original costs -----

  lemma {:induction false} LikeNodeBase(n: Node, m: Node, x: Assign, r: real)
    requires LikeNode(n, m)
    ensures NodeBase(m, x, r) == NodeBase(n, x, r)
    decreases n, 1
  {
    match n.body {
      case Origin(_, _) =>
      case Merged(f, s, _, inner) =>
        LikeNodeBase(f, m.body.first, x, r);
        LikeNodeBase(s, m.body.second, x, r);
        if inner.Some? { LikeEdgeBase(inner.value, m.body.inner.value, x, r); }
    }
    LikeChildrenBase(n.children, m.children, x, r);
  }

  lemma {:induction false} LikeChildrenBase(cs: seq<Child>, ds: seq<Child>, x: Assign, r: real)
    requires LikeChildren(cs, ds)
    ensures ChildrenBase(ds, x, r) == ChildrenBase(cs, x, r)
    decreases cs, |cs|
  {
    if cs != [] {
      var k := |cs| - 1;
      LikeNodeBase(cs[k].node, ds[k].node, x, r);
      LikeEdgeBase(cs[k].edge, ds[k].edge, x, r);
      LikeChildrenBase(cs[..k], ds[..k], x, r);
    }
  }

  lemma {:induction false} LikeEdgeBase(e: Edge, d: Edge, x: Assign, r: real)
    requires LikeEdge(e, d)
    ensures EdgeBase(d, x, r) == EdgeBase(e, x, r)
    decreases e, 1
  {
    match e.body
    case Bare(_, _) =>
    case Parallel(list) => LikeListBase(list, d.body.list, x, r);
    case Through(mid, a, b, _) =>
      LikeNodeBase(mid, d.body.mid, x, r);
      LikeEdgeBase(a, d.body.first, x, r);
      LikeEdgeBase(b, d.body.second, x, r);
  }

  lemma {:induction false} LikeListBase(es: seq<Edge>, ds: seq<Edge>, x: Assign, r: real)
    requires LikeList(es, ds)
    ensures ListBase(ds, x, r) == ListBase(es, x, r)
    decreases es, |es|
  {
    if es != [] {
      var k := |es| - 1;
      LikeEdgeBase(es[k], ds[k], x, r);
      LikeListBase(es[..k], ds[..k], x, r);
    }
  }

  // ----- assignments -----

  lemma {:induction false} LikeLegalNode(n: Node, m: Node, x: Assign)
    requires LikeNode(n, m) && LegalNode(m, x)
    ensures LegalNode(n, x)
    decreases n
  {
    LikeParts(n, m);
    match n.body {
      case Origin(_, _) =>
      case Merged(f, s, _, inner) =>
        LikeLegalNode(f, m.body.first, x);
        LikeLegalNode(s, m.body.second, x);
        if inner.Some? { LikeLegalEdge(inner.value, m.body.inner.value, x); }
    }
    forall c | c in n.children ensures LegalNode(c.node, x) && LegalEdge(c.edge, x) {
      var i :| 0 <= i < |n.children| && n.children[i] == c;
      assert m.children[i] in m.children;
      LikeLegalNode(c.node, m.children[i].node, x);
      LikeLegalEdge(c.edge, m.children[i].edge, x);
    }
  }

  lemma {:induction false} LikeLegalEdge(e: Edge, d: Edge, x: Assign)
    requires LikeEdge(e, d) && LegalEdge(d, x)
    ensures LegalEdge(e, x)
    decreases e
  {
    match e.body
    case Bare(_, _) =>
    case Parallel(list) =>
      forall a | a in list ensures LegalEdge(a, x) {
        var i :| 0 <= i < |list| && list[i] == a;
        assert d.body.list[i] in d.body.list;
        LikeLegalEdge(a, d.body.list[i], x);
      }
    case Through(mid, a, b, _) =>
      LikeLegalNode(mid, d.body.mid, x);
      LikeLegalEdge(a, d.body.first, x);
      LikeLegalEdge(b, d.body.second, x);
  }

  lemma {:induction false} LikeRangedNode(n: Node, m: Node, x: Assign)
    requires LikeNode(n, m) && RangedNode(n, x)
    ensures RangedNode(m, x)
    decreases n
  {
    match n.body {
      case Origin(_, _) =>
      case Merged(f, s, _, inner) =>
        LikeRangedNode(f, m.body.first, x);
        LikeRangedNode(s, m.body.second, x);
        if inner.Some? { LikeRangedEdge(inner.value, m.body.inner.value, x); }
    }
    forall c | c in m.children ensures RangedNode(c.node, x) && RangedEdge(c.edge, x) {
      var i :| 0 <= i < |m.children| && m.children[i] == c;
      assert n.children[i] in n.children;
      LikeRangedNode(n.children[i].node, c.node, x);
      LikeRangedEdge(n.children[i].edge, c.edge, x);
    }
  }

  lemma {:induction false} LikeRangedEdge(e: Edge, d: Edge, x: Assign)
    requires LikeEdge(e, d) && RangedEdge(e, x)
    ensures RangedEdge(d, x)
    decreases e
  {
    match e.body
    case Bare(_, _) =>
    case Parallel(list) =>
      forall a | a in d.body.list ensures RangedEdge(a, x) {
        var i :| 0 <= i < |list| && d.body.list[i] == a;
        assert list[i] in list;
        LikeRangedEdge(list[i], a, x);
      }
    case Through(mid, a, b, _) =>
      LikeRangedNode(mid, d.body.mid, x);
      LikeRangedEdge(a, d.body.first, x);
      LikeRangedEdge(b, d.body.second, x);
  }

  // ----- the live graph -----

  /** The same live objects, and the same objects below them. */
  ghost predicate LikeGraph(g: Graph, h: Graph) {
    && h.node.Keys == g.node.Keys && h.edge.Keys == g.edge.Keys
    && (forall i :: i in g.node ==> LikeNode(g.node[i], h.node[i]))
    && (forall k :: k in g.edge ==> LikeEdge(g.edge[k], h.edge[k]))
  }

  lemma LikeRoots(n: Node, m: Node)
    requires LikeNode(n, m)
    ensures m.id == n.id
  {
  }

  lemma LikeEnds(e: Edge, d: Edge)
    requires LikeEdge(e, d)
    ensures d.id == e.id && d.start == e.start && d.end == e.end
  {
  }

  lemma LikeWired(g: Graph, h: Graph)
    requires LikeGraph(g, h) && Wired(g)
    ensures Wired(h)
  {
    hide LikeNode, LikeEdge;
    forall i | i in h.node ensures h.node[i].id == i { LikeRoots(g.node[i], h.node[i]); }
    forall k | k in h.edge
      ensures h.edge[k].id == k && h.edge[k].start == g.edge[k].start && h.edge[k].end == g.edge[k].end
    {
      LikeEnds(g.edge[k], h.edge[k]);
    }
  }

  lemma LikeOwned(g: Graph, h: Graph)
    requires LikeGraph(g, h) && Owned(g)
    ensures Owned(h)
  {
    hide LikeNode, LikeEdge, ForestNode, ForestEdge;
    forall i | i in h.node ensures NodeIds(h.node[i]) == NodeIds(g.node[i]) && ForestNode(h.node[i]) {
      LikeNodeIds(g.node[i], h.node[i]);
      LikeForestNode(g.node[i], h.node[i]);
    }
    forall k | k in h.edge ensures EdgeIds(h.edge[k]) == EdgeIds(g.edge[k]) && ForestEdge(h.edge[k]) {
      LikeEdgeIds(g.edge[k], h.edge[k]);
      LikeForestEdge(g.edge[k], h.edge[k]);
    }
  }

  lemma LikeGraphBase(g: Graph, h: Graph, x: Assign, r: real)
    requires LikeGraph(g, h)
    ensures GraphBase(h, x, r) == GraphBase(g, x, r)
  {
    hide LikeNode, LikeEdge, NodeBase, EdgeBase;
    var gn, hn := NodeTerm(g, NodeBases(x, r)), NodeTerm(h, NodeBases(x, r));
    forall i | i in g.node.Keys ensures gn(i) == hn(i) { LikeNodeBase(g.node[i], h.node[i], x, r); }
    SumSame(g.node.Keys, gn, hn);
    var ge, he := EdgeTerm(g, EdgeBases(x, r)), EdgeTerm(h, EdgeBases(x, r));
    forall k | k in g.edge.Keys ensures ge(k) == he(k) { LikeEdgeBase(g.edge[k], h.edge[k], x, r); }
    SumSame(g.edge.Keys, ge, he);
  }

  lemma LikeLegal(g: Graph, h: Graph, x: Assign)
    requires LikeGraph(g, h) && Legal(h, x)
    ensures Legal(g, x)
  {
    hide LikeNode, LikeEdge, LegalNode, LegalEdge;
    forall i | i in g.node ensures LegalNodes(x)(g.node[i]) {
      assert LegalNodes(x)(h.node[i]);
      LikeLegalNode(g.node[i], h.node[i], x);
    }
    forall k | k in g.edge ensures LegalEdges(x)(g.edge[k]) {
      assert LegalEdges(x)(h.edge[k]);
      LikeLegalEdge(g.edge[k], h.edge[k], x);
    }
  }

  lemma LikeRanged(g: Graph, h: Graph, x: Assign)
    requires LikeGraph(g, h) && RangedGraph(g, x)
    ensures RangedGraph(h, x)
  {
    hide LikeNode, LikeEdge, RangedNode, RangedEdge;
    forall i | i in h.node ensures RangedNodes(x)(h.node[i]) {
      assert RangedNodes(x)(g.node[i]);
      LikeRangedNode(g.node[i], h.node[i], x);
    }
    forall k | k in h.edge ensures RangedEdges(x)(h.edge[k]) {
      assert RangedEdges(x)(g.edge[k]);
      LikeRangedEdge(g.edge[k], h.edge[k], x);
    }
  }
}
