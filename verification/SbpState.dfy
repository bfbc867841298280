/** What every step keeps beside the costs: unused ids stay unused, every node keeps holding
    one of its own signatures, and the edge lists of the live nodes stay complete. */
module SbpState {
  import opened Wrappers
  import opened SbpForest
  import opened SbpOwnership
  import opened SbpSteps
  import opened SbpObjects
  import opened SbpReduction
  import opened SbpSettled
  import opened SbpHandDown

  // ----- ids -----

  /** No id from next on is in use. */
  ghost predicate Beyond(g: Graph, next: Id) { forall i :: i >= next ==> Unused(g, i) }

  lemma FoldAdds(g: Graph, n: Id, a: Id, b: Id, e: Edge, h: Graph, next: Id)
    requires FoldMoves(g, n, a, b, e, h) && Beyond(g, next) && e.id == next
    ensures Beyond(h, next + 1)
  {
    ThroughIds(e);
    hide NodeIds, EdgeIds;
    forall i | i >= next + 1 ensures Unused(h, i) {
      assert Unused(g, i);
      forall k | k in h.edge ensures i !in EdgeIds(h.edge[k]) { assert k == e.id || h.edge[k] == g.edge[k]; }
    }
  }

  lemma ThroughIds(e: Edge)
    requires e.body.Through?
    ensures EdgeIds(e) == {e.id} + (NodeIds(e.body.mid) + EdgeIds(e.body.first) + EdgeIds(e.body.second))
  {
  }

  lemma CollapseAdds(g: Graph, ks: seq<Id>, e: Edge, h: Graph, next: Id)
    requires CollapseMoves(g, ks, e, h) && Beyond(g, next) && e.id == next
    ensures Beyond(h, next + 1)
  {
    forall i | i >= next + 1 ensures Unused(h, i) {
      assert Unused(g, i);
      ListIdsMember(e.body.list, i);
      forall a | a in e.body.list ensures i !in EdgeIds(a) {
        var p :| 0 <= p < |ks| && e.body.list[p] == a;
        assert ks[p] in ks;
      }
      forall k | k in h.edge ensures i !in EdgeIds(h.edge[k]) { assert k == e.id || h.edge[k] == g.edge[k]; }
    }
  }

  lemma AbsorbAdds(g: Graph, c: Id, k: Id, f: Id, father: Node, h: Graph, next: Id)
    requires AbsorbMoves(g, c, k, f, father, h) && Adopted(g.node[f], g.node[c], g.edge[k], father) && Beyond(g, next)
    ensures Beyond(h, next)
  {
    AdoptIds(g.node[f], g.node[c], g.edge[k], father);
    forall i | i >= next ensures Unused(h, i) {
      assert Unused(g, i);
      forall j | j in h.node ensures i !in NodeIds(h.node[j]) { assert j == f || h.node[j] == g.node[j]; }
    }
  }

  lemma MergeAdds(g: Graph, f: Id, s: Id, common: Option<Id>, m: Node, h: Graph, next: Id)
    requires MergeMoves(g, f, s, common, m, h) && Joined(g.node[f], g.node[s], CommonEdge(g, common), m)
    requires forall k :: k in h.edge ==> Redirected(g.edge[k], h.edge[k], f, s, m, Width(g, g.edge[k], f, s))
    requires Beyond(g, next) && m.id == next
    ensures Beyond(h, next + 1)
  {
    MergeIds(g.node[f], g.node[s], CommonEdge(g, common), m);
    forall i | i >= next + 1 ensures Unused(h, i) {
      assert Unused(g, i);
      forall j | j in h.node ensures i !in NodeIds(h.node[j]) { assert j == m.id || h.node[j] == g.node[j]; }
      forall k | k in h.edge ensures i !in EdgeIds(h.edge[k]) {
        RedirectedIds(g.edge[k], h.edge[k], f, s, m, Width(g, g.edge[k], f, s));
      }
    }
  }

  // ----- signatures in range -----

  lemma FoldRanged(g: Graph, n: Id, a: Id, b: Id, e: Edge, h: Graph, x: Assign)
    requires FoldMoves(g, n, a, b, e, h) && RangedGraph(g, x)
    ensures RangedGraph(h, x)
  {
    assert RangedNodes(x)(g.node[n]) && RangedEdges(x)(g.edge[a]) && RangedEdges(x)(g.edge[b]);
    assert RangedEdge(e, x);
    forall k | k in h.edge ensures RangedEdges(x)(h.edge[k]) { assert k == e.id || h.edge[k] == g.edge[k]; }
  }

  lemma CollapseRanged(g: Graph, ks: seq<Id>, e: Edge, h: Graph, x: Assign)
    requires CollapseMoves(g, ks, e, h) && RangedGraph(g, x)
    ensures RangedGraph(h, x)
  {
    forall a | a in e.body.list ensures RangedEdge(a, x) {
      var p :| 0 <= p < |ks| && e.body.list[p] == a;
      assert ks[p] in ks && RangedEdges(x)(g.edge[ks[p]]);
    }
    assert RangedEdge(e, x);
    forall k | k in h.edge ensures RangedEdges(x)(h.edge[k]) { assert k == e.id || h.edge[k] == g.edge[k]; }
  }

  lemma AbsorbRanged(g: Graph, c: Id, k: Id, f: Id, father: Node, h: Graph, x: Assign)
    requires AbsorbMoves(g, c, k, f, father, h) && Adopted(g.node[f], g.node[c], g.edge[k], father) && RangedGraph(g, x)
    ensures RangedGraph(h, x)
  {
    assert RangedNodes(x)(g.node[f]) && RangedNodes(x)(g.node[c]) && RangedEdges(x)(g.edge[k]);
    assert RangedNode(father, x);
    forall i | i in h.node ensures RangedNodes(x)(h.node[i]) { assert i == f || h.node[i] == g.node[i]; }
  }

  lemma CopyRanged(e: Edge, d: Edge, s': Id, t': Id, rows: seq<Sig>, cols: seq<Sig>, x: Assign)
    requires Copied(e, d, s', t', rows, cols) && RangedEdge(e, x)
    ensures RangedEdge(d, x)
  {
  }

  lemma RedirectRanged(e: Edge, d: Edge, f: Id, s: Id, m: Node, width: nat, x: Assign)
    requires m.body.Merged? && Redirected(e, d, f, s, m, width) && RangedEdge(e, x)
    ensures RangedEdge(d, x)
  {
    if e.start == f || e.start == s {
      CopyRanged(e, d, m.id, e.end, HalfPick(e.start, f, m.body.pairs), Identity(width), x);
    } else if e.end == f || e.end == s {
      CopyRanged(e, d, e.start, m.id, Identity(width), HalfPick(e.end, f, m.body.pairs), x);
    }
  }

  lemma JoinedRanged(f: Node, s: Node, common: Option<Edge>, m: Node, x: Assign)
    requires Joined(f, s, common, m) && RangedNode(f, x) && RangedNode(s, x) && At(x, m.id) < |m.cost|
    requires common.Some? ==> RangedEdge(common.value, x)
    ensures RangedNode(m, x)
  {
    if common.Some? {
      var c := common.value;
      CopyRanged(c, m.body.inner.value, m.id, m.id,
                 HalfPick(c.start, f.id, m.body.pairs), HalfPick(c.end, f.id, m.body.pairs), x);
    }
  }

  /** The merged node may start with any of its signatures. */
  lemma MergeRanged(g: Graph, f: Id, s: Id, common: Option<Id>, m: Node, h: Graph, x: Assign, p: Sig)
    requires MergeMoves(g, f, s, common, m, h) && Joined(g.node[f], g.node[s], CommonEdge(g, common), m)
    requires forall k :: k in h.edge ==> Redirected(g.edge[k], h.edge[k], f, s, m, Width(g, g.edge[k], f, s))
    requires RangedGraph(g, x) && Unused(g, m.id) && p < |m.cost|
    ensures RangedGraph(h, x[m.id := p])
  {
    var y := x[m.id := p];
    forall i | i in g.node ensures RangedNode(g.node[i], y) {
      assert RangedNodes(x)(g.node[i]);
      RangedNodeFrame(g.node[i], x, y);
    }
    forall k | k in g.edge ensures RangedEdge(g.edge[k], y) {
      assert RangedEdges(x)(g.edge[k]);
      RangedEdgeFrame(g.edge[k], x, y);
    }
    JoinedRanged(g.node[f], g.node[s], CommonEdge(g, common), m, y);
    forall i | i in h.node ensures RangedNodes(y)(h.node[i]) { assert i == m.id || h.node[i] == g.node[i]; }
    forall k | k in h.edge ensures RangedEdges(y)(h.edge[k]) {
      RedirectRanged(g.edge[k], h.edge[k], f, s, m, Width(g, g.edge[k], f, s), y);
    }
  }

}
