/** FinalizeSbp: handing the signatures of the live nodes down to everything they have
    swallowed.  An edge may be finalized while the nodes it still names hold stale signatures;
    it is finalized again once they are right, and what counts is the last time. */
module SbpFinalize {
  import opened Wrappers
  import opened SbpForest
  import opened SbpOwnership
  import opened SbpComplete
  import opened SbpSettled

  // ----- how much there is to visit -----

  ghost function NodeWeight(n: Node): nat
    decreases n
  {
    1 + ChildrenWeight(n.children) +
    match n.body
    case Origin(_, _) => 0
    case Merged(f, s, _, inner) =>
      NodeWeight(f) + NodeWeight(s) + (if inner.Some? then EdgeWeight(inner.value) else 0)
  }

  ghost function ChildrenWeight(cs: seq<Child>): nat
    decreases cs
  {
    if cs == [] then 0 else
      ChildrenWeight(cs[..|cs| - 1]) + 1 + NodeWeight(cs[|cs| - 1].node) + EdgeWeight(cs[|cs| - 1].edge)
  }

  ghost function EdgeWeight(e: Edge): nat
    decreases e
  {
    1 +
    match e.body
    case Bare(_, _) => 0
    case Parallel(list) => ListWeight(list)
    case Through(mid, a, b, _) => NodeWeight(mid) + EdgeWeight(a) + EdgeWeight(b)
  }

  ghost function ListWeight(es: seq<Edge>): nat
    decreases es
  {
    if es == [] then 0 else ListWeight(es[..|es| - 1]) + EdgeWeight(es[|es| - 1])
  }

  lemma {:induction false} MemberWeight(es: seq<Edge>, e: Edge)
    requires e in es
    ensures EdgeWeight(e) <= ListWeight(es)
    decreases |es|
  {
    if e != es[|es| - 1] {
      assert e in es[..|es| - 1];
      MemberWeight(es[..|es| - 1], e);
    }
  }

  lemma {:induction false} ChildWeight(cs: seq<Child>, c: Child)
    requires c in cs
    ensures NodeWeight(c.node) + EdgeWeight(c.edge) < ChildrenWeight(cs)
    decreases |cs|
  {
    if c != cs[|cs| - 1] {
      assert c in cs[..|cs| - 1];
      ChildWeight(cs[..|cs| - 1], c);
    }
  }

  // ----- conditions -----

  ghost predicate Outside(x: Assign, y: Assign, ids: set<Id>) { forall i :: i !in ids ==> At(x, i) == At(y, i) }

  /** Edges with the merge trees of the nodes they name; no edge owns any of those nodes. */
  ghost predicate Ready(es: seq<Edge>, at: map<Id, Parts>) {
    && (forall e :: e in es ==>
          e.start in at && e.end in at && ShapeEdge(e, at[e.start], at[e.end]) && ForestEdge(e))
    && (forall i, j :: 0 <= i < j < |es| ==> EdgeIds(es[i]) !! EdgeIds(es[j]))
    && (forall e, c :: e in es && c in at ==> EdgeIds(e) !! Comps(at[c]))
  }

  ghost predicate RangedAll(at: map<Id, Parts>, x: Assign) { forall c :: c in at ==> Ranged(at[c], x) }

  ghost predicate RangedList(es: seq<Edge>, x: Assign) { forall e :: e in es ==> RangedEdge(e, x) }

  ghost predicate SettledList(es: seq<Edge>, x: Assign) { forall e :: e in es ==> SettledEdge(e, x) }

  /** How a merge tree lies around the node n: n is one of its components, or it has nothing to
      do with n; in either case it names none of the children of n. */
  ghost predicate Beside(n: Node, k: Parts) {
    && PartsOk(k)
    && Comps(k) !! ChildrenIds(n.children)
    && (|| Comps(k) !! NodeIds(n)
        || (n.id in Comps(k) && Part(k, n.id) == PartsOf(n) && Comps(k) - Comps(PartsOf(n)) !! NodeIds(n)))
  }

  ghost predicate Around(n: Node, at: map<Id, Parts>) { forall c :: c in at ==> Beside(n, at[c]) }

  lemma BesideRanged(n: Node, k: Parts, x: Assign, y: Assign, ids: set<Id>)
    requires Beside(n, k) && Ranged(k, x) && Outside(x, y, ids) && ids <= NodeIds(n) && Ranged(PartsOf(n), y)
    ensures Ranged(k, y)
  {
    if Comps(k) !! NodeIds(n) { RangedFrame(k, x, y); } else { RangedReplace(k, n.id, x, y); }
  }

  // ----- edges -----

  method FinalizeEdge(e: Edge, ghost s: Parts, ghost t: Parts, x: Assign) returns (y: Assign)
    requires ShapeEdge(e, s, t) && ForestEdge(e) && EdgeIds(e) !! Comps(s) && EdgeIds(e) !! Comps(t)
    requires RangedEdge(e, x) && Ranged(s, x) && Ranged(t, x)
    ensures SettledEdge(e, y) && Outside(x, y, EdgeIds(e))
    decreases EdgeWeight(e), 2
  {
    match e.body
    case Bare(_, _) => y := x;
    case Parallel(list) => y := FinalizeParallel(e, s, t, x);
    case Through(_, _, _, _) => y := FinalizeThrough(e, s, t, x);
  }

  ghost function EndsOf(s: Parts, t: Parts): map<Id, Parts> { map c | c in Comps(s) + Comps(t) :: Pick(s, t, c) }

  lemma ParallelReady(e: Edge, s: Parts, t: Parts, x: Assign)
    requires ShapeEdge(e, s, t) && ForestEdge(e) && EdgeIds(e) !! Comps(s) && EdgeIds(e) !! Comps(t) && e.body.Parallel?
    requires Ranged(s, x) && Ranged(t, x)
    ensures Ready(e.body.list, EndsOf(s, t)) && RangedAll(EndsOf(s, t), x)
  {
    var list, at := e.body.list, EndsOf(s, t);
    forall c | c in at ensures Ranged(at[c], x) && Comps(at[c]) <= Comps(s) + Comps(t) {
      PickInside(s, t, c);
      if c in Comps(s) { RangedPart(s, c, x); } else { RangedPart(t, c, x); }
    }
    forall a, c | a in list && c in at ensures EdgeIds(a) !! Comps(at[c]) {
      forall i | i in EdgeIds(a) ensures i in EdgeIds(e) { ListIdsMember(list, i); }
    }
  }

  method FinalizeParallel(e: Edge, ghost s: Parts, ghost t: Parts, x: Assign) returns (y: Assign)
    requires ShapeEdge(e, s, t) && ForestEdge(e) && EdgeIds(e) !! Comps(s) && EdgeIds(e) !! Comps(t) && e.body.Parallel?
    requires RangedEdge(e, x) && Ranged(s, x) && Ranged(t, x)
    ensures SettledEdge(e, y) && Outside(x, y, EdgeIds(e))
    decreases EdgeWeight(e), 1
  {
    ParallelReady(e, s, t, x);
    y := FinalizeEdges(e.body.list, EndsOf(s, t), x);
  }

  method FinalizeEdges(es: seq<Edge>, ghost at: map<Id, Parts>, x: Assign) returns (y: Assign)
    requires Ready(es, at) && RangedAll(at, x) && RangedList(es, x)
    ensures SettledList(es, y) && Outside(x, y, ListIds(es)) && RangedAll(at, y)
    decreases ListWeight(es), 3
  {
    y := x;
    for i := 0 to |es|
      invariant forall j :: 0 <= j < i ==> SettledEdge(es[j], y)
      invariant Outside(x, y, ListIds(es))
      invariant RangedAll(at, y) && RangedList(es, y)
    {
      var e := es[i];
      assert e in es;
      ghost var z := y;
      MemberWeight(es, e);
      y := FinalizeEdge(e, at[e.start], at[e.end], y);
      EdgesStep(es, at, i, z, y);
      assert Outside(x, y, ListIds(es)) by {
        forall k | k in EdgeIds(e) ensures k in ListIds(es) { ListIdsMember(es, k); }
      }
    }
  }

  lemma EdgesStep(es: seq<Edge>, at: map<Id, Parts>, i: nat, z: Assign, y: Assign)
    requires Ready(es, at) && RangedAll(at, z) && RangedList(es, z) && i < |es|
    requires forall j :: 0 <= j < i ==> SettledEdge(es[j], z)
    requires SettledEdge(es[i], y) && Outside(z, y, EdgeIds(es[i]))
    ensures forall j :: 0 <= j <= i ==> SettledEdge(es[j], y)
    ensures RangedAll(at, y) && RangedList(es, y)
  {
    assert es[i] in es;
    forall c | c in at ensures Ranged(at[c], y) { RangedFrame(at[c], z, y); }
    forall j | 0 <= j < |es| && j != i ensures RangedEdge(es[j], y) && (j < i ==> SettledEdge(es[j], y)) {
      assert es[j] in es;
      assert EdgeIds(es[j]) !! EdgeIds(es[i]);
      RangedEdgeFrame(es[j], z, y);
      if j < i { SettledEdgeFrame(es[j], at[es[j].start], at[es[j].end], z, y); }
    }
    SettledEdgeRanged(es[i], at[es[i].start], at[es[i].end], y);
    forall e | e in es ensures RangedEdge(e, y) {
      var j :| 0 <= j < |es| && es[j] == e;
    }
  }

  // ----- folded edges -----

  /** The two ends of one of the edges inside a folded edge: known, in range, and not owned by it. */
  lemma SideReady(e: Edge, s: Parts, a: Edge, x: Assign)
    requires e.body.Through? && (a == e.body.first || a == e.body.second) && ForestEdge(e) && ShapeNode(e.body.mid)
    requires PartsOk(s) && EdgeIds(e) !! Comps(s) && Ties(a, e.body.mid.id, Comps(s))
    requires Ranged(s, x) && Ranged(PartsOf(e.body.mid), x)
    ensures var m := PartsOf(e.body.mid);
            && Ranged(Pick(s, m, a.start), x) && Ranged(Pick(s, m, a.end), x)
            && EdgeIds(a) !! Comps(Pick(s, m, a.start)) && EdgeIds(a) !! Comps(Pick(s, m, a.end))
  {
    var m := PartsOf(e.body.mid);
    CompsAreOwned(e.body.mid);
    assert m.id == e.body.mid.id && m.id in Comps(m);
    forall c | c == a.start || c == a.end
      ensures Ranged(Pick(s, m, c), x) && Comps(Pick(s, m, c)) <= Comps(s) + Comps(m)
    {
      PickInside(s, m, c);
      if c in Comps(s) { RangedPart(s, c, x); } else { RangedPart(m, c, x); }
    }
  }

  /** mid_node_sbp_sig_ at the signatures that the two ends hold now. */
  function MidChoice(e: Edge, x: Assign): Sig
    requires e.body.Through?
  {
    var i, j := At(x, e.start), At(x, e.end);
    if i < |e.body.sig| && j < |e.body.sig[i]| then e.body.sig[i][j] else 0
  }

  lemma MidChoiceOk(e: Edge, s: Parts, t: Parts, x: Assign)
    requires ShapeEdge(e, s, t) && e.body.Through? && At(x, s.id) < Size(s) && At(x, t.id) < Size(t)
    ensures At(x, e.start) < |e.body.sig| && At(x, e.end) < |e.body.sig[At(x, e.start)]|
    ensures MidChoice(e, x) == e.body.sig[At(x, e.start)][At(x, e.end)] && MidChoice(e, x) < |e.body.mid.cost|
  {
  }

  method FinalizeThrough(e: Edge, ghost s: Parts, ghost t: Parts, x: Assign) returns (y: Assign)
    requires ShapeEdge(e, s, t) && ForestEdge(e) && EdgeIds(e) !! Comps(s) && EdgeIds(e) !! Comps(t) && e.body.Through?
    requires RangedEdge(e, x) && Ranged(s, x) && Ranged(t, x)
    ensures SettledEdge(e, y) && Outside(x, y, EdgeIds(e))
    decreases EdgeWeight(e), 1
  {
    hide ShapeEdge, ForestEdge, EdgeIds, NodeIds, RangedEdge, Ranged, ShapeNode, ForestNode, RangedNode, SettledNode,
        SettledEdge,
         Outside, MidChoice, MidDone, NodeWeight, EdgeWeight;
    MidReady(e, s, t, x);
    var z := x[e.body.mid.id := MidChoice(e, x)];
    var w := FinalizeNode(e.body.mid, [], map[], z);
    MidIsDone(e, x, w);
    y := FinalizeSides(e, s, t, x, w);
  }

  lemma MidReady(e: Edge, s: Parts, t: Parts, x: Assign)
    requires ShapeEdge(e, s, t) && ForestEdge(e) && e.body.Through? && RangedEdge(e, x) && Ranged(s, x) && Ranged(t, x)
    ensures ShapeNode(e.body.mid) && ForestNode(e.body.mid)
            && RangedNode(e.body.mid, x[e.body.mid.id := MidChoice(e, x)])
    ensures MidChoice(e, x) < |e.body.mid.cost| && NodeWeight(e.body.mid) < EdgeWeight(e)
  {
    MidChoiceOk(e, s, t, x);
    RangedRoot(e.body.mid, x, x[e.body.mid.id := MidChoice(e, x)]);
  }

  lemma MidIsDone(e: Edge, x: Assign, w: Assign)
    requires e.body.Through? && MidChoice(e, x) < |e.body.mid.cost| && SettledNode(e.body.mid, w)
    requires Outside(x[e.body.mid.id := MidChoice(e, x)], w, NodeIds(e.body.mid) - {e.body.mid.id} + ListIds([]))
    ensures MidDone(e, x, w)
  {
    hide SettledNode, MidChoice;
    assert e.body.mid.id in NodeIds(e.body.mid);
  }

  /** The two edges of a folded edge, once the mid node and what it owns are settled. */
  method FinalizeSides(e: Edge, ghost s: Parts, ghost t: Parts, ghost x: Assign, z: Assign) returns (y: Assign)
    requires ShapeEdge(e, s, t) && ForestEdge(e) && EdgeIds(e) !! Comps(s) && EdgeIds(e) !! Comps(t) && e.body.Through?
    requires RangedEdge(e, x) && Ranged(s, x) && Ranged(t, x)
    requires MidDone(e, x, z)
    ensures SettledEdge(e, y) && Outside(x, y, EdgeIds(e))
    decreases EdgeWeight(e), 0
  {
    ThroughSides(e, s, t, x, z);
    var a, b := e.body.first, e.body.second;
    ghost var m := PartsOf(e.body.mid);
    var w := FinalizeEdge(a, Pick(s, m, a.start), Pick(s, m, a.end), z);
    ThroughSecond(e, s, t, z, w);
    y := FinalizeEdge(b, Pick(t, m, b.start), Pick(t, m, b.end), w);
    ThroughDone(e, s, t, x, z, w, y);
  }

  lemma RangedRoot(n: Node, x: Assign, z: Assign)
    requires RangedNode(n, x) && ForestNode(n) && Agree(x, z, NodeIds(n) - {n.id}) && At(z, n.id) < |n.cost|
    ensures RangedNode(n, z)
  {
    match n.body {
      case Origin(_, _) =>
      case Merged(f, s, _, inner) =>
        assert NodeIds(f) <= HalfIds(n) && NodeIds(s) <= HalfIds(n);
        RangedNodeFrame(f, x, z);
        RangedNodeFrame(s, x, z);
        if inner.Some? {
          assert EdgeIds(inner.value) <= HalfIds(n);
          RangedEdgeFrame(inner.value, x, z);
        }
    }
    forall c | c in n.children ensures RangedNode(c.node, z) && RangedEdge(c.edge, z) {
      forall i | i in ChildIds(c) ensures i in ChildrenIds(n.children) { ChildrenIdsMember(n.children, i); }
      RangedNodeFrame(c.node, x, z);
      RangedEdgeFrame(c.edge, x, z);
    }
  }

  /** The mid node holds the recorded choice, and what it owns is settled. */
  ghost predicate MidDone(e: Edge, x: Assign, z: Assign)
    requires e.body.Through?
  {
    && SettledNode(e.body.mid, z) && At(z, e.body.mid.id) == MidChoice(e, x) && MidChoice(e, x) < |e.body.mid.cost|
    && Outside(x, z, NodeIds(e.body.mid))
  }

  lemma ThroughSides(e: Edge, s: Parts, t: Parts, x: Assign, z: Assign)
    requires ShapeEdge(e, s, t) && ForestEdge(e) && e.body.Through? && RangedEdge(e, x)
    requires EdgeIds(e) !! Comps(s) && EdgeIds(e) !! Comps(t) && Ranged(s, x) && Ranged(t, x)
    requires MidDone(e, x, z)
    ensures Ranged(s, z) && Ranged(t, z) && Ranged(PartsOf(e.body.mid), z)
    ensures RangedEdge(e.body.first, z) && RangedEdge(e.body.second, z)
    ensures var a, m := e.body.first, PartsOf(e.body.mid);
            && Ranged(Pick(s, m, a.start), z) && Ranged(Pick(s, m, a.end), z)
            && EdgeIds(a) !! Comps(Pick(s, m, a.start)) && EdgeIds(a) !! Comps(Pick(s, m, a.end))
  {
    RangedFrame(s, x, z);
    RangedFrame(t, x, z);
    SettledObeys(e.body.mid, z);
    ObeysRanged(PartsOf(e.body.mid), z);
    RangedEdgeFrame(e.body.first, x, z);
    RangedEdgeFrame(e.body.second, x, z);
    SideReady(e, s, e.body.first, z);
  }

  lemma ThroughSecond(e: Edge, s: Parts, t: Parts, z0: Assign, z: Assign)
    requires ShapeEdge(e, s, t) && ForestEdge(e) && e.body.Through?
    requires EdgeIds(e) !! Comps(s) && EdgeIds(e) !! Comps(t)
    requires Ranged(t, z0) && Ranged(PartsOf(e.body.mid), z0) && RangedEdge(e.body.second, z0)
    requires Outside(z0, z, EdgeIds(e.body.first))
    ensures RangedEdge(e.body.second, z)
    ensures var b, m := e.body.second, PartsOf(e.body.mid);
            && Ranged(Pick(t, m, b.start), z) && Ranged(Pick(t, m, b.end), z)
            && EdgeIds(b) !! Comps(Pick(t, m, b.start)) && EdgeIds(b) !! Comps(Pick(t, m, b.end))
  {
    CompsAreOwned(e.body.mid);
    RangedFrame(t, z0, z);
    RangedFrame(PartsOf(e.body.mid), z0, z);
    RangedEdgeFrame(e.body.second, z0, z);
    SideReady(e, t, e.body.second, z);
  }

  lemma ThroughDone(e: Edge, s: Parts, t: Parts, x: Assign, z0: Assign, z: Assign, y: Assign)
    requires ShapeEdge(e, s, t) && ForestEdge(e) && e.body.Through?
    requires EdgeIds(e) !! Comps(s) && EdgeIds(e) !! Comps(t) && Ranged(s, x) && Ranged(t, x)
    requires MidDone(e, x, z0)
    requires SettledEdge(e.body.first, z) && Outside(z0, z, EdgeIds(e.body.first))
    requires SettledEdge(e.body.second, y) && Outside(z, y, EdgeIds(e.body.second))
    ensures SettledEdge(e, y) && Outside(x, y, EdgeIds(e))
  {
    var mid, a := e.body.mid, e.body.first;
    assert s.id in Comps(s) && t.id in Comps(t) && mid.id in NodeIds(mid);
    MidChoiceOk(e, s, t, x);
    SettledNodeFrame(mid, z0, y);
    SettledSideFrame(e, s, a, z, y);
  }

  // ----- nodes -----

  /** Each child gets the signature recorded for signature i of its father. */
  method AssignChildren(cs: seq<Child>, i: Sig, x: Assign) returns (y: Assign)
    requires forall c :: c in cs ==> i < |c.sig|
    requires forall p, q :: 0 <= p < q < |cs| ==> ChildIds(cs[p]) !! ChildIds(cs[q])
    ensures forall c :: c in cs ==> At(y, c.node.id) == c.sig[i]
    ensures Outside(x, y, ChildRoots(cs))
  {
    y := x;
    for p := 0 to |cs|
      invariant forall q :: 0 <= q < p ==> At(y, cs[q].node.id) == cs[q].sig[i]
      invariant Outside(x, y, ChildRoots(cs))
    {
      var c := cs[p];
      ChildRoot(cs, p);
      forall q | 0 <= q < p ensures cs[q].node.id != c.node.id { ChildRoot(cs, q); }
      assert c in cs;
      y := y[c.node.id := c.sig[i]];
    }
  }

  ghost function ChildRoots(cs: seq<Child>): set<Id> { set c | c in cs :: c.node.id }

  lemma ChildRoot(cs: seq<Child>, p: nat)
    requires p < |cs|
    ensures cs[p].node.id in ChildIds(cs[p]) && cs[p].node.id in ChildrenIds(cs)
  {
    assert cs[p].node.id in NodeIds(cs[p].node);
    ChildrenIdsMember(cs, cs[p].node.id);
  }

  /** What is left to check once the parts of a node are settled one by one. */
  ghost predicate HalvesDone(n: Node, y: Assign) {
    match n.body
    case Origin(_, _) => true
    case Merged(f, s, pairs, inner) =>
      && At(y, n.id) < |pairs|
      && At(y, f.id) == pairs[At(y, n.id)].0 && At(y, s.id) == pairs[At(y, n.id)].1
      && SettledNode(f, y) && SettledNode(s, y) && (inner.Some? ==> SettledEdge(inner.value, y))
  }

  ghost predicate ChildDone(n: Node, c: Child, y: Assign) {
    && At(y, n.id) < |c.sig| && At(y, c.node.id) == c.sig[At(y, n.id)]
    && SettledNode(c.node, y) && SettledEdge(c.edge, y)
  }

  lemma HalvesFrame(n: Node, x: Assign, y: Assign)
    requires ShapeNode(n) && HalvesDone(n, x) && Agree(x, y, {n.id} + HalfIds(n))
    ensures HalvesDone(n, y)
  {
    match n.body
    case Origin(_, _) =>
    case Merged(f, s, _, inner) =>
      assert f.id in NodeIds(f) && s.id in NodeIds(s);
      SettledNodeFrame(f, x, y);
      SettledNodeFrame(s, x, y);
      CompsAreOwned(n);
      if inner.Some? { SettledEdgeFrame(inner.value, PartsOf(n), PartsOf(n), x, y); }
  }

  lemma NodeDone(n: Node, y: Assign)
    requires HalvesDone(n, y) && forall c :: c in n.children ==> ChildDone(n, c, y)
    ensures SettledNode(n, y)
  {
  }

  /** The signatures of the two halves. */
  function AssignHalves(n: Node, x: Assign): Assign
  {
    if n.body.Merged? && At(x, n.id) < |n.body.pairs| then
      x[n.body.first.id := n.body.pairs[At(x, n.id)].0][n.body.second.id := n.body.pairs[At(x, n.id)].1]
    else x
  }

  lemma AssignHalvesFacts(n: Node, x: Assign)
    requires ShapeNode(n) && ForestNode(n) && RangedNode(n, x)
    ensures var y := AssignHalves(n, x);
            && Outside(x, y, HalfIds(n)) && At(y, n.id) == At(x, n.id)
            && (n.body.Merged? ==>
                  && At(y, n.id) < |n.body.pairs|
                  && At(y, n.body.first.id) == n.body.pairs[At(y, n.id)].0
                  && At(y, n.body.second.id) == n.body.pairs[At(y, n.id)].1
                  && RangedNode(n.body.first, y) && RangedNode(n.body.second, y)
                  && (n.body.inner.Some? ==> RangedEdge(n.body.inner.value, y)))
  {
    hide ShapeNode, ForestNode, RangedNode, RangedEdge, NodeIds, EdgeIds, HalfIds;
    if n.body.Merged? {
      HalvesApart(n, x);
      var f, s, y := n.body.first, n.body.second, AssignHalves(n, x);
      var z := x[f.id := n.body.pairs[At(x, n.id)].0];
      RangedRoot(f, x, z);
      RangedNodeFrame(f, z, y);
      RangedNodeFrame(s, x, z);
      RangedRoot(s, z, y);
      if n.body.inner.Some? { RangedEdgeFrame(n.body.inner.value, x, y); }
    }
  }

  lemma HalvesApart(n: Node, x: Assign)
    requires ShapeNode(n) && ForestNode(n) && RangedNode(n, x) && n.body.Merged?
    ensures var f, s := n.body.first, n.body.second;
            && At(x, n.id) < |n.body.pairs| && n.body.pairs[At(x, n.id)].0 < |f.cost|
               && n.body.pairs[At(x, n.id)].1 < |s.cost|
            && ForestNode(f) && ForestNode(s) && RangedNode(f, x) && RangedNode(s, x)
            && f.id in NodeIds(f) && s.id in NodeIds(s) && f.id !in NodeIds(s) && s.id !in NodeIds(f)
            && n.id != f.id && n.id != s.id && f.id in HalfIds(n) && s.id in HalfIds(n)
    ensures n.body.inner.Some? ==> var d := n.body.inner.value;
              RangedEdge(d, x) && n.body.first.id !in EdgeIds(d) && n.body.second.id !in EdgeIds(d)
  {
    hide ShapeEdge, ForestEdge, RangedEdge;
    var f, s := n.body.first, n.body.second;
    assert Size(PartsOf(f)) == |f.cost| && Size(PartsOf(s)) == |s.cost|;
    assert f.id in NodeIds(f) && s.id in NodeIds(s);
  }

  // ----- the two halves -----

  function InnerList(n: Node): seq<Edge> {
    if n.body.Merged? && n.body.inner.Some? then [n.body.inner.value] else []
  }

  /** A half of n, with the edge between the halves, is ready to be finalized. */
  lemma HalfReady(n: Node, half: Node, other: Node, x: Assign)
    requires ShapeNode(n) && ForestNode(n) && n.body.Merged?
    requires (half == n.body.first && other == n.body.second) || (half == n.body.second && other == n.body.first)
    requires At(x, n.id) < |n.cost| && RangedNode(half, x) && RangedNode(other, x)
    requires n.body.inner.Some? ==> RangedEdge(n.body.inner.value, x)
    ensures var at := map[n.id := PartsOf(n)];
            Ready(InnerList(n), at) && RangedAll(at, x) && RangedList(InnerList(n), x) && Around(half, at)
    ensures forall e :: e in InnerList(n) ==> EdgeIds(e) !! NodeIds(half)
  {
    RangedNodeParts(half, x);
    RangedNodeParts(other, x);
    CompsAreOwned(n);
    CompsAreOwned(half);
    CompsAreOwned(other);
    HalfBeside(n, half, other);
  }

  lemma HalfBeside(n: Node, half: Node, other: Node)
    requires ShapeNode(n) && ForestNode(n) && n.body.Merged?
    requires (half == n.body.first && other == n.body.second) || (half == n.body.second && other == n.body.first)
    ensures Beside(half, PartsOf(n))
  {
    CompsAreOwned(half);
    CompsAreOwned(other);
    var k := PartsOf(n);
    assert half.id in Comps(PartsOf(half)) && PartsOf(half).id == half.id;
    assert Part(k, half.id) == PartsOf(half);
    assert NodeIds(half) <= HalfIds(n);
    assert Comps(k) - Comps(PartsOf(half)) <= {n.id} + Comps(PartsOf(other));
    assert ForestNode(half);
  }

  method FinalizeHalves(n: Node, x: Assign) returns (y: Assign)
    requires ShapeNode(n) && ForestNode(n) && n.body.Merged? && At(x, n.id) < |n.cost|
    requires At(x, n.id) < |n.body.pairs|
    requires At(x, n.body.first.id) == n.body.pairs[At(x, n.id)].0
             && At(x, n.body.second.id) == n.body.pairs[At(x, n.id)].1
    requires RangedNode(n.body.first, x) && RangedNode(n.body.second, x)
    requires n.body.inner.Some? ==> RangedEdge(n.body.inner.value, x)
    ensures HalvesDone(n, y) && Outside(x, y, HalfIds(n))
    decreases NodeWeight(n), 0
  {
    var f, s := n.body.first, n.body.second;
    HalfReady(n, f, s, x);
    InnerWeight(n);
    var z := FinalizeNode(f, InnerList(n), map[n.id := PartsOf(n)], x);
    BetweenHalves(n, x, z);
    HalfReady(n, s, f, z);
    y := FinalizeNode(s, InnerList(n), map[n.id := PartsOf(n)], z);
    AfterHalves(n, x, z, y);
  }

  lemma InnerWeight(n: Node)
    requires n.body.Merged?
    ensures NodeWeight(n.body.first) + ListWeight(InnerList(n)) < NodeWeight(n)
    ensures NodeWeight(n.body.second) + ListWeight(InnerList(n)) < NodeWeight(n)
    ensures ListIds(InnerList(n)) == (if n.body.inner.Some? then EdgeIds(n.body.inner.value) else {})
  {
    if n.body.inner.Some? { assert InnerList(n)[..0] == []; }
  }

  lemma BetweenHalves(n: Node, x: Assign, z: Assign)
    requires ShapeNode(n) && ForestNode(n) && n.body.Merged? && At(x, n.id) < |n.cost|
    requires RangedNode(n.body.first, x) && RangedNode(n.body.second, x)
    requires SettledNode(n.body.first, z) && SettledList(InnerList(n), z)
    requires Outside(x, z, NodeIds(n.body.first) - {n.body.first.id} + ListIds(InnerList(n)))
    ensures At(z, n.id) < |n.cost| && RangedNode(n.body.first, z) && RangedNode(n.body.second, z)
    ensures n.body.inner.Some? ==> RangedEdge(n.body.inner.value, z)
  {
    var f, s := n.body.first, n.body.second;
    InnerWeight(n);
    assert f.id in NodeIds(f);
    SettledNodeRanged(f, z);
    RangedNodeFrame(s, x, z);
    if n.body.inner.Some? {
      assert n.body.inner.value in InnerList(n);
      SettledEdgeRanged(n.body.inner.value, PartsOf(n), PartsOf(n), z);
    }
  }

  lemma AfterHalves(n: Node, x: Assign, z: Assign, y: Assign)
    requires ShapeNode(n) && ForestNode(n) && n.body.Merged? && At(x, n.id) < |n.body.pairs|
    requires At(x, n.body.first.id) == n.body.pairs[At(x, n.id)].0
             && At(x, n.body.second.id) == n.body.pairs[At(x, n.id)].1
    requires SettledNode(n.body.first, z)
    requires Outside(x, z, NodeIds(n.body.first) - {n.body.first.id} + ListIds(InnerList(n)))
    requires SettledNode(n.body.second, y) && SettledList(InnerList(n), y)
    requires Outside(z, y, NodeIds(n.body.second) - {n.body.second.id} + ListIds(InnerList(n)))
    ensures HalvesDone(n, y) && Outside(x, y, HalfIds(n))
  {
    var f, s := n.body.first, n.body.second;
    InnerWeight(n);
    assert f.id in NodeIds(f) && s.id in NodeIds(s);
    SettledNodeFrame(f, z, y);
    if n.body.inner.Some? { assert n.body.inner.value in InnerList(n); }
  }

  // ----- the children -----

  lemma ChildFrame(n: Node, c: Child, x: Assign, y: Assign)
    requires ShapeNode(n) && c in n.children && ChildDone(n, c, x)
    requires Agree(x, y, Comps(PartsOf(n))) && Agree(x, y, ChildIds(c))
    ensures ChildDone(n, c, y)
  {
    var p, q := PartsOf(n), PartsOf(c.node);
    assert n.id in Comps(p) && c.node.id in Comps(q) && c.node.id in NodeIds(c.node);
    CompsAreOwned(c.node);
    PickInside(p, q, c.edge.start);
    PickInside(p, q, c.edge.end);
    SettledNodeFrame(c.node, x, y);
    SettledEdgeFrame(c.edge, Pick(p, q, c.edge.start), Pick(p, q, c.edge.end), x, y);
  }

  ghost function ChildEnds(n: Node, c: Child): map<Id, Parts> {
    map[n.id := PartsOf(n), c.node.id := PartsOf(c.node)]
  }

  lemma ChildReady(n: Node, c: Child, x: Assign)
    requires ShapeNode(n) && ForestNode(n) && c in n.children && Ranged(PartsOf(n), x)
    requires RangedNode(c.node, x) && RangedEdge(c.edge, x)
    ensures var at := ChildEnds(n, c);
            Ready([c.edge], at) && RangedAll(at, x) && RangedList([c.edge], x) && Around(c.node, at)
    ensures ForestNode(c.node) && ShapeNode(c.node) && EdgeIds(c.edge) !! NodeIds(c.node)
    ensures EdgeIds(c.edge) !! Comps(PartsOf(n)) && EdgeIds(c.edge) !! Comps(PartsOf(c.node))
    ensures c.edge.start in ChildEnds(n, c) && c.edge.end in ChildEnds(n, c)
  {
    hide ShapeNode, ForestNode, ShapeEdge, ForestEdge, NodeIds, EdgeIds, Comps, PartsOf, Beside, Ranged, RangedNode,
        RangedEdge;
    ChildApart(n, c);
    ChildShape(n, c);
    RangedNodeParts(c.node, x);
  }

  lemma ChildShape(n: Node, c: Child)
    requires ShapeNode(n) && ForestNode(n) && c in n.children
    ensures ForestNode(c.node) && ShapeNode(c.node) && ForestEdge(c.edge)
    ensures var at := ChildEnds(n, c);
            && c.edge.start in at && c.edge.end in at && ShapeEdge(c.edge, at[c.edge.start], at[c.edge.end])
            && EdgeIds(c.edge) !! Comps(PartsOf(n)) && EdgeIds(c.edge) !! Comps(PartsOf(c.node))
  {
    hide ShapeEdge, ForestEdge, NodeIds, EdgeIds;
    ChildApart(n, c);
    ChildShares(c);
    var p, q := PartsOf(n), PartsOf(c.node);
    assert p.id == n.id && q.id == c.node.id && n.id in Comps(p) && c.node.id in Comps(q);
    assert Pick(p, q, n.id) == p && Pick(p, q, c.node.id) == q;
  }

  lemma ChildShares(c: Child)
    ensures NodeIds(c.node) <= ChildIds(c) && EdgeIds(c.edge) <= ChildIds(c) && c.node.id in NodeIds(c.node)
  {
  }

  lemma ChildApart(n: Node, c: Child)
    requires ShapeNode(n) && ForestNode(n) && c in n.children
    ensures Comps(PartsOf(n)) !! ChildIds(c) && Comps(PartsOf(c.node)) <= NodeIds(c.node)
    ensures Beside(c.node, PartsOf(n)) && Beside(c.node, PartsOf(c.node)) && NodeIds(c.node) !! EdgeIds(c.edge)
  {
    CompsAreOwned(n);
    CompsAreOwned(c.node);
    assert ForestNode(c.node);
    forall i | i in ChildIds(c) ensures i in ChildrenIds(n.children) { ChildrenIdsMember(n.children, i); }
    assert Comps(PartsOf(n)) !! ChildIds(c);
    assert ChildrenIds(c.node.children) <= NodeIds(c.node) <= ChildIds(c);
    assert c.node.id in Comps(PartsOf(c.node)) && PartsOf(c.node).id == c.node.id;
  }

  method FinalizeChild(n: Node, c: Child, x: Assign) returns (y: Assign)
    requires ShapeNode(n) && ForestNode(n) && c in n.children && Ranged(PartsOf(n), x)
    requires RangedNode(c.node, x) && RangedEdge(c.edge, x)
    requires At(x, n.id) < |c.sig| && At(x, c.node.id) == c.sig[At(x, n.id)]
    ensures ChildDone(n, c, y) && Outside(x, y, ChildIds(c))
    decreases NodeWeight(n), 0
  {
    ChildReady(n, c, x);
    OneWeight(n, c);
    // FinalizeSbp of the child visits its own edge, whichever way it points
    var z := FinalizeNode(c.node, [c.edge], ChildEnds(n, c), x);
    ChildSettled(n, c, x, z);
    // and an edge from father to child is visited once more
    if c.edge.end == c.node.id {
      ChildReady(n, c, z);
      y := FinalizeEdge(c.edge, ChildEnds(n, c)[c.edge.start], ChildEnds(n, c)[c.edge.end], z);
      ChildAgain(n, c, z, y);
    } else {
      y := z;
    }
  }

  lemma OneWeight(n: Node, c: Child)
    requires c in n.children
    ensures NodeWeight(c.node) + ListWeight([c.edge]) < NodeWeight(n) && EdgeWeight(c.edge) < NodeWeight(n)
    ensures ListIds([c.edge]) == EdgeIds(c.edge)
  {
    ChildWeight(n.children, c);
    assert [c.edge][..0] == [];
  }

  lemma ChildSettled(n: Node, c: Child, x: Assign, z: Assign)
    requires ShapeNode(n) && ForestNode(n) && c in n.children && Ranged(PartsOf(n), x)
    requires At(x, n.id) < |c.sig| && At(x, c.node.id) == c.sig[At(x, n.id)]
    requires SettledNode(c.node, z) && SettledList([c.edge], z)
    requires Outside(x, z, NodeIds(c.node) - {c.node.id} + ListIds([c.edge]))
    ensures ChildDone(n, c, z) && Outside(x, z, ChildIds(c)) && Ranged(PartsOf(n), z)
    ensures RangedNode(c.node, z) && RangedEdge(c.edge, z)
  {
    OneWeight(n, c);
    ChildApart(n, c);
    assert n.id in Comps(PartsOf(n)) && c.node.id in NodeIds(c.node);
    RangedFrame(PartsOf(n), x, z);
    assert c.edge in [c.edge];
    SettledNodeRanged(c.node, z);
    var p, q := PartsOf(n), PartsOf(c.node);
    SettledEdgeRanged(c.edge, Pick(p, q, c.edge.start), Pick(p, q, c.edge.end), z);
  }

  lemma ChildAgain(n: Node, c: Child, z: Assign, y: Assign)
    requires ShapeNode(n) && ForestNode(n) && c in n.children && ChildDone(n, c, z)
    requires SettledEdge(c.edge, y) && Outside(z, y, EdgeIds(c.edge))
    ensures ChildDone(n, c, y) && Outside(z, y, ChildIds(c))
  {
    ChildApart(n, c);
    assert n.id in Comps(PartsOf(n)) && c.node.id in NodeIds(c.node);
    SettledNodeFrame(c.node, z, y);
  }

  /** A child that has its signature but has not been visited yet. */
  ghost predicate Waiting(n: Node, c: Child, x: Assign) {
    && RangedNode(c.node, x) && RangedEdge(c.edge, x)
    && At(x, n.id) < |c.sig| && At(x, c.node.id) == c.sig[At(x, n.id)]
  }

  lemma ChildrenStep(n: Node, i: nat, z: Assign, y: Assign)
    requires ShapeNode(n) && ForestNode(n) && Ranged(PartsOf(n), z) && i < |n.children|
    requires forall j :: 0 <= j < i ==> ChildDone(n, n.children[j], z)
    requires forall j :: i < j < |n.children| ==> Waiting(n, n.children[j], z)
    requires ChildDone(n, n.children[i], y) && Outside(z, y, ChildIds(n.children[i]))
    ensures forall j :: 0 <= j <= i ==> ChildDone(n, n.children[j], y)
    ensures forall j :: i < j < |n.children| ==> Waiting(n, n.children[j], y)
    ensures Ranged(PartsOf(n), y)
  {
    assert n.children[i] in n.children;
    ChildApart(n, n.children[i]);
    RangedFrame(PartsOf(n), z, y);
    forall j | 0 <= j < |n.children| && j != i
      ensures j < i ==> ChildDone(n, n.children[j], y)
      ensures i < j ==> Waiting(n, n.children[j], y)
    {
      var c := n.children[j];
      assert c in n.children;
      assert ChildIds(c) !! ChildIds(n.children[i]);
      if j < i { ChildFrame(n, c, z, y); } else { WaitingFrame(n, c, z, y); }
    }
  }

  lemma WaitingFrame(n: Node, c: Child, x: Assign, y: Assign)
    requires Waiting(n, c, x) && Agree(x, y, Comps(PartsOf(n))) && Agree(x, y, ChildIds(c))
    ensures Waiting(n, c, y)
  {
    assert n.id in Comps(PartsOf(n)) && c.node.id in NodeIds(c.node);
    RangedNodeFrame(c.node, x, y);
    RangedEdgeFrame(c.edge, x, y);
  }

  method FinalizeChildren(n: Node, x: Assign) returns (y: Assign)
    requires ShapeNode(n) && ForestNode(n) && Ranged(PartsOf(n), x)
    requires forall c :: c in n.children ==> Waiting(n, c, x)
    ensures forall c :: c in n.children ==> ChildDone(n, c, y)
    ensures Outside(x, y, ChildrenIds(n.children))
    decreases NodeWeight(n), 1
  {
    y := x;
    for i := 0 to |n.children|
      invariant forall j :: 0 <= j < i ==> ChildDone(n, n.children[j], y)
      invariant forall j :: i <= j < |n.children| ==> Waiting(n, n.children[j], y)
      invariant Ranged(PartsOf(n), y) && Outside(x, y, ChildrenIds(n.children))
    {
      ghost var z := y;
      assert n.children[i] in n.children && Waiting(n, n.children[i], y);
      y := FinalizeChild(n, n.children[i], y);
      ChildrenStep(n, i, z, y);
      forall k | k in ChildIds(n.children[i]) ensures k in ChildrenIds(n.children) { ChildrenIdsMember(n.children, k); }
    }
  }

  // ----- the whole node -----

  lemma ChildWaits(n: Node, c: Child, x: Assign, y: Assign)
    requires ShapeNode(n) && ForestNode(n) && RangedNode(n, x) && c in n.children
    requires At(y, n.id) == At(x, n.id) && At(y, c.node.id) == c.sig[At(x, n.id)]
    requires Outside(x, y, HalfIds(n) + ChildRoots(n.children))
    ensures Waiting(n, c, y)
  {
    forall i | i in ChildIds(c) && i != c.node.id ensures At(x, i) == At(y, i) { NotARoot(n, c, i); }
    assert ForestNode(c.node);
    RangedRoot(c.node, x, y);
    assert c.node.id in NodeIds(c.node);
    RangedEdgeFrame(c.edge, x, y);
  }

  /** An id below a child is not the root of another child, nor below the halves. */
  lemma NotARoot(n: Node, c: Child, i: Id)
    requires ForestNode(n) && c in n.children && i in ChildIds(c) && i != c.node.id
    ensures i !in HalfIds(n) && i !in ChildRoots(n.children)
  {
    ChildrenIdsMember(n.children, i);
    forall d | d in n.children ensures d.node.id != i {
      var p :| 0 <= p < |n.children| && n.children[p] == c;
      var q :| 0 <= q < |n.children| && n.children[q] == d;
      assert d.node.id in ChildIds(d);
      assert p == q || ChildIds(n.children[p]) !! ChildIds(n.children[q]);
    }
  }

  lemma RootsAreChildren(cs: seq<Child>)
    ensures ChildRoots(cs) <= ChildrenIds(cs)
  {
    forall i | i in ChildRoots(cs) ensures i in ChildrenIds(cs) {
      var c :| c in cs && c.node.id == i;
      assert i in ChildIds(c);
      ChildrenIdsMember(cs, i);
    }
  }

  lemma HalvesRanged(n: Node, y: Assign)
    requires ShapeNode(n) && HalvesDone(n, y) && At(y, n.id) < |n.cost|
    ensures Ranged(PartsOf(n), y)
  {
    match n.body
    case Origin(_, _) =>
    case Merged(f, s, pairs, _) =>
      assert Size(PartsOf(f)) == |f.cost| && Size(PartsOf(s)) == |s.cost|;
      SettledObeys(f, y);
      SettledObeys(s, y);
      ObeysRanged(PartsOf(f), y);
      ObeysRanged(PartsOf(s), y);
  }

  /** The first part of FinalizeSbp: the halves and children get their signatures, and
      everything inside the halves is settled. */
  method FinalizeInside(n: Node, x: Assign) returns (y: Assign)
    requires ShapeNode(n) && ForestNode(n) && RangedNode(n, x)
    ensures HalvesDone(n, y) && At(y, n.id) == At(x, n.id) && Ranged(PartsOf(n), y)
    ensures forall c :: c in n.children ==> Waiting(n, c, y)
    ensures Outside(x, y, HalfIds(n) + ChildrenIds(n.children))
    decreases NodeWeight(n), 1
  {
    AssignHalvesFacts(n, x);
    var z := AssignHalves(n, x);
    var w := AssignChildren(n.children, At(z, n.id), z);
    InsideStart(n, x, z, w);
    if n.body.Merged? {
      y := FinalizeHalves(n, w);
    } else {
      y := w;
    }
    InsideEnd(n, x, w, y);
  }

  lemma InsideStart(n: Node, x: Assign, z: Assign, w: Assign)
    requires ShapeNode(n) && ForestNode(n) && RangedNode(n, x) && z == AssignHalves(n, x)
    requires Outside(z, w, ChildRoots(n.children))
    requires forall c :: c in n.children ==> At(z, n.id) < |c.sig| && At(w, c.node.id) == c.sig[At(z, n.id)]
    ensures Outside(x, w, HalfIds(n) + ChildRoots(n.children)) && At(w, n.id) == At(x, n.id)
    ensures n.body.Merged? ==>
              && At(w, n.id) < |n.body.pairs|
              && At(w, n.body.first.id) == n.body.pairs[At(w, n.id)].0
              && At(w, n.body.second.id) == n.body.pairs[At(w, n.id)].1
              && RangedNode(n.body.first, w) && RangedNode(n.body.second, w)
              && (n.body.inner.Some? ==> RangedEdge(n.body.inner.value, w))
    ensures forall c :: c in n.children ==> Waiting(n, c, w)
  {
    AssignHalvesFacts(n, x);
    RootsAreChildren(n.children);
    if n.body.Merged? {
      var f, s := n.body.first, n.body.second;
      assert f.id in NodeIds(f) && s.id in NodeIds(s) && NodeIds(f) <= HalfIds(n) && NodeIds(s) <= HalfIds(n);
      RangedNodeFrame(f, z, w);
      RangedNodeFrame(s, z, w);
      if n.body.inner.Some? {
        assert EdgeIds(n.body.inner.value) <= HalfIds(n);
        RangedEdgeFrame(n.body.inner.value, z, w);
      }
    }
    forall c | c in n.children ensures Waiting(n, c, w) { ChildWaits(n, c, x, w); }
  }

  lemma InsideEnd(n: Node, x: Assign, w: Assign, y: Assign)
    requires ShapeNode(n) && ForestNode(n) && RangedNode(n, x)
    requires Outside(x, w, HalfIds(n) + ChildRoots(n.children)) && At(w, n.id) == At(x, n.id)
    requires forall c :: c in n.children ==> Waiting(n, c, w)
    requires HalvesDone(n, y) && Outside(w, y, HalfIds(n))
    ensures At(y, n.id) == At(x, n.id) && Ranged(PartsOf(n), y)
    ensures forall c :: c in n.children ==> Waiting(n, c, y)
    ensures Outside(x, y, HalfIds(n) + ChildrenIds(n.children))
  {
    RootsAreChildren(n.children);
    HalvesRanged(n, y);
    forall c | c in n.children ensures Waiting(n, c, y) {
      forall i | i in ChildIds(c) ensures i !in HalfIds(n) { ChildrenIdsMember(n.children, i); }
      WaitingBeyond(n, c, w, y);
    }
  }

  lemma WaitingBeyond(n: Node, c: Child, x: Assign, y: Assign)
    requires Waiting(n, c, x) && At(x, n.id) == At(y, n.id) && Agree(x, y, ChildIds(c))
    ensures Waiting(n, c, y)
  {
    assert c.node.id in NodeIds(c.node);
    RangedNodeFrame(c.node, x, y);
    RangedEdgeFrame(c.edge, x, y);
  }

  method FinalizeNode(n: Node, es: seq<Edge>, ghost at: map<Id, Parts>, x: Assign) returns (y: Assign)
    requires ShapeNode(n) && ForestNode(n) && RangedNode(n, x)
    requires Ready(es, at) && RangedAll(at, x) && RangedList(es, x) && Around(n, at)
    requires forall e :: e in es ==> EdgeIds(e) !! NodeIds(n)
    ensures SettledNode(n, y) && SettledList(es, y)
    ensures Outside(x, y, NodeIds(n) - {n.id} + ListIds(es))
    decreases NodeWeight(n) + ListWeight(es), 3
  {
    var z := FinalizeInside(n, x);
    BeforeEdges(n, es, at, x, z);
    var w := FinalizeEdges(es, at, z);
    AfterEdges(n, es, z, w);
    y := FinalizeChildren(n, w);
    AfterChildren(n, es, at, x, z, w, y);
  }

  lemma BeforeEdges(n: Node, es: seq<Edge>, at: map<Id, Parts>, x: Assign, z: Assign)
    requires ForestNode(n) && RangedAll(at, x) && RangedList(es, x) && Around(n, at)
    requires forall e :: e in es ==> EdgeIds(e) !! NodeIds(n)
    requires Ranged(PartsOf(n), z) && Outside(x, z, HalfIds(n) + ChildrenIds(n.children))
    ensures RangedAll(at, z) && RangedList(es, z)
  {
    var ids := HalfIds(n) + ChildrenIds(n.children);
    assert ids <= NodeIds(n);
    forall c | c in at ensures Ranged(at[c], z) { BesideRanged(n, at[c], x, z, ids); }
    forall e | e in es ensures RangedEdge(e, z) { RangedEdgeFrame(e, x, z); }
  }

  lemma ListApart(n: Node, es: seq<Edge>)
    requires forall e :: e in es ==> EdgeIds(e) !! NodeIds(n)
    ensures ListIds(es) !! NodeIds(n)
  {
    forall i | i in ListIds(es) ensures i !in NodeIds(n) { ListIdsMember(es, i); }
  }

  lemma AfterEdges(n: Node, es: seq<Edge>, z: Assign, w: Assign)
    requires ShapeNode(n) && ForestNode(n) && HalvesDone(n, z) && Ranged(PartsOf(n), z)
    requires forall c :: c in n.children ==> Waiting(n, c, z)
    requires forall e :: e in es ==> EdgeIds(e) !! NodeIds(n)
    requires Outside(z, w, ListIds(es))
    ensures HalvesDone(n, w) && Ranged(PartsOf(n), w) && forall c :: c in n.children ==> Waiting(n, c, w)
  {
    ListApart(n, es);
    CompsAreOwned(n);
    HalvesFrame(n, z, w);
    RangedFrame(PartsOf(n), z, w);
    forall c | c in n.children ensures Waiting(n, c, w) {
      forall i | i in ChildIds(c) ensures i in NodeIds(n) { ChildrenIdsMember(n.children, i); }
      WaitingBeyond(n, c, z, w);
    }
  }

  lemma AfterChildren(n: Node, es: seq<Edge>, at: map<Id, Parts>, x: Assign, z: Assign, w: Assign, y: Assign)
    requires ShapeNode(n) && ForestNode(n) && HalvesDone(n, w)
    requires Ready(es, at) && Around(n, at) && SettledList(es, w)
    requires forall e :: e in es ==> EdgeIds(e) !! NodeIds(n)
    requires Outside(x, z, HalfIds(n) + ChildrenIds(n.children)) && Outside(z, w, ListIds(es))
    requires Outside(w, y, ChildrenIds(n.children)) && forall c :: c in n.children ==> ChildDone(n, c, y)
    ensures SettledNode(n, y) && SettledList(es, y)
    ensures Outside(x, y, NodeIds(n) - {n.id} + ListIds(es))
  {
    HalvesFrame(n, w, y);
    NodeDone(n, y);
    forall e | e in es ensures SettledEdge(e, y) {
      assert Beside(n, at[e.start]) && Beside(n, at[e.end]);
      SettledEdgeFrame(e, at[e.start], at[e.end], w, y);
    }
  }
}
