/** The operations on the graph and on the vectors that list its live objects. */
module SbpOps {
  import opened Sums
  import opened SbpForest
  import opened SbpOwnership
  import opened SbpSteps
  import opened SbpRun
  import opened SbpSettled
  import opened SbpHandDown
  import opened SbpTables
  import opened SbpLists
  import opened SbpState

  /** node_list_ with node_list_id_, the live objects, edges_out_ and edges_in_ of the live
      nodes, final_sbp_sig_id_ of all nodes, and the next id to hand out. */
  datatype View = View(
    nodeList: seq<Id>, listId: map<Id, nat>, g: Graph, out: map<Id, seq<Id>>, into: map<Id, seq<Id>>,
    final: Assign, next: Id)

  ghost predicate Tidy(v: View, ratio: real) {
    && Good(v.g, ratio) && Indexed(v.nodeList, v.listId, v.g.node.Keys) && Listed(v.g, v.out, v.into)
    && Beyond(v.g, v.next) && RangedGraph(v.g, v.final)
  }

  // As a function value the condition is passed around whole.
  ghost function Ok(ratio: real): View -> bool { v => Tidy(v, ratio) }

  ghost function Taken(): (View, Step, View) -> bool { (v: View, step: Step, w: View) => Shrinks(v.g, step, w.g) }

  function Volume(g: Graph): nat { |g.node| + |g.edge| }

  predicate Has(v: View, i: Id) { i in v.g.node && i in v.out && i in v.into && i in v.listId }

  function Degree(v: View, i: Id): nat
    requires Has(v, i)
  {
    |v.into[i]| + |v.out[i]|
  }

  lemma HasLive(v: View, ratio: real)
    requires Ok(ratio)(v)
    ensures forall i :: i in v.g.node <==> Has(v, i)
    ensures v.out.Keys == v.g.node.Keys && v.into.Keys == v.g.node.Keys && v.listId.Keys == v.g.node.Keys
  {
  }

  lemma GoodWired(g: Graph, ratio: real)
    requires GoodAt(ratio)(g)
    ensures Wired(g)
  {
  }

  lemma EdgeSizes(g: Graph, k: Id, ratio: real)
    requires k in g.edge && GoodAt(ratio)(g)
    ensures var e := g.edge[k];
            && e.start in g.node && e.end in g.node
            && Sized(e.cost, |g.node[e.start].cost|, |g.node[e.end].cost|)
  {
    var e := g.edge[k];
    assert EdgeHolds(g, ShapeEdge, k);
    assert ShapeNode(g.node[e.start]) && ShapeNode(g.node[e.end]);
  }

  lemma GoodNode(g: Graph, ratio: real, i: Id)
    requires GoodAt(ratio)(g) && i in g.node
    ensures g.node[i].id == i && ShapeNode(g.node[i]) && |g.node[i].cost| > 0 && PartsOk(PartsOf(g.node[i]))
  {
  }

  lemma TakenGood(v: View, step: Step, w: View, ratio: real)
    requires Taken()(v, step, w) && GoodAt(ratio)(v.g)
    ensures GoodAt(ratio)(w.g) && Good(w.g, ratio)
  {
    hide Shrinks;
    assert Shrinks(v.g, step, w.g) && Good(v.g, ratio);
    StepKeepsGood(v.g, step, w.g, ratio);
  }

  lemma OkRest(v: View, ratio: real)
    requires Ok(ratio)(v)
    ensures Beyond(v.g, v.next) && RangedGraph(v.g, v.final)
  {
  }

  /** A step keeps the graph good; the rest is about lists, ids and signatures. */
  lemma OkAfter(v: View, step: Step, w: View, ratio: real)
    requires Ok(ratio)(v) && Taken()(v, step, w) && Lists(w) && Beyond(w.g, w.next) && RangedGraph(w.g, w.final)
    ensures Ok(ratio)(w)
  {
    hide Good, Taken, Indexed, Listed, Beyond, RangedGraph;
    TakenGood(v, step, w, ratio);
  }

  // ----- removing from node_list_ -----

  method RemoveFromNodeList(list: seq<Id>, at: map<Id, nat>, i: Id) returns (list': seq<Id>, at': map<Id, nat>)
    requires Indexed(list, at, at.Keys)
    ensures Indexed(list', at', at.Keys - {i})
    ensures i in at ==> at[i] < |list| && at[i] <= |list'| && list'[..at[i]] == list[..at[i]]
    ensures i !in at ==> list' == list && at' == at
  {
    if i !in at { return list, at; }
    var gone: set<Id> := {i};
    var p := at[i];
    at' := at[list[|list| - 1] := p] - gone;
    list' := RemoveAt(list, p);
    RemoveIndexed(list, at, at.Keys, i, at');
  }

  // ----- absorbing a leaf -----

  /** w lists what v lists, except k. */
  ghost predicate Without(v: seq<Id>, w: seq<Id>, k: Id) {
    Distinct(w) && forall l :: l in w <==> l in v && l != k
  }

  /** Every list but those of n has lost k, and nothing else. */
  ghost predicate Cleared(v: map<Id, seq<Id>>, w: map<Id, seq<Id>>, n: Id, k: Id) {
    w.Keys == v.Keys && forall i :: i in v && i != n ==> Without(v[i], w[i], k)
  }

  function Detached(g: Graph, c: Id, k: Id): Graph {
    var gone: set<Id> := {c};
    var ties: set<Id> := {k};
    Graph(g.node - gone, g.edge - ties)
  }

  lemma ClearedListed(g: Graph, out: map<Id, seq<Id>>, into: map<Id, seq<Id>>, c: Id, k: Id,
                      out': map<Id, seq<Id>>, into': map<Id, seq<Id>>)
    requires Listed(g, out, into)
    requires Cleared(out, out', c, k) && Cleared(into, into', c, k)
    ensures Listed(Detached(g, c, k), out' - {c}, into' - {c})
  {
    var h := Detached(g, c, k);
    forall i | i in h.node ensures OutList(h.edge, i, out'[i]) && InList(h.edge, i, into'[i]) {
      assert Without(out[i], out'[i], k) && Without(into[i], into'[i], k);
    }
  }

  lemma ListedSame(g: Graph, out: map<Id, seq<Id>>, into: map<Id, seq<Id>>, h: Graph)
    requires Listed(g, out, into) && g.node.Keys == h.node.Keys && g.edge == h.edge
    ensures Listed(h, out, into)
  {
  }

  /** A node with one edge: nothing else touches it. */
  lemma OneEdge(g: Graph, out: map<Id, seq<Id>>, into: map<Id, seq<Id>>, c: Id)
    requires Wired(g) && Listed(g, out, into) && c in g.node && |into[c]| + |out[c]| == 1
    ensures var k := if |into[c]| > 0 then into[c][0] else out[c][0];
            && k in g.edge && (|into[c]| > 0 <==> g.edge[k].end == c) && (|into[c]| == 0 <==> g.edge[k].start == c)
            && forall l :: l in g.edge ==> (Touches(g.edge[l], c) <==> l == k)
  {
    AtNode(g, out, into, c);
    var k := if |into[c]| > 0 then into[c][0] else out[c][0];
    assert into[c] + out[c] == [k];
    assert k in into[c] + out[c];
    assert OutList(g.edge, c, out[c]) && InList(g.edge, c, into[c]);
    assert |into[c]| > 0 ==> k in into[c];
    assert |into[c]| == 0 ==> k in out[c];
  }

  /** The only edge of a node of degree one, and the node at its other end. */
  method LoneEdge(g: Graph, out: map<Id, seq<Id>>, into: map<Id, seq<Id>>, c: Id) returns (k: Id, f: Id)
    requires Wired(g) && Listed(g, out, into) && c in g.node && |into[c]| + |out[c]| == 1
    ensures k in g.edge && Touches(g.edge[k], c) && f == Other(g.edge[k], c) && f in g.node && f != c
    ensures forall l :: l in g.edge ==> (Touches(g.edge[l], c) <==> l == k)
  {
    OneEdge(g, out, into, c);
    if |into[c]| > 0 {
      k := into[c][0];
      f := g.edge[k].start;
    } else {
      k := out[c][0];
      f := g.edge[k].end;
    }
  }

  /** k sits in the lists of its own two ends only, and no list holds anything twice. */
  ghost predicate Placed(out: map<Id, seq<Id>>, into: map<Id, seq<Id>>, n: Id, k: Edge, id: Id) {
    && (forall i :: i in out && i != n ==> Distinct(out[i]) && (id in out[i] ==> i == k.start))
    && (forall i :: i in into && i != n ==> Distinct(into[i]) && (id in into[i] ==> i == k.end))
  }

  /** Take the edge k, at n, out of the lists of the node at its other end. */
  method LetGo(edge: map<Id, Edge>, out: map<Id, seq<Id>>, into: map<Id, seq<Id>>, n: Id, k: Id)
    returns (out': map<Id, seq<Id>>, into': map<Id, seq<Id>>)
    requires k in edge && Touches(edge[k], n) && Placed(out, into, n, edge[k], k)
    requires Other(edge[k], n) in out && Other(edge[k], n) in into
    ensures Cleared(out, out', n, k) && Cleared(into, into', n, k)
  {
    out', into' := out, into;
    if edge[k].end == n {
      var list := CheckAndRemoveFrom(out[edge[k].start], k);
      out' := out[edge[k].start := list];
    } else {
      var list := CheckAndRemoveFrom(into[edge[k].end], k);
      into' := into[edge[k].end := list];
    }
  }

  function AfterAbsorb(g: Graph, c: Id, k: Id, father: Node): Graph {
    var gone: set<Id> := {c};
    var ties: set<Id> := {k};
    Graph((g.node - gone)[father.id := father], g.edge - ties)
  }

  lemma AbsorbTaken(v: View, c: Id, k: Id, child: Child, father: Node, u: View, w: View, ratio: real)
    requires c in v.g.node && father.id in v.g.node && k in v.g.edge && c != father.id
    requires Touches(v.g.edge[k], c) && (forall l :: l in v.g.edge ==> (Touches(v.g.edge[l], c) <==> l == k))
    requires father.id == Other(v.g.edge[k], c)
    requires var f := v.g.node[father.id];
             && child.node == v.g.node[c] && child.edge == v.g.edge[k] && |child.sig| == |f.cost|
                && |father.cost| == |f.cost|
             && father.body == f.body && father.children == f.children + [child]
             && forall i :: 0 <= i < |f.cost| ==>
                  ChildBest(child, i, child.sig[i]) && father.cost[i] == f.cost[i] + ChildCost(child, i, child.sig[i])
    requires Lists(u) && u.g == Detached(v.g, c, k) && u.next == v.next && u.final == v.final
             && w == u.(g := AfterAbsorb(v.g, c, k, father))
    requires Ok(ratio)(v)
    ensures Ok(ratio)(w) && Taken()(v, Absorb(c, k, father), w) && Volume(w.g) < Volume(v.g)
  {
    hide Ok, Lists, Beyond, RangedGraph, ChildBest, Taken, Adopted, AbsorbMoves, Volume, GoodAt;
    OkRest(v, ratio);
    OkParts(v, ratio);
    AbsorbIsStep(v, c, k, child, father, w, ratio);
    AbsorbAdds(v.g, c, k, father.id, father, w.g, v.next);
    AbsorbRanged(v.g, c, k, father.id, father, w.g, v.final);
    AbsorbLists(v, c, k, father, u, w);
    OkAfter(v, Absorb(c, k, father), w, ratio);
    AbsorbVolume(v.g, c, k, father.id, father, w.g);
  }

  lemma AbsorbIsStep(v: View, c: Id, k: Id, child: Child, father: Node, w: View, ratio: real)
    requires c in v.g.node && father.id in v.g.node && k in v.g.edge && c != father.id
             && w.g == AfterAbsorb(v.g, c, k, father)
    requires Touches(v.g.edge[k], c) && (forall l :: l in v.g.edge ==> (Touches(v.g.edge[l], c) <==> l == k))
    requires father.id == Other(v.g.edge[k], c)
    requires var f := v.g.node[father.id];
             && child.node == v.g.node[c] && child.edge == v.g.edge[k] && |child.sig| == |f.cost|
                && |father.cost| == |f.cost|
             && father.body == f.body && father.children == f.children + [child]
             && forall i :: 0 <= i < |f.cost| ==>
                  ChildBest(child, i, child.sig[i]) && father.cost[i] == f.cost[i] + ChildCost(child, i, child.sig[i])
    requires GoodAt(ratio)(v.g)
    ensures Taken()(v, Absorb(c, k, father), w)
    ensures AbsorbMoves(v.g, c, k, father.id, father, w.g)
            && Adopted(v.g.node[father.id], v.g.node[c], v.g.edge[k], father)
  {
    hide GoodAt, ChildBest, ShapeNode;
    GoodNode(v.g, ratio, father.id);
    assert father.children[|v.g.node[father.id].children|] == child;
    assert ChildFresh(father, child);
    assert AbsorbStep(v.g, c, k, father, w.g);
  }

  lemma AbsorbLists(v: View, c: Id, k: Id, father: Node, u: View, w: View)
    requires Lists(u) && u.g == Detached(v.g, c, k) && w == u.(g := AfterAbsorb(v.g, c, k, father))
    requires father.id in v.g.node && father.id != c
    ensures Lists(w)
  {
    assert w.g.node.Keys == u.g.node.Keys;
    ListedSame(u.g, u.out, u.into, w.g);
  }

  lemma AbsorbVolume(g: Graph, c: Id, k: Id, f: Id, father: Node, h: Graph)
    requires AbsorbMoves(g, c, k, f, father, h)
    ensures Volume(h) < Volume(g)
  {
    assert h.node.Keys == g.node.Keys - {c} && h.edge.Keys == g.edge.Keys - {k};
  }

  // ----- traces -----

  /** The graphs an operation went through, and the steps between them. */
  datatype Trace = Trace(gs: seq<Graph>, steps: seq<Step>)

  ghost predicate Leads(g: Graph, t: Trace, h: Graph) {
    |t.gs| == |t.steps| + 1 && t.gs[0] == g && t.gs[|t.steps|] == h && Run(t.gs, t.steps)
  }

  ghost function Still(g: Graph): (t: Trace)
    ensures Leads(g, t, g)
  {
    Trace([g], [])
  }

  ghost function Once(g: Graph, step: Step, h: Graph): Trace { Trace([g, h], [step]) }

  ghost function Then(t: Trace, u: Trace): Trace
    requires |t.gs| > 0
  {
    Trace(t.gs[..|t.gs| - 1] + u.gs, t.steps + u.steps)
  }

  lemma LeadsOnce(v: View, step: Step, w: View)
    requires Taken()(v, step, w)
    ensures Leads(v.g, Once(v.g, step, w.g), w.g)
  {
    hide Shrinks;
    var gs, steps := [v.g, w.g], [step];
    assert gs[0] == v.g && gs[1] == w.g && steps[0] == step;
  }

  // final_sbp_sig_id_ along a trace

  /** The last slot of the pair (i, j), or 0. */
  function PairSlot(pairs: seq<(Sig, Sig)>, i: Sig, j: Sig): Sig {
    if pairs == [] then 0
    else if pairs[|pairs| - 1] == (i, j) then |pairs| - 1
    else PairSlot(pairs[..|pairs| - 1], i, j)
  }

  /** A merged node starts with the pair its halves hold; no other step changes a signature. */
  ghost function Follow(step: Step, x: Assign): Assign {
    if step.Merge? && step.m.body.Merged? then x[step.m.id := PairSlot(step.m.body.pairs, At(x, step.f), At(x, step.s))]
    else x
  }

  ghost function FollowAll(steps: seq<Step>, x: Assign): Assign {
    if steps == [] then x else Follow(steps[|steps| - 1], FollowAll(steps[..|steps| - 1], x))
  }

  lemma {:induction false} FollowBoth(a: seq<Step>, b: seq<Step>, x: Assign)
    ensures FollowAll(a + b, x) == FollowAll(b, FollowAll(a, x))
    decreases |b|
  {
    if b == [] {
      assert a + b == a;
    } else {
      assert (a + b)[..|a + b| - 1] == a + b[..|b| - 1];
      FollowBoth(a, b[..|b| - 1], x);
    }
  }

  /** The trace leads from one state to the next, and the signatures follow it. */
  ghost predicate Moves(v: View, t: Trace, w: View) { Leads(v.g, t, w.g) && w.final == FollowAll(t.steps, v.final) }

  lemma MovesNot(v: View)
    ensures Moves(v, Still(v.g), v)
  {
  }

  lemma MovesOnce(v: View, step: Step, w: View)
    requires Taken()(v, step, w) && w.final == Follow(step, v.final)
    ensures Moves(v, Once(v.g, step, w.g), w)
  {
    hide Follow, Run, Taken;
    LeadsOnce(v, step, w);
    assert [step][..0] == [];
    assert FollowAll([], v.final) == v.final;
  }

  lemma MovesThen(v: View, t: Trace, u: View, r: Trace, w: View)
    requires Moves(v, t, u) && Moves(u, r, w)
    ensures Moves(v, Then(t, r), w)
  {
    hide Run, FollowAll;
    LeadsThen(v.g, t, u.g, r, w.g);
    FollowBoth(t.steps, r.steps, v.final);
  }

  lemma LeadsThen(g: Graph, t: Trace, h: Graph, u: Trace, k: Graph)
    requires Leads(g, t, h) && Leads(h, u, k)
    ensures Leads(g, Then(t, u), k)
  {
    hide Shrinks;
    var r, n := Then(t, u), |t.steps|;
    forall i | 0 <= i < |r.steps| ensures Shrinks(r.gs[i], r.steps[i], r.gs[i + 1]) {
      if i < n {
        assert r.gs[i] == t.gs[i] && r.steps[i] == t.steps[i] && r.gs[i + 1] == t.gs[i + 1];
      } else {
        assert r.gs[i] == u.gs[i - n] && r.steps[i] == u.steps[i - n] && r.gs[i + 1] == u.gs[i - n + 1];
      }
    }
  }

  // ----- ChildElimination -----

  /** Find the only edge of the leaf c and take both out of all lists. */
  method Detach(v: View, c: Id, ghost ratio: real) returns (k: Id, f: Id, w: View)
    requires Has(v, c) && Degree(v, c) == 1 && Ok(ratio)(v)
    ensures k in v.g.edge && Touches(v.g.edge[k], c) && f == Other(v.g.edge[k], c) && f in v.g.node && f != c
    ensures forall l :: l in v.g.edge ==> (Touches(v.g.edge[l], c) <==> l == k)
    ensures Lists(w) && Before(v, c, w)
    ensures w.g == Detached(v.g, c, k) && w.next == v.next && w.final == v.final
  {
    hide Ok, GoodAt, OutList, InList, Cleared, Placed;
    OkParts(v, ratio);
    GoodWired(v.g, ratio);
    k, f := LoneEdge(v.g, v.out, v.into, c);
    ListedPlaced(v.g, v.out, v.into, c, k);
    var out, into := LetGo(v.g.edge, v.out, v.into, c, k);
    var list, at := RemoveFromNodeList(v.nodeList, v.listId, c);
    var gone: set<Id> := {c};
    ClearedListed(v.g, v.out, v.into, c, k, out, into);
    w := View(list, at, Detached(v.g, c, k), out - gone, into - gone, v.final, v.next);
    assert w.g.node.Keys == v.g.node.Keys - gone;
  }

  ghost predicate Lists(v: View) { Indexed(v.nodeList, v.listId, v.g.node.Keys) && Listed(v.g, v.out, v.into) }

  /** EliminateItselfAsChild. */
  method AbsorbLeaf(v: View, c: Id, ghost ratio: real) returns (w: View, ghost step: Step)
    requires Has(v, c) && Degree(v, c) == 1 && Ok(ratio)(v)
    ensures Ok(ratio)(w) && Taken()(v, step, w) && Volume(w.g) < Volume(v.g) && w.g.node.Keys == v.g.node.Keys - {c}
    ensures Before(v, c, w) && w.final == Follow(step, v.final)
  {
    hide Ok, GoodAt, Taken, Lists, Volume, ChildBest, ShapeNode;
    OkParts(v, ratio);
    var k, f, u := Detach(v, c, ratio);
    GoodNode(v.g, ratio, c);
    GoodNode(v.g, ratio, f);
    var child, sums := AddChild(v.g.node[f].cost, v.g.node[c], v.g.edge[k]);
    var father := Node(f, sums, v.g.node[f].body, v.g.node[f].children + [child]);
    w := u.(g := AfterAbsorb(v.g, c, k, father));
    AbsorbTaken(v, c, k, child, father, u, w, ratio);
    step := Absorb(c, k, father);
  }

  /** The slots of node_list_ before that of i are as they were. */
  ghost predicate Before(v: View, i: Id, w: View) {
    && i in v.listId && v.listId[i] < |v.nodeList| && v.listId[i] <= |w.nodeList|
    && w.nodeList[..v.listId[i]] == v.nodeList[..v.listId[i]]
  }

  method ChildElimination(v: View, c: Id, ghost ratio: real) returns (w: View, num: nat, ghost t: Trace)
    requires Has(v, c) && Ok(ratio)(v)
    ensures Ok(ratio)(w) && Moves(v, t, w) && Before(v, c, w)
    ensures num == if Degree(v, c) == 1 then 1 else 0
    ensures if num == 0 then w == v else Volume(w.g) < Volume(v.g) && w.g.node.Keys == v.g.node.Keys - {c}
  {
    hide Ok, Taken, Run, Volume, Follow, FollowAll, GoodAt, Listed;
    OkParts(v, ratio);
    MovesNot(v);
    if Degree(v, c) != 1 { return v, 0, Still(v.g); }
    num := 1;
    ghost var step;
    w, step := AbsorbLeaf(v, c, ratio);
    t := Once(v.g, step, w.g);
    MovesOnce(v, step, w);
  }

  lemma ListedPlaced(g: Graph, out: map<Id, seq<Id>>, into: map<Id, seq<Id>>, n: Id, k: Id)
    requires Listed(g, out, into) && k in g.edge
    ensures Placed(out, into, n, g.edge[k], k)
  {
    forall i | i in out ensures OutList(g.edge, i, out[i]) && InList(g.edge, i, into[i]) {}
  }

  lemma ListsOf(v: View, ratio: real, n: Id)
    requires n in v.g.node && Ok(ratio)(v)
    ensures n in v.out && n in v.into && OutList(v.g.edge, n, v.out[n]) && InList(v.g.edge, n, v.into[n])
  {
  }

  lemma OkParts(v: View, ratio: real)
    requires Ok(ratio)(v)
    ensures GoodAt(ratio)(v.g) && Indexed(v.nodeList, v.listId, v.g.node.Keys) && Listed(v.g, v.out, v.into)
  {
  }
}
