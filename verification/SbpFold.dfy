/** NodeElimination of a node between two different neighbours: the node and its two edges
    become one compound edge. */
module SbpFold {
  import opened Sums
  import opened SbpForest
  import opened SbpOwnership
  import opened SbpSteps
  import opened SbpRun
  import opened SbpHandDown
  import opened SbpTables
  import opened SbpLists
  import opened SbpState
  import opened SbpOps

  lemma TwoListed(g: Graph, out: map<Id, seq<Id>>, into: map<Id, seq<Id>>, n: Id, es: seq<Id>)
    requires Wired(g) && Listed(g, out, into) && n in g.node && es == into[n] + out[n] && |es| == 2
    ensures es[0] in g.edge && es[1] in g.edge && es[0] != es[1]
    ensures forall k :: k in g.edge ==> (Touches(g.edge[k], n) <==> k == es[0] || k == es[1])
    ensures |out[n]| == 0 <==> g.edge[es[0]].end == n && g.edge[es[1]].end == n
  {
    AtNode(g, out, into, n);
    assert es == [es[0], es[1]] && es[0] in es && es[1] in es;
    assert OutList(g.edge, n, out[n]) && InList(g.edge, n, into[n]);
    if |out[n]| == 0 {
      assert into[n] == es;
    } else {
      assert out[n][|out[n]| - 1] == es[1] && es[1] in out[n];
    }
  }

  /** The two edges of a node of degree two, those of edges_in_ first. */
  method TwoEdges(v: View, n: Id, ghost ratio: real) returns (a: Id, b: Id, p: Id, q: Id)
    requires Has(v, n) && Degree(v, n) == 2 && Ok(ratio)(v)
    ensures a in v.g.edge && b in v.g.edge && a != b
    ensures forall k :: k in v.g.edge ==> (Touches(v.g.edge[k], n) <==> k == a || k == b)
    ensures p == Other(v.g.edge[a], n) && q == Other(v.g.edge[b], n)
    ensures p in v.g.node && q in v.g.node && p != n && q != n
    ensures |v.out[n]| == 0 <==> v.g.edge[a].end == n && v.g.edge[b].end == n
  {
    hide Ok, GoodAt, Listed;
    OkParts(v, ratio);
    GoodWired(v.g, ratio);
    var es := v.into[n] + v.out[n];
    TwoListed(v.g, v.out, v.into, n, es);
    a, b := es[0], es[1];
    p, q := Other(v.g.edge[a], n), Other(v.g.edge[b], n);
    assert Touches(v.g.edge[a], n) && Touches(v.g.edge[b], n);
  }

  // ----- lists -----

  lemma PlacedAfter(g: Graph, out: map<Id, seq<Id>>, into: map<Id, seq<Id>>, n: Id, a: Id, b: Id,
                    out': map<Id, seq<Id>>, into': map<Id, seq<Id>>)
    requires b in g.edge && Placed(out, into, n, g.edge[b], b) && Cleared(out, out', n, a) && Cleared(into, into', n, a)
    ensures Placed(out', into', n, g.edge[b], b)
  {
  }

  function AfterFold(g: Graph, n: Id, a: Id, b: Id, e: Edge): Graph {
    var gone: set<Id> := {n};
    var ties: set<Id> := {a, b};
    Graph(g.node - gone, (g.edge - ties)[e.id := e])
  }

  /** w lists what v lists, without a and b, and with the new edge e if it belongs here. */
  ghost predicate Swapped(v: seq<Id>, w: seq<Id>, a: Id, b: Id, here: bool, e: Id) {
    Distinct(w) && forall k :: k in w <==> ((k in v && k != a && k != b) || (here && k == e))
  }

  lemma SwappedFrom(v: seq<Id>, v1: seq<Id>, v2: seq<Id>, a: Id, b: Id, here: bool, e: Id)
    requires Without(v, v1, a) && Without(v1, v2, b) && e !in v
    ensures Swapped(v, if here then v2 + [e] else v2, a, b, here, e)
  {
    if here { DistinctAppend(v2, [e]); }
  }

  lemma SwappedLists(edge: map<Id, Edge>, i: Id, a: Id, b: Id, e: Edge, o: seq<Id>, o': seq<Id>, t: seq<Id>,
                     t': seq<Id>)
    requires OutList(edge, i, o) && InList(edge, i, t) && e.id !in edge
    requires Swapped(o, o', a, b, i == e.start, e.id) && Swapped(t, t', a, b, i == e.end, e.id)
    ensures OutList((edge - {a, b})[e.id := e], i, o') && InList((edge - {a, b})[e.id := e], i, t')
  {
  }

  /** All lists but those of n, swapped. */
  ghost predicate Rehung(v: map<Id, seq<Id>>, w: map<Id, seq<Id>>, n: Id, a: Id, b: Id, at: Id, e: Id) {
    w.Keys == v.Keys - {n} && forall i :: i in v && i != n ==> Swapped(v[i], w[i], a, b, i == at, e)
  }

  lemma FoldListed(g: Graph, out: map<Id, seq<Id>>, into: map<Id, seq<Id>>, n: Id, a: Id, b: Id, e: Edge,
                   out': map<Id, seq<Id>>, into': map<Id, seq<Id>>)
    requires Listed(g, out, into) && e.id !in g.edge
    requires Rehung(out, out', n, a, b, e.start, e.id) && Rehung(into, into', n, a, b, e.end, e.id)
    ensures Listed(AfterFold(g, n, a, b, e), out', into')
  {
    hide Swapped, OutList, InList;
    var h := AfterFold(g, n, a, b, e);
    forall i | i in h.node ensures OutList(h.edge, i, out'[i]) && InList(h.edge, i, into'[i]) {
      SwappedLists(g.edge, i, a, b, e, out[i], out'[i], into[i], into'[i]);
    }
  }

  /** Take both edges of n out of the lists of its neighbours. */
  method LetGoTwo(v: View, n: Id, a: Id, b: Id, ghost ratio: real)
    returns (out: map<Id, seq<Id>>, into: map<Id, seq<Id>>, ghost out1: map<Id, seq<Id>>, ghost into1: map<Id, seq<Id>>)
    requires Ok(ratio)(v) && a in v.g.edge && b in v.g.edge && Touches(v.g.edge[a], n) && Touches(v.g.edge[b], n)
    requires Other(v.g.edge[a], n) in v.g.node && Other(v.g.edge[b], n) in v.g.node
    ensures Cleared(v.out, out1, n, a) && Cleared(out1, out, n, b)
    ensures Cleared(v.into, into1, n, a) && Cleared(into1, into, n, b)
  {
    hide Ok, GoodAt, OutList, InList, Without;
    OkParts(v, ratio);
    HasLive(v, ratio);
    ListedPlaced(v.g, v.out, v.into, n, a);
    ListedPlaced(v.g, v.out, v.into, n, b);
    var out', into' := LetGo(v.g.edge, v.out, v.into, n, a);
    PlacedAfter(v.g, v.out, v.into, n, a, b, out', into');
    out, into := LetGo(v.g.edge, out', into', n, b);
    out1, into1 := out', into';
  }

  /** The lists without n and its two edges, and with the compound edge. */
  method Rehook(v: View, n: Id, a: Id, b: Id, e: Edge, ghost ratio: real)
    returns (out: map<Id, seq<Id>>, into: map<Id, seq<Id>>)
    requires Ok(ratio)(v) && a in v.g.edge && b in v.g.edge && Touches(v.g.edge[a], n) && Touches(v.g.edge[b], n)
    requires e.id !in v.g.edge && e.start in v.g.node && e.end in v.g.node && e.start != n && e.end != n
    requires e.start == Other(v.g.edge[a], n) && e.end == Other(v.g.edge[b], n)
    ensures Listed(AfterFold(v.g, n, a, b, e), out, into)
  {
    hide Ok, GoodAt, OutList, InList, Without, Swapped, AfterFold;
    OkParts(v, ratio);
    HasLive(v, ratio);
    var out2, into2, out1, into1 := LetGoTwo(v, n, a, b, ratio);
    var gone: set<Id> := {n};
    out := out2[e.start := out2[e.start] + [e.id]] - gone;
    into := into2[e.end := into2[e.end] + [e.id]] - gone;
    Unlisted(v.g, v.out, v.into, e.id);
    Rehooked(v.out, out1, out2, n, a, b, e.id, e.start, out);
    Rehooked(v.into, into1, into2, n, a, b, e.id, e.end, into);
    FoldListed(v.g, v.out, v.into, n, a, b, e, out, into);
  }

  lemma Unlisted(g: Graph, out: map<Id, seq<Id>>, into: map<Id, seq<Id>>, e: Id)
    requires Listed(g, out, into) && e !in g.edge
    ensures (forall i :: i in out ==> e !in out[i]) && (forall i :: i in into ==> e !in into[i])
  {
  }

  lemma Rehooked(v: map<Id, seq<Id>>, v1: map<Id, seq<Id>>, v2: map<Id, seq<Id>>, n: Id, a: Id, b: Id, e: Id, at: Id,
                 w: map<Id, seq<Id>>)
    requires Cleared(v, v1, n, a) && Cleared(v1, v2, n, b) && at in v && at != n && forall i :: i in v ==> e !in v[i]
    requires w == v2[at := v2[at] + [e]] - {n}
    ensures Rehung(v, w, n, a, b, at, e)
  {
    forall i | i in v && i != n ensures Swapped(v[i], w[i], a, b, i == at, e) {
      SwappedFrom(v[i], v1[i], v2[i], a, b, i == at, e);
    }
  }

  // ----- the fold -----

  lemma FoldTaken(v: View, n: Id, a: Id, b: Id, e: Edge, w: View, ratio: real)
    requires n in v.g.node && a in v.g.edge && b in v.g.edge && a != b && e.id == v.next
    requires forall k :: k in v.g.edge ==> (Touches(v.g.edge[k], n) <==> k == a || k == b)
    requires var p, q := Other(v.g.edge[a], n), Other(v.g.edge[b], n);
             && p in v.g.node && q in v.g.node && p != q && e.start == p && e.end == q
             && e.body.Through? && e.body.mid == v.g.node[n] && e.body.first == v.g.edge[a]
                && e.body.second == v.g.edge[b]
             && ThroughFresh(e, PartsOf(v.g.node[p]), PartsOf(v.g.node[q]))
    requires w.g == AfterFold(v.g, n, a, b, e) && Lists(w) && w.next == v.next + 1 && w.final == v.final && Ok(ratio)(v)
    ensures Ok(ratio)(w) && Taken()(v, Fold(n, a, b, e), w) && Volume(w.g) < Volume(v.g)
  {
    hide Ok, Lists, Beyond, RangedGraph, Unused, ThroughFresh, Taken, FoldMoves, Volume;
    OkRest(v, ratio);
    NextUnused(v.g, v.next);
    NextFree(v, ratio);
    FoldIsStep(v, n, a, b, e, w);
    FoldAdds(v.g, n, a, b, e, w.g, v.next);
    FoldRanged(v.g, n, a, b, e, w.g, v.final);
    OkAfter(v, Fold(n, a, b, e), w, ratio);
    FoldVolume(v.g, n, a, b, e, w.g);
  }

  lemma FoldIsStep(v: View, n: Id, a: Id, b: Id, e: Edge, w: View)
    requires n in v.g.node && a in v.g.edge && b in v.g.edge && a != b && Unused(v.g, e.id) && e.id !in v.g.edge
    requires forall k :: k in v.g.edge ==> (Touches(v.g.edge[k], n) <==> k == a || k == b)
    requires var p, q := Other(v.g.edge[a], n), Other(v.g.edge[b], n);
             && p in v.g.node && q in v.g.node && p != q && e.start == p && e.end == q
             && e.body.Through? && e.body.mid == v.g.node[n] && e.body.first == v.g.edge[a]
                && e.body.second == v.g.edge[b]
             && ThroughFresh(e, PartsOf(v.g.node[p]), PartsOf(v.g.node[q]))
    requires w.g == AfterFold(v.g, n, a, b, e)
    ensures Taken()(v, Fold(n, a, b, e), w) && FoldMoves(v.g, n, a, b, e, w.g)
  {
    hide Unused, ThroughFresh, PartsOf;
    assert FoldStep(v.g, n, a, b, e, w.g);
  }

  lemma FoldVolume(g: Graph, n: Id, a: Id, b: Id, e: Edge, h: Graph)
    requires FoldMoves(g, n, a, b, e, h)
    ensures Volume(h) < Volume(g)
  {
    assert h.node.Keys == g.node.Keys - {n} && h.edge.Keys == g.edge.Keys - {a, b} + {e.id};
  }

  lemma NextUnused(g: Graph, next: Id)
    requires Beyond(g, next)
    ensures Unused(g, next)
  {
  }

  lemma NextFree(v: View, ratio: real)
    requires Ok(ratio)(v)
    ensures v.next !in v.g.edge && v.next !in v.g.node
  {
    NextUnused(v.g, v.next);
    assert Wired(v.g);
    assert forall k :: k in v.g.edge ==> v.g.edge[k].id == k && k in EdgeIds(v.g.edge[k]);
    assert forall i :: i in v.g.node ==> v.g.node[i].id == i && i in NodeIds(v.g.node[i]);
  }

  method FoldNode(v: View, n: Id, a: Id, b: Id, ghost ratio: real) returns (w: View, ghost step: Step)
    requires Has(v, n) && a in v.g.edge && b in v.g.edge && a != b
    requires forall k :: k in v.g.edge ==> (Touches(v.g.edge[k], n) <==> k == a || k == b)
    requires var p, q := Other(v.g.edge[a], n), Other(v.g.edge[b], n);
             p in v.g.node && q in v.g.node && p != q && p != n && q != n
    requires Ok(ratio)(v)
    ensures Ok(ratio)(w) && Taken()(v, step, w) && Volume(w.g) < Volume(v.g) && w.g.node.Keys == v.g.node.Keys - {n}
    ensures Before(v, n, w) && w.final == Follow(step, v.final)
  {
    hide Ok, GoodAt, Taken, Listed, Indexed, Volume, ShapeNode, ThroughFresh, PartsOf, PartsOk, Below;
    OkParts(v, ratio);
    var p, q := Other(v.g.edge[a], n), Other(v.g.edge[b], n);
    GoodNode(v.g, ratio, n);
    GoodNode(v.g, ratio, p);
    GoodNode(v.g, ratio, q);
    TreeId(v.g.node[p]);
    TreeId(v.g.node[q]);
    NextFree(v, ratio);
    var e := SummarizeThrough(v.next, v.g.node[n], v.g.edge[a], v.g.edge[b], PartsOf(v.g.node[p]),
        PartsOf(v.g.node[q]));
    var out, into := Rehook(v, n, a, b, e, ratio);
    IndexedKeys(v.nodeList, v.listId, v.g.node.Keys);
    var list, at := RemoveFromNodeList(v.nodeList, v.listId, n);
    w := View(list, at, AfterFold(v.g, n, a, b, e), out, into, v.final, v.next + 1);
    assert w.g.node.Keys == v.g.node.Keys - {n};
    FoldTaken(v, n, a, b, e, w, ratio);
    step := Fold(n, a, b, e);
  }

  lemma TreeId(n: Node)
    ensures PartsOf(n).id == n.id
  {
  }

  lemma IndexedKeys(list: seq<Id>, at: map<Id, nat>, ids: set<Id>)
    requires Indexed(list, at, ids)
    ensures at.Keys == ids
  {
  }
}
