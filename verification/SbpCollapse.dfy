/** EdgeElimination: the edges between a node and each of its neighbours, in either direction,
    become one compound edge. */
module SbpCollapse {
  import opened Sums
  import opened SbpForest
  import opened SbpSteps
  import opened SbpRun
  import opened SbpHandDown
  import opened SbpTables
  import opened SbpLists
  import opened SbpState
  import opened SbpOps
  import opened SbpFold

  /** k, out of n, is the only edge between its two ends. */
  ghost predicate Lone(g: Graph, n: Id, k: Id) {
    k in g.edge && forall l :: l in g.edge && Between(g.edge[l], n, g.edge[k].end) ==> l == k
  }

  /** So are the first i edges out of n. */
  ghost predicate LoneUpTo(g: Graph, list: seq<Id>, n: Id, i: nat) {
    i <= |list| && forall p :: 0 <= p < i ==> Lone(g, n, list[p])
  }

  // ----- collecting the edges between n and m -----

  /** ks are the edges between n and m, each once. */
  ghost predicate AllBetween(edge: map<Id, Edge>, ks: seq<Id>, n: Id, m: Id) {
    Distinct(ks) && forall k :: k in ks <==> k in edge && Between(edge[k], n, m)
  }

  lemma Collected(g: Graph, n: Id, m: Id, i: nat, stop: nat, outs: seq<Id>, backs: seq<Id>, found: seq<Id>,
                  found': seq<Id>)
    requires OutList(g.edge, n, outs) && OutList(g.edge, m, backs) && n != m && i < |outs| && g.edge[outs[i]].end == m
    requires LoneUpTo(g, outs, n, i) && stop == i + 1
    requires Distinct(found) && forall k :: k in found <==> k in outs[stop..] && g.edge[k].end == m
    requires Distinct(found') && forall k :: k in found' <==> k in backs[0..] && g.edge[k].end == n
    ensures AllBetween(g.edge, found + found' + [outs[i]], n, m)
  {
    var ks := found + found' + [outs[i]];
    assert backs[0..] == backs;
    forall k | k in found ensures k !in found' { assert k in outs; assert g.edge[k].start == n; }
    DistinctAppend(found, found');
    assert outs[i] in outs;
    forall k | k in found + found' ensures k != outs[i] {
      if k in found {
        var p :| 0 <= p < |outs[stop..]| && outs[stop..][p] == k;
        assert outs[stop + p] == k;
      }
    }
    DistinctAppend(found + found', [outs[i]]);
    forall k ensures k in ks <==> k in g.edge && Between(g.edge[k], n, m) {
      if k in g.edge && g.edge[k].start == n && g.edge[k].end == m {
        assert k in outs;
        var p :| 0 <= p < |outs| && outs[p] == k;
        if p < i {
          assert Lone(g, n, outs[p]);
          assert Between(g.edge[outs[i]], n, g.edge[outs[p]].end);
        } else if p > i {
          assert outs[stop..][p - stop] == k;
        }
      }
      if k in found { assert k in outs; }
    }
  }

  // ----- lists -----

  function AfterCollapse(g: Graph, ks: seq<Id>, e: Edge): Graph {
    var ties: set<Id> := Elems(ks);
    Graph(g.node, (g.edge - ties)[e.id := e])
  }

  /** w lists what v lists, except ks, and with the new edge e if it belongs here. */
  ghost predicate Thinned(v: seq<Id>, w: seq<Id>, ks: seq<Id>, here: bool, e: Id) {
    Distinct(w) && forall k :: k in w <==> ((k in v && k !in ks) || (here && k == e))
  }

  lemma ThinnedLists(g: Graph, j: Id, ks: seq<Id>, e: Edge, o: seq<Id>, o': seq<Id>, t: seq<Id>, t': seq<Id>)
    requires OutList(g.edge, j, o) && InList(g.edge, j, t) && e.id !in g.edge
    requires Thinned(o, o', ks, j == e.start, e.id) && Thinned(t, t', ks, j == e.end, e.id)
    ensures OutList(AfterCollapse(g, ks, e).edge, j, o') && InList(AfterCollapse(g, ks, e).edge, j, t')
  {
  }

  /** All lists, thinned. */
  ghost predicate AllThinned(v: map<Id, seq<Id>>, w: map<Id, seq<Id>>, ks: seq<Id>, at: Id, e: Id) {
    w.Keys == v.Keys && forall j :: j in v ==> Thinned(v[j], w[j], ks, j == at, e)
  }

  lemma CollapseListed(g: Graph, out: map<Id, seq<Id>>, into: map<Id, seq<Id>>, ks: seq<Id>, e: Edge,
                       out': map<Id, seq<Id>>, into': map<Id, seq<Id>>)
    requires Listed(g, out, into) && e.id !in g.edge
    requires AllThinned(out, out', ks, e.start, e.id) && AllThinned(into, into', ks, e.end, e.id)
    ensures Listed(AfterCollapse(g, ks, e), out', into')
  {
    hide Thinned, OutList, InList;
    var h := AfterCollapse(g, ks, e);
    forall j | j in h.node ensures OutList(h.edge, j, out'[j]) && InList(h.edge, j, into'[j]) {
      ThinnedLists(g, j, ks, e, out[j], out'[j], into[j], into'[j]);
    }
  }

  /** The four lists that change, in terms of what the sweeps return. */
  lemma ThinOut(edge: map<Id, Edge>, n: Id, m: Id, i: nat, stop: nat, outs: seq<Id>, rest: seq<Id>, ks: seq<Id>, e: Id)
    requires OutList(edge, n, outs) && AllBetween(edge, ks, n, m) && n != m && i < |outs| && outs[i] in ks && e !in edge
    requires (forall p :: 0 <= p < i ==> outs[p] !in ks)
    requires stop == i + 1 && Distinct(rest) && stop <= |rest| && rest[..stop] == outs[..stop]
    requires forall k :: k in rest[stop..] <==> k in outs[stop..] && edge[k].end != m
    ensures Thinned(outs, rest[i := e], ks, true, e)
  {
    var w, a, b, front := rest[i := e], rest[stop..], outs[stop..], outs[..i];
    SlotSplit(outs, rest, i, stop);
    assert w == front + [e] + a;
    forall k ensures k in w <==> (k in outs && k !in ks) || k == e {
      assert k in front ==> k !in ks by { if k in front { var p :| 0 <= p < i && outs[..i][p] == k; } }
      assert k in a <==> k in b && edge[k].end != m;
    }
    forall k | k in rest ensures k in outs { assert k in front || k == outs[i] || k in a; }
    ReplacedDistinct(rest, i, e);
  }

  lemma SlotSplit(outs: seq<Id>, rest: seq<Id>, i: nat, stop: nat)
    requires stop == i + 1 && stop <= |outs| && stop <= |rest| && rest[..stop] == outs[..stop]
    ensures outs == outs[..i] + [outs[i]] + outs[stop..] && rest == outs[..i] + [outs[i]] + rest[stop..]
  {
    assert rest[..stop] == outs[..stop] == outs[..i] + [outs[i]];
    assert rest == rest[..stop] + rest[stop..];
  }

  lemma ReplacedDistinct(rest: seq<Id>, i: nat, e: Id)
    requires Distinct(rest) && i < |rest| && e !in rest
    ensures Distinct(rest[i := e])
  {
    forall p | 0 <= p < |rest| ensures rest[p] != e { assert rest[p] in rest; }
  }

  lemma ThinBack(edge: map<Id, Edge>, n: Id, m: Id, backs: seq<Id>, rest: seq<Id>, ks: seq<Id>, e: Id)
    requires OutList(edge, m, backs) && AllBetween(edge, ks, n, m) && n != m
    requires Distinct(rest) && forall k :: k in rest[0..] <==> k in backs[0..] && edge[k].end != n
    ensures Thinned(backs, rest, ks, false, e)
  {
    assert rest[0..] == rest && backs[0..] == backs;
  }

  lemma ThinIn(edge: map<Id, Edge>, n: Id, m: Id, ins: seq<Id>, rest: seq<Id>, ks: seq<Id>, here: bool, e: Id)
    requires InList(edge, n, ins) && AllBetween(edge, ks, n, m) && n != m && e !in edge
    requires Distinct(rest) && forall k :: k in rest <==> k in ins && edge[k].start != m
    ensures Thinned(ins, if here then rest + [e] else rest, ks, here, e)
  {
    if here { DistinctAppend(rest, [e]); }
  }

  lemma ThinOther(edge: map<Id, Edge>, n: Id, m: Id, j: Id, o: seq<Id>, t: seq<Id>, ks: seq<Id>, e: Id)
    requires OutList(edge, j, o) && InList(edge, j, t) && AllBetween(edge, ks, n, m) && j != n && j != m
    ensures Thinned(o, o, ks, false, e) && Thinned(t, t, ks, false, e)
  {
  }

  // ----- one neighbour -----

  lemma CollapseTaken(v: View, n: Id, m: Id, ks: seq<Id>, e: Edge, w: View, ratio: real)
    requires |ks| >= 2 && (forall k :: k in ks ==> k in v.g.edge) && AllBetween(v.g.edge, ks, n, m)
    requires n in v.g.node && m in v.g.node && n != m && e.id == v.next && e.start == n && e.end == m
    requires e.body == Parallel(EdgesOf(v.g.edge, ks))
    requires var s, t := PartsOf(v.g.node[n]), PartsOf(v.g.node[m]);
             && Sized(e.cost, Size(s), Size(t))
             && forall i, j :: 0 <= i < Size(s) && 0 <= j < Size(t) ==>
                e.cost[i][j] == ListCost(e.body.list, s, t, i, j)
    requires w.g == AfterCollapse(v.g, ks, e) && Lists(w) && w.next == v.next + 1 && w.final == v.final && Ok(ratio)(v)
    ensures Ok(ratio)(w) && Taken()(v, Collapse(ks, e), w) && Volume(w.g) < Volume(v.g)
  {
    hide Ok, Lists, Beyond, RangedGraph, Unused, ListCost, Taken, CollapseMoves, Volume;
    OkRest(v, ratio);
    NextUnused(v.g, v.next);
    NextFree(v, ratio);
    CollapseIsStep(v, n, m, ks, e, w);
    CollapseAdds(v.g, ks, e, w.g, v.next);
    CollapseRanged(v.g, ks, e, w.g, v.final);
    OkAfter(v, Collapse(ks, e), w, ratio);
    CollapseVolume(v.g, ks, e, w.g);
  }

  lemma CollapseVolume(g: Graph, ks: seq<Id>, e: Edge, h: Graph)
    requires CollapseMoves(g, ks, e, h) && |ks| >= 2
    ensures Volume(h) < Volume(g)
  {
    assert h.edge.Keys == g.edge.Keys - Elems(ks) + {e.id};
    Fewer(g.edge.Keys, ks, e.id);
  }

  lemma CollapseIsStep(v: View, n: Id, m: Id, ks: seq<Id>, e: Edge, w: View)
    requires |ks| >= 2 && (forall k :: k in ks ==> k in v.g.edge) && AllBetween(v.g.edge, ks, n, m)
    requires n in v.g.node && m in v.g.node && n != m && e.start == n && e.end == m && Unused(v.g, e.id)
             && e.id !in v.g.edge
    requires e.body == Parallel(EdgesOf(v.g.edge, ks))
    requires var s, t := PartsOf(v.g.node[n]), PartsOf(v.g.node[m]);
             && Sized(e.cost, Size(s), Size(t))
             && forall i, j :: 0 <= i < Size(s) && 0 <= j < Size(t) ==>
                e.cost[i][j] == ListCost(e.body.list, s, t, i, j)
    requires w.g == AfterCollapse(v.g, ks, e)
    ensures Taken()(v, Collapse(ks, e), w) && CollapseMoves(v.g, ks, e, w.g)
  {
    hide Unused, ListCost;
    assert CollapseStep(v.g, ks, e, w.g);
  }

  lemma Fewer(all: set<Id>, ks: seq<Id>, e: Id)
    requires Distinct(ks) && |ks| >= 2 && forall k :: k in ks ==> k in all
    ensures |all - Elems(ks) + {e}| < |all|
  {
    var a, b := ks[0], ks[1];
    assert a in ks && b in ks && a != b;
    var rest := all - Elems(ks);
    assert rest <= all - {a, b};
    assert all == (all - {a, b}) + {a, b} && |{a, b}| == 2;
    NoLarger(rest, all - {a, b});
  }

  /** The lists after n's i-th outgoing edge and all edges parallel to it became e. */
  lemma Swept(g: Graph, out: map<Id, seq<Id>>, into: map<Id, seq<Id>>, n: Id, m: Id, i: nat, stop: nat, ks: seq<Id>,
              e: Id,
              rest: seq<Id>, rest': seq<Id>, out': map<Id, seq<Id>>)
    requires Listed(g, out, into) && n in g.node && m in g.node && n != m && e !in g.edge
             && AllBetween(g.edge, ks, n, m)
    requires i < |out[n]| && stop == i + 1 && out[n][i] in ks && (forall p :: 0 <= p < i ==> out[n][p] !in ks)
    requires Distinct(rest) && stop <= |rest| && rest[..stop] == out[n][..stop]
    requires forall k :: k in rest[stop..] <==> k in out[n][stop..] && g.edge[k].end != m
    requires Distinct(rest') && forall k :: k in rest'[0..] <==> k in out[m][0..] && g.edge[k].end != n
    requires out' == out[n := rest[i := e]][m := rest']
    ensures AllThinned(out, out', ks, n, e)
  {
    hide OutList, InList, AllBetween, Thinned;
    ThinOut(g.edge, n, m, i, stop, out[n], rest, ks, e);
    ThinBack(g.edge, n, m, out[m], rest', ks, e);
    forall j | j in out && j != n && j != m ensures Thinned(out[j], out'[j], ks, false, e) {
      ThinOther(g.edge, n, m, j, out[j], into[j], ks, e);
    }
  }

  lemma SweptIn(g: Graph, out: map<Id, seq<Id>>, into: map<Id, seq<Id>>, n: Id, m: Id, ks: seq<Id>, e: Id,
                inM: seq<Id>, inN: seq<Id>,
                into': map<Id, seq<Id>>)
    requires Listed(g, out, into) && n in g.node && m in g.node && n != m && e !in g.edge
             && AllBetween(g.edge, ks, n, m)
    requires Distinct(inM) && forall k :: k in inM <==> k in into[m] && g.edge[k].start != n
    requires Distinct(inN) && forall k :: k in inN <==> k in into[n] && g.edge[k].start != m
    requires into' == into[n := inN][m := inM + [e]]
    ensures AllThinned(into, into', ks, m, e)
  {
    hide OutList, InList, AllBetween, Thinned;
    ThinIn(g.edge, n, m, into[n], inN, ks, false, e);
    BetweenBoth(g.edge, ks, n, m);
    ThinIn(g.edge, m, n, into[m], inM, ks, true, e);
    forall j | j in into && j != n && j != m ensures Thinned(into[j], into'[j], ks, false, e) {
      ThinOther(g.edge, n, m, j, out[j], into[j], ks, e);
    }
  }

  lemma BetweenBoth(edge: map<Id, Edge>, ks: seq<Id>, n: Id, m: Id)
    requires AllBetween(edge, ks, n, m)
    ensures AllBetween(edge, ks, m, n)
  {
  }

  /** No edge before slot i joins n to the end of the edge in slot i. */
  lemma Earlier(g: Graph, outs: seq<Id>, n: Id, i: nat, ks: seq<Id>, m: Id)
    requires OutList(g.edge, n, outs) && LoneUpTo(g, outs, n, i) && i < |outs| && g.edge[outs[i]].end == m
             && AllBetween(g.edge, ks, n, m)
    ensures forall p :: 0 <= p < i ==> outs[p] !in ks
  {
    forall p | 0 <= p < i ensures outs[p] !in ks {
      assert outs[p] in outs && outs[i] in outs && Lone(g, n, outs[p]);
      if g.edge[outs[p]].end == m { assert Between(g.edge[outs[i]], n, g.edge[outs[p]].end); }
    }
  }

  lemma LoneAfter(g: Graph, n: Id, m: Id, i: nat, outs: seq<Id>, ks: seq<Id>, e: Edge, outs': seq<Id>)
    requires OutList(g.edge, n, outs) && LoneUpTo(g, outs, n, i) && i < |outs| && g.edge[outs[i]].end == m && n != m
    requires AllBetween(g.edge, ks, n, m) && e.id !in g.edge && e.start == n && e.end == m
    requires i < |outs'| && outs'[..i] == outs[..i] && outs'[i] == e.id
    ensures LoneUpTo(AfterCollapse(g, ks, e), outs', n, i + 1)
  {
    var h := AfterCollapse(g, ks, e);
    Earlier(g, outs, n, i, ks, m);
    forall p | 0 <= p < i ensures Lone(h, n, outs'[p]) {
      assert outs'[..i][p] == outs[..i][p];
      assert Lone(g, n, outs[p]) && outs[p] in outs && outs[p] !in ks;
      assert g.edge[outs[p]].end != m;
    }
    assert Lone(h, n, e.id);
  }

  /** Nothing was found: the edge in slot i is alone. */
  lemma LoneHere(g: Graph, n: Id, m: Id, i: nat, outs: seq<Id>)
    requires OutList(g.edge, n, outs) && LoneUpTo(g, outs, n, i) && i < |outs| && g.edge[outs[i]].end == m
    requires AllBetween(g.edge, [outs[i]], n, m)
    ensures LoneUpTo(g, outs, n, i + 1)
  {
    assert outs[i] in outs;
    assert forall l :: l in [outs[i]] ==> l == outs[i];
  }

  // ----- the operation -----

  /** Only edges and their lists may differ. */
  ghost predicate SameNodes(v: View, w: View) {
    w.nodeList == v.nodeList && w.listId == v.listId && w.g.node == v.g.node && w.out.Keys == v.out.Keys
        && w.into.Keys == v.into.Keys
  }

  lemma LiveEdge(v: View, ratio: real, n: Id, i: nat)
    requires Ok(ratio)(v) && n in v.g.node && n in v.out && i < |v.out[n]|
    ensures var k := v.out[n][i];
            k in v.g.edge && v.g.edge[k].start == n && v.g.edge[k].end in v.g.node && v.g.edge[k].end != n
    ensures OutList(v.g.edge, n, v.out[n])
  {
    assert v.out[n][i] in v.out[n];
    assert OutList(v.g.edge, n, v.out[n]);
  }

  /** rest is list without the edges to m behind slot stop. */
  ghost predicate SweptOut(edge: map<Id, Edge>, list: seq<Id>, rest: seq<Id>, stop: nat, m: Id) {
    && stop <= |list| && stop <= |rest| && Distinct(rest) && rest[..stop] == list[..stop]
    && forall k :: k in rest[stop..] <==> k in list[stop..] && k in edge && edge[k].end != m
  }

  ghost predicate Bundled(v: View, n: Id, m: Id, i: nat, ks: seq<Id>, rest: seq<Id>, step: Step, w: View) {
    && v.next !in v.g.edge && step.Collapse? && step.e.start == n && step.e.end == m && step.e.id == v.next
    && w.g == AfterCollapse(v.g, ks, step.e) && i < |rest| && n in w.out && w.out[n] == rest[i := v.next]
  }

  /** The lists with e in place of ks. */
  method Relist(v: View, n: Id, m: Id, i: nat, ks: seq<Id>, e: Id, rest: seq<Id>, rest': seq<Id>, ghost ratio: real)
    returns (out: map<Id, seq<Id>>, into: map<Id, seq<Id>>)
    requires n in v.out && n in v.g.node && m in v.g.node && m in v.out && n != m && i < |v.out[n]| && e !in v.g.edge
    requires AllBetween(v.g.edge, ks, n, m) && v.out[n][i] in ks && (forall p :: 0 <= p < i ==> v.out[n][p] !in ks)
    requires SweptOut(v.g.edge, v.out[n], rest, i + 1, m) && SweptOut(v.g.edge, v.out[m], rest', 0, n)
    requires Ok(ratio)(v)
    ensures AllThinned(v.out, out, ks, n, e) && AllThinned(v.into, into, ks, m, e)
    ensures i < |rest| && n in out && out[n] == rest[i := e] && out.Keys == v.out.Keys && into.Keys == v.into.Keys
  {
    hide Ok, AllThinned, GoodAt, Listed, Indexed;
    OkParts(v, ratio);
    ListsOf(v, ratio, n);
    ListsOf(v, ratio, m);
    var inM := DropFrom(v.g.edge, v.into[m], n);
    var inN := DropFrom(v.g.edge, v.into[n], m);
    out := v.out[n := rest[i := e]][m := rest'];
    into := v.into[n := inN][m := inM + [e]];
    Swept(v.g, v.out, v.into, n, m, i, i + 1, ks, e, rest, rest', out);
    SweptIn(v.g, v.out, v.into, n, m, ks, e, inM, inN, into);
  }

  /** The edge that replaces ks, and the lists with it in their place. */
  method Bundle(v: View, n: Id, m: Id, i: nat, ks: seq<Id>, rest: seq<Id>, rest': seq<Id>, ghost ratio: real)
    returns (w: View, ghost step: Step)
    requires n in v.out && n in v.g.node && m in v.g.node && m in v.out && n != m && |ks| >= 2 && i < |v.out[n]|
    requires AllBetween(v.g.edge, ks, n, m) && v.out[n][i] in ks && (forall p :: 0 <= p < i ==> v.out[n][p] !in ks)
    requires SweptOut(v.g.edge, v.out[n], rest, i + 1, m) && SweptOut(v.g.edge, v.out[m], rest', 0, n)
    requires Ok(ratio)(v)
    ensures Ok(ratio)(w) && Taken()(v, step, w) && Volume(w.g) < Volume(v.g) && SameNodes(v, w)
    ensures Bundled(v, n, m, i, ks, rest, step, w) && w.final == Follow(step, v.final)
  {
    hide Ok, Lists, Taken, Volume, PartsOf, PartsOk, Size, ListCost, AllThinned, GoodAt, ShapeNode, SweptOut, Listed,
        Indexed;
    OkParts(v, ratio);
    NextFree(v, ratio);
    GoodNode(v.g, ratio, n);
    GoodNode(v.g, ratio, m);
    TreeId(v.g.node[n]);
    TreeId(v.g.node[m]);
    var e := SummarizeParallel(v.next, EdgesOf(v.g.edge, ks), PartsOf(v.g.node[n]), PartsOf(v.g.node[m]));
    var out, into := Relist(v, n, m, i, ks, e.id, rest, rest', ratio);
    w := View(v.nodeList, v.listId, AfterCollapse(v.g, ks, e), out, into, v.final, v.next + 1);
    BundleLists(v, ks, e, w);
    CollapseTaken(v, n, m, ks, e, w, ratio);
    step := Collapse(ks, e);
  }

  lemma BundleLists(v: View, ks: seq<Id>, e: Edge, w: View)
    requires Listed(v.g, v.out, v.into) && Indexed(v.nodeList, v.listId, v.g.node.Keys) && e.id !in v.g.edge
    requires AllThinned(v.out, w.out, ks, e.start, e.id) && AllThinned(v.into, w.into, ks, e.end, e.id)
    requires w.nodeList == v.nodeList && w.listId == v.listId && w.g == AfterCollapse(v.g, ks, e)
    ensures Lists(w)
  {
    CollapseListed(v.g, v.out, v.into, ks, e, w.out, w.into);
  }

  lemma SweptOutFrom(edge: map<Id, Edge>, list: seq<Id>, rest: seq<Id>, stop: nat, m: Id)
    requires stop <= |list| && stop <= |rest| && Distinct(rest) && rest[..stop] == list[..stop]
             && forall k :: k in list ==> k in edge
    requires forall k :: k in rest[stop..] <==> k in list[stop..] && edge[k].end != m
    ensures SweptOut(edge, list, rest, stop, m)
  {
  }

  method CollapseAt(v: View, n: Id, i: nat, ghost ratio: real) returns (w: View, num: nat, ghost t: Trace)
    requires Has(v, n) && i < |v.out[n]| && LoneUpTo(v.g, v.out[n], n, i) && Ok(ratio)(v)
    ensures Ok(ratio)(w) && Moves(v, t, w) && SameNodes(v, w)
    ensures n in w.out && i < |w.out[n]| && LoneUpTo(w.g, w.out[n], n, i + 1)
    ensures if num == 0 then w == v else Volume(w.g) < Volume(v.g)
  {
    hide Ok, Taken, Run, Volume, SweptOut, AllBetween, LoneUpTo, AfterCollapse, Listed;
    LiveEdge(v, ratio, n, i);
    HasLive(v, ratio);
    var k := v.out[n][i];
    var m := v.g.edge[k].end;
    ListsOf(v, ratio, m);
    var found, rest := TakeParallel(v.g.edge, v.out[n], m, i + 1);
    var found', rest' := TakeParallel(v.g.edge, v.out[m], n, 0);
    Collected(v.g, n, m, i, i + 1, v.out[n], v.out[m], found, found');
    num := |found| + |found'|;
    var ks := found + found' + [k];
    if num == 0 {
      w, t := v, Still(v.g);
      assert ks == [k];
      LoneHere(v.g, n, m, i, v.out[n]);
      return;
    }
    Earlier(v.g, v.out[n], n, i, ks, m);
    SweptOutFrom(v.g.edge, v.out[n], rest, i + 1, m);
    SweptOutFrom(v.g.edge, v.out[m], rest', 0, n);
    assert k in ks;
    ghost var step;
    w, step := Bundle(v, n, m, i, ks, rest, rest', ratio);
    t := Once(v.g, step, w.g);
    MovesOnce(v, step, w);
    assert w.out[n][..i] == v.out[n][..i];
    LoneAfter(v.g, n, m, i, v.out[n], ks, step.e, w.out[n]);
  }

  /** SbpGraph::EdgeElimination. */
  method EdgeElimination(v: View, n: Id, ghost ratio: real) returns (w: View, num: nat, ghost t: Trace)
    requires Has(v, n) && Ok(ratio)(v)
    ensures Ok(ratio)(w) && Moves(v, t, w) && SameNodes(v, w)
    ensures n in w.out && LoneUpTo(w.g, w.out[n], n, |w.out[n]|)
    ensures if num == 0 then w == v else Volume(w.g) < Volume(v.g)
  {
    hide Ok, Run, Volume, LoneUpTo;
    w, num, t := v, 0, Still(v.g);
    LoneNone(v.g, v.out[n], n);
    var i := 0;
    while i < |w.out[n]|
      invariant Has(w, n) && i <= |w.out[n]| && LoneUpTo(w.g, w.out[n], n, i)
      invariant Ok(ratio)(w) && Moves(v, t, w) && SameNodes(v, w)
      invariant if num == 0 then w == v else Volume(w.g) < Volume(v.g)
      decreases Volume(w.g), |w.out[n]| - i
    {
      ghost var u, before := w, t;
      var more;
      ghost var step;
      w, more, step := CollapseAt(w, n, i, ratio);
      num := num + more;
      MovesThen(v, before, u, step, w);
      t := Then(before, step);
      i := i + 1;
    }
  }

  lemma LoneNone(g: Graph, list: seq<Id>, n: Id)
    ensures LoneUpTo(g, list, n, 0)
  {
  }
}
