/** NodeMerging: two nodes become one node with a signature for each kept pair of theirs. */
module SbpMerging {
  import opened Wrappers
  import opened Sums
  import opened SbpForest
  import opened SbpSteps
  import opened SbpRun
  import opened SbpHandDown
  import opened SbpTables
  import opened SbpLists
  import opened SbpState
  import opened SbpOps
  import opened SbpFold

  /** There is at most one edge between f and s. */
  ghost predicate AtMostOne(g: Graph, f: Id, s: Id) {
    forall k, l :: k in g.edge && l in g.edge && Between(g.edge[k], f, s) && Between(g.edge[l], f, s) ==> k == l
  }

  // ----- the edge between the two nodes -----

  method FindCommon(edge: map<Id, Edge>, ins: seq<Id>, outs: seq<Id>, f: Id, s: Id) returns (common: Option<Id>)
    requires InList(edge, f, ins) && OutList(edge, f, outs)
    ensures common.Some? ==> common.value in edge && Between(edge[common.value], f, s)
    ensures common.None? ==> forall k :: k in edge ==> !Between(edge[k], f, s)
  {
    common := None;
    for i := 0 to |ins|
      invariant common.Some? ==> common.value in edge && Between(edge[common.value], f, s)
      invariant common.None? ==> forall p :: 0 <= p < i ==> edge[ins[p]].start != s
    {
      assert ins[i] in ins;
      if edge[ins[i]].start == s { common := Some(ins[i]); }
    }
    for i := 0 to |outs|
      invariant common.Some? ==> common.value in edge && Between(edge[common.value], f, s)
      invariant common.None? ==> forall p :: 0 <= p < |ins| ==> edge[ins[p]].start != s
      invariant common.None? ==> forall p :: 0 <= p < i ==> edge[outs[p]].end != s
    {
      assert outs[i] in outs;
      if edge[outs[i]].end == s { common := Some(outs[i]); }
    }
    forall k | k in edge && common.None? ensures !Between(edge[k], f, s) {
      if edge[k].end == f { assert k in ins; }
      if edge[k].start == f { assert k in outs; }
    }
  }

  // ----- re-indexing the edges of the two nodes -----

  function Across(e: Edge): nat { if |e.cost| > 0 then |e.cost[0]| else 0 }

  /** Every table the edge has of its own is as large as its cost table, and none is empty. */
  ghost predicate Boxy(e: Edge) { |e.cost| > 0 && Across(e) > 0 && SizedEdge(e, |e.cost|, Across(e)) }

  ghost predicate Bounded(pick: seq<Sig>, bound: nat) { |pick| > 0 && forall i :: 0 <= i < |pick| ==> pick[i] < bound }

  /** d is e with the end m and its columns picked. */
  ghost predicate NewEnd(e: Edge, d: Edge, m: Id, cols: seq<Sig>) {
    Copied(e, d, e.start, m, Identity(|e.cost|), cols) && |d.cost| == |e.cost| && Across(d) == |cols| && Boxy(d)
  }

  /** d is e with the start m and its rows picked. */
  ghost predicate NewStart(e: Edge, d: Edge, m: Id, rows: seq<Sig>) {
    Copied(e, d, m, e.end, rows, Identity(Across(e))) && |d.cost| == |rows| && Across(d) == Across(e) && Boxy(d)
  }

  method RedirectEnds(edge: map<Id, Edge>, ks: seq<Id>, m: Id, cols: seq<Sig>) returns (r: map<Id, Edge>)
    requires Distinct(ks) && forall k :: k in ks ==> k in edge && Boxy(edge[k]) && Bounded(cols, Across(edge[k]))
    ensures r.Keys == edge.Keys && forall k :: k in edge ==>
            if k in ks then NewEnd(edge[k], r[k], m, cols) else r[k] == edge[k]
  {
    r := edge;
    for i := 0 to |ks|
      invariant r.Keys == edge.Keys
      invariant forall k :: k in edge ==> if k in ks[..i] then NewEnd(edge[k], r[k], m, cols) else r[k] == edge[k]
    {
      hide Copied, SizedEdge;
      var k := ks[i];
      assert k in ks && k !in ks[..i];
      assert Boxy(edge[k]) && Bounded(cols, Across(edge[k]));
      assert ks[..i + 1] == ks[..i] + [k];
      var d := DuplicateEnd(r[k], m, cols, Across(edge[k]));
      NowBoxy(d, |edge[k].cost|, |cols|);
      r := r[k := d];
    }
    assert ks[..|ks|] == ks;
  }

  method RedirectStarts(edge: map<Id, Edge>, ks: seq<Id>, m: Id, rows: seq<Sig>) returns (r: map<Id, Edge>)
    requires Distinct(ks) && forall k :: k in ks ==> k in edge && Boxy(edge[k]) && Bounded(rows, |edge[k].cost|)
    ensures r.Keys == edge.Keys && forall k :: k in edge ==>
            if k in ks then NewStart(edge[k], r[k], m, rows) else r[k] == edge[k]
  {
    r := edge;
    for i := 0 to |ks|
      invariant r.Keys == edge.Keys
      invariant forall k :: k in edge ==> if k in ks[..i] then NewStart(edge[k], r[k], m, rows) else r[k] == edge[k]
    {
      hide Copied, SizedEdge;
      var k := ks[i];
      assert k in ks && k !in ks[..i];
      assert Boxy(edge[k]) && Bounded(rows, |edge[k].cost|);
      assert ks[..i + 1] == ks[..i] + [k];
      var d := DuplicateStart(r[k], m, rows, Across(edge[k]));
      NowBoxy(d, |rows|, Across(edge[k]));
      r := r[k := d];
    }
    assert ks[..|ks|] == ks;
  }

  lemma NowBoxy(d: Edge, rows: nat, columns: nat)
    requires SizedEdge(d, rows, columns) && rows > 0 && columns > 0
    ensures |d.cost| == rows && Across(d) == columns && Boxy(d)
  {
  }

  // ----- the four passes over the edges of f and of s -----

  /** The merged node before its costs and inner edge are known. */
  function Stub(m: Id, f: Node, s: Node, pairs: seq<(Sig, Sig)>): Node { Node(m, [], Merged(f, s, pairs, None), []) }

  lemma FourPasses(e0: Edge, e1: Edge, e2: Edge, e3: Edge, e4: Edge, f: Id, s: Id, stub: Node, width: nat)
    requires f != s && e0.start != e0.end && Boxy(e0) && stub.body.Merged? && |stub.body.pairs| > 0 && stub.id != f
             && stub.id != s
    requires var first, second := Firsts(stub.body.pairs), Seconds(stub.body.pairs);
             && (if e0.end == f then NewEnd(e0, e1, stub.id, first) else e1 == e0)
             && (if e0.start == f then NewStart(e1, e2, stub.id, first) else e2 == e1)
             && (if e0.end == s then NewEnd(e2, e3, stub.id, second) else e3 == e2)
             && (if e0.start == s then NewStart(e3, e4, stub.id, second) else e4 == e3)
    requires width == if e0.start == f || e0.start == s then Across(e0) else |e0.cost|
    ensures if Between(e0, f, s)
            then Copied(e0, e4, stub.id, stub.id, HalfPick(e0.start, f, stub.body.pairs),
                HalfPick(e0.end, f, stub.body.pairs))
            else Redirected(e0, e4, f, s, stub, width)
    ensures e4.start == (if e0.start == f || e0.start == s then stub.id else e0.start)
    ensures e4.end == (if e0.end == f || e0.end == s then stub.id else e0.end)
  {
    hide SizedEdge, Firsts, Seconds, Identity;
    var pairs, m := stub.body.pairs, stub.id;
    PairSigs(pairs);
    CopiedEnds(e0, e1, e2, e3, e4, f, s, stub);
    if e0.end == f && e0.start == s {
      ColumnsThenRows(e0, e1, e4, m, m, Seconds(pairs), Firsts(pairs));
    } else if e0.start == f && e0.end == s {
      RowsThenColumns(e0, e2, e3, m, m, Firsts(pairs), Seconds(pairs), Across(e0));
    }
  }

  lemma PairSigs(pairs: seq<(Sig, Sig)>)
    ensures |Firsts(pairs)| == |pairs| && |Seconds(pairs)| == |pairs|
  {
  }

  lemma CopiedEnds(e0: Edge, e1: Edge, e2: Edge, e3: Edge, e4: Edge, f: Id, s: Id, stub: Node)
    requires f != s && stub.body.Merged?
    requires var first, second := Firsts(stub.body.pairs), Seconds(stub.body.pairs);
             && (if e0.end == f then NewEnd(e0, e1, stub.id, first) else e1 == e0)
             && (if e0.start == f then NewStart(e1, e2, stub.id, first) else e2 == e1)
             && (if e0.end == s then NewEnd(e2, e3, stub.id, second) else e3 == e2)
             && (if e0.start == s then NewStart(e3, e4, stub.id, second) else e4 == e3)
    ensures e4.start == (if e0.start == f || e0.start == s then stub.id else e0.start)
    ensures e4.end == (if e0.end == f || e0.end == s then stub.id else e0.end)
  {
    hide SizedEdge, Picked, Firsts, Seconds, Identity;
  }

  /** What the merging constructor does to one edge. */
  ghost predicate Passed(g: Graph, e: Edge, d: Edge, f: Id, s: Id, stub: Node)
    requires stub.body.Merged?
  {
    && (if Between(e, f, s)
        then Copied(e, d, stub.id, stub.id, HalfPick(e.start, f, stub.body.pairs), HalfPick(e.end, f, stub.body.pairs))
        else Redirected(e, d, f, s, stub, Width(g, e, f, s)))
    && d.start == (if e.start == f || e.start == s then stub.id else e.start)
    && d.end == (if e.end == f || e.end == s then stub.id else e.end)
  }

  lemma EdgeBox(g: Graph, ratio: real, k: Id)
    requires k in g.edge && GoodAt(ratio)(g)
    ensures var e := g.edge[k];
            && e.start in g.node && e.end in g.node && e.start != e.end
            && Boxy(e) && |e.cost| == |g.node[e.start].cost| && Across(e) == |g.node[e.end].cost|
  {
    var e := g.edge[k];
    assert EdgeHolds(g, ShapeEdge, k);
    assert ShapeNode(g.node[e.start]) && ShapeNode(g.node[e.end]);
  }

  /** The four passes: first->edges_in_, first->edges_out_, second->edges_in_, second->edges_out_. */
  method RedirectAll(v: View, f: Id, s: Id, stub: Node, ghost ratio: real) returns (r: map<Id, Edge>)
    requires Has(v, f) && Has(v, s) && f != s && stub.id != f && stub.id != s && stub.body.Merged?
             && |stub.body.pairs| > 0
    requires Bounded(Firsts(stub.body.pairs), |v.g.node[f].cost|)
             && Bounded(Seconds(stub.body.pairs), |v.g.node[s].cost|)
    requires Ok(ratio)(v)
    ensures r.Keys == v.g.edge.Keys && forall k :: k in v.g.edge ==> Passed(v.g, v.g.edge[k], r[k], f, s, stub)
  {
    hide Ok, GoodAt, Boxy, Bounded, NewEnd, NewStart, Passed, Listed;
    OkParts(v, ratio);
    ListsOf(v, ratio, f);
    ListsOf(v, ratio, s);
    var first, second := Firsts(stub.body.pairs), Seconds(stub.body.pairs);
    ghost var g := v.g;
    forall k | k in g.edge
      ensures g.edge[k].start != g.edge[k].end && Boxy(g.edge[k])
      ensures g.edge[k].start == f ==> |g.edge[k].cost| == |g.node[f].cost|
      ensures g.edge[k].start == s ==> |g.edge[k].cost| == |g.node[s].cost|
      ensures g.edge[k].end == f ==> Across(g.edge[k]) == |g.node[f].cost|
      ensures g.edge[k].end == s ==> Across(g.edge[k]) == |g.node[s].cost|
    {
      EdgeBox(g, ratio, k);
    }
    var e1 := RedirectEnds(v.g.edge, v.into[f], stub.id, first);
    var e2 := RedirectStarts(e1, v.out[f], stub.id, first);
    forall k | k in v.into[s] ensures k in e2 && Boxy(e2[k]) && Bounded(second, Across(e2[k])) {
      if g.edge[k].start == f { StartKeeps(e1[k], e2[k], stub.id, first); }
    }
    var e3 := RedirectEnds(e2, v.into[s], stub.id, second);
    forall k | k in v.out[s] ensures k in e3 && Boxy(e3[k]) && Bounded(second, |e3[k].cost|) {
      if g.edge[k].end == f { EndKeeps(g.edge[k], e1[k], stub.id, first); }
    }
    r := RedirectStarts(e3, v.out[s], stub.id, second);
    forall k | k in g.edge ensures Passed(g, g.edge[k], r[k], f, s, stub) {
      PassedAll(g, ratio, k, e1[k], e2[k], e3[k], r[k], f, s, stub);
    }
  }

  lemma PassedAll(g: Graph, ratio: real, k: Id, e1: Edge, e2: Edge, e3: Edge, e4: Edge, f: Id, s: Id, stub: Node)
    requires k in g.edge && f in g.node && s in g.node && f != s && stub.id != f && stub.id != s && stub.body.Merged?
             && |stub.body.pairs| > 0
    requires var e0, first, second := g.edge[k], Firsts(stub.body.pairs), Seconds(stub.body.pairs);
             && (if e0.end == f then NewEnd(e0, e1, stub.id, first) else e1 == e0)
             && (if e0.start == f then NewStart(e1, e2, stub.id, first) else e2 == e1)
             && (if e0.end == s then NewEnd(e2, e3, stub.id, second) else e3 == e2)
             && (if e0.start == s then NewStart(e3, e4, stub.id, second) else e4 == e3)
    requires GoodAt(ratio)(g)
    ensures Passed(g, g.edge[k], e4, f, s, stub)
  {
    hide GoodAt, Boxy, NewEnd, NewStart;
    EdgeBox(g, ratio, k);
    FourPasses(g.edge[k], e1, e2, e3, e4, f, s, stub, Width(g, g.edge[k], f, s));
  }

  lemma StartKeeps(e: Edge, d: Edge, m: Id, rows: seq<Sig>)
    requires NewStart(e, d, m, rows)
    ensures Boxy(d) && Across(d) == Across(e)
  {
  }

  lemma EndKeeps(e: Edge, d: Edge, m: Id, cols: seq<Sig>)
    requires NewEnd(e, d, m, cols)
    ensures Boxy(d) && |d.cost| == |e.cost|
  {
  }

  // ----- the lists of the merged node -----

  /** Edges from m to m leave the lists and go inside the node. */
  method MoveInside(edge: map<Id, Edge>, outs: seq<Id>, ins: seq<Id>, m: Id) returns (outs': seq<Id>, ins': seq<Id>)
    requires Distinct(outs) && Distinct(ins) && forall k :: k in outs ==> k in edge
    ensures Distinct(outs') && forall k :: k in outs' <==> k in outs && edge[k].end != m
    ensures Distinct(ins') && forall k :: k in ins' <==> k in ins && !(k in outs && edge[k].end == m)
  {
    outs', ins' := outs, ins;
    var i := |outs|;
    while i > 0
      invariant 0 <= i <= |outs'| && i <= |outs| && Distinct(outs') && Distinct(ins') && outs'[..i] == outs[..i]
      invariant forall k :: k in outs'[i..] <==> k in outs[i..] && edge[k].end != m
      invariant forall k :: k in ins' <==> k in ins && !(k in outs[i..] && edge[k].end == m)
    {
      i := i - 1;
      var k := outs'[i];
      assert k == outs[..i + 1][i] == outs[i];
      assert outs[i..] == [k] + outs[i + 1..] && outs'[i..] == [k] + outs'[i + 1..];
      if edge[k].end == m {
        ins' := CheckAndRemoveFrom(ins', k);
        ghost var before := outs';
        outs' := RemoveAt(outs', i);
        RemoveAtFacts(before, i);
        SweptTail(before, i);
      }
    }
    assert outs'[0..] == outs' && outs[0..] == outs;
  }

  function AfterMerge(g: Graph, f: Id, s: Id, common: Option<Id>, r: map<Id, Edge>, m: Node): Graph {
    var gone: set<Id> := {f, s};
    var inside: set<Id> := if common.Some? then {common.value} else {};
    Graph((g.node - gone)[m.id := m], r - inside)
  }

  /** Where the ends of an edge go. */
  ghost predicate Renamed(e: Edge, d: Edge, f: Id, s: Id, m: Id) {
    && d.start == (if e.start == f || e.start == s then m else e.start)
    && d.end == (if e.end == f || e.end == s then m else e.end)
  }

  /** The merged node's own lists: what f and s had, except the edge between them. */
  lemma MergedList(g: Graph, out: map<Id, seq<Id>>, into: map<Id, seq<Id>>, f: Id, s: Id, common: Option<Id>,
                   r: map<Id, Edge>, m: Node,
                   outs: seq<Id>, ins: seq<Id>)
    requires Wired(g) && Listed(g, out, into) && f in g.node && s in g.node && f != s && m.id !in g.node
             && IsCommon(g, f, s, common)
    requires r.Keys == g.edge.Keys && forall k :: k in g.edge ==> Renamed(g.edge[k], r[k], f, s, m.id)
    requires Distinct(outs) && forall k :: k in outs <==> k in out[f] + out[s] && r[k].end != m.id
    requires Distinct(ins) && forall k :: k in ins <==>
             k in into[f] + into[s] && !(k in out[f] + out[s] && r[k].end == m.id)
    ensures var h := AfterMerge(g, f, s, common, r, m); OutList(h.edge, m.id, outs) && InList(h.edge, m.id, ins)
  {
    hide Wired, Renamed, IsCommon;
    ListsOfBoth(g, out, into, f, s);
    forall k | k in g.edge
      ensures (r[k].start == m.id <==> k in out[f] + out[s]) && (r[k].end == m.id <==> k in into[f] + into[s])
      ensures r[k].start == m.id && r[k].end == m.id <==> common == Some(k)
    {
      AtMerged(g, f, s, common, k, r[k], m.id);
    }
    CommonLive(g, f, s, common);
  }

  lemma ListsOfBoth(g: Graph, out: map<Id, seq<Id>>, into: map<Id, seq<Id>>, f: Id, s: Id)
    requires Listed(g, out, into) && f in g.node && s in g.node
    ensures OutList(g.edge, f, out[f]) && OutList(g.edge, s, out[s]) && InList(g.edge, f, into[f])
            && InList(g.edge, s, into[s])
  {
  }

  lemma CommonLive(g: Graph, f: Id, s: Id, common: Option<Id>)
    requires IsCommon(g, f, s, common)
    ensures common.Some? ==> common.value in g.edge
  {
  }

  lemma AtMerged(g: Graph, f: Id, s: Id, common: Option<Id>, k: Id, d: Edge, m: Id)
    requires Wired(g) && f in g.node && s in g.node && f != s && m !in g.node && IsCommon(g, f, s, common)
             && k in g.edge && Renamed(g.edge[k], d, f, s, m)
    ensures (d.start == m <==> g.edge[k].start == f || g.edge[k].start == s)
            && (d.end == m <==> g.edge[k].end == f || g.edge[k].end == s)
    ensures d.start == m && d.end == m <==> common == Some(k)
  {
    assert g.edge[k].start in g.node && g.edge[k].end in g.node && g.edge[k].start != g.edge[k].end;
  }

  lemma OtherList(g: Graph, f: Id, s: Id, common: Option<Id>, r: map<Id, Edge>, m: Node, i: Id, o: seq<Id>, t: seq<Id>)
    requires OutList(g.edge, i, o) && InList(g.edge, i, t) && i != f && i != s && i != m.id && IsCommon(g, f, s, common)
    requires r.Keys == g.edge.Keys && forall k :: k in g.edge ==> Renamed(g.edge[k], r[k], f, s, m.id)
    ensures var h := AfterMerge(g, f, s, common, r, m); OutList(h.edge, i, o) && InList(h.edge, i, t)
  {
    forall k | k in g.edge
      ensures (r[k].start == i <==> g.edge[k].start == i) && (r[k].end == i <==> g.edge[k].end == i)
    {
      assert Renamed(g.edge[k], r[k], f, s, m.id);
    }
  }

  lemma MergeListed(g: Graph, out: map<Id, seq<Id>>, into: map<Id, seq<Id>>, f: Id, s: Id, common: Option<Id>,
                    r: map<Id, Edge>, m: Node,
                    outs: seq<Id>, ins: seq<Id>, out': map<Id, seq<Id>>, into': map<Id, seq<Id>>)
    requires Wired(g) && Listed(g, out, into) && f in g.node && s in g.node && f != s && m.id !in g.node
             && IsCommon(g, f, s, common)
    requires r.Keys == g.edge.Keys && forall k :: k in g.edge ==> Renamed(g.edge[k], r[k], f, s, m.id)
    requires Distinct(outs) && forall k :: k in outs <==> k in out[f] + out[s] && r[k].end != m.id
    requires Distinct(ins) && forall k :: k in ins <==>
             k in into[f] + into[s] && !(k in out[f] + out[s] && r[k].end == m.id)
    requires out' == (out - {f, s})[m.id := outs] && into' == (into - {f, s})[m.id := ins]
    ensures Listed(AfterMerge(g, f, s, common, r, m), out', into')
  {
    hide OutList, InList, Renamed, IsCommon, Wired;
    var h := AfterMerge(g, f, s, common, r, m);
    MergedList(g, out, into, f, s, common, r, m, outs, ins);
    forall i | i in h.node ensures OutList(h.edge, i, out'[i]) && InList(h.edge, i, into'[i]) {
      if i != m.id { OtherList(g, f, s, common, r, m, i, out[i], into[i]); }
    }
  }

  // ----- the merge -----

  /** The pair the two nodes hold now, if it was kept; 0 otherwise. */
  method TrackPair(pairs: seq<(Sig, Sig)>, i: Sig, j: Sig) returns (p: Sig)
    requires |pairs| > 0
    ensures p < |pairs| && p == PairSlot(pairs, i, j)
    ensures ((i, j) in pairs ==> pairs[p] == (i, j)) && ((i, j) !in pairs ==> p == 0)
  {
    p := 0;
    for q := 0 to |pairs|
      invariant p < |pairs| && p == PairSlot(pairs[..q], i, j)
      invariant ((i, j) in pairs[..q] ==> pairs[p] == (i, j)) && ((i, j) !in pairs[..q] ==> p == 0)
    {
      assert pairs[..q + 1] == pairs[..q] + [pairs[q]] && pairs[..q + 1][..q] == pairs[..q];
      if pairs[q].0 == i && pairs[q].1 == j { p := q; }
    }
    assert pairs[..|pairs|] == pairs;
  }

  /** node_list_ without f and s, and with m at the end. */
  method RelistNodes(list: seq<Id>, at: map<Id, nat>, f: Id, s: Id, m: Id) returns (list': seq<Id>, at': map<Id, nat>)
    requires Indexed(list, at, at.Keys) && f in at && s in at && f != s && m !in at
    ensures Indexed(list', at', at.Keys - {f, s} + {m})
  {
    var list1, at1 := RemoveFromNodeList(list, at, f);
    var list2, at2 := RemoveFromNodeList(list1, at1, s);
    AppendIndexed(list2, at2, at2.Keys, m);
    list', at' := list2 + [m], at2[m := |list2|];
    assert at.Keys - {f} - {s} + {m} == at.Keys - {f, s} + {m};
  }

  lemma RenamedBy(g: Graph, e: Edge, d: Edge, f: Id, s: Id, stub: Node)
    requires stub.body.Merged? && Passed(g, e, d, f, s, stub)
    ensures Renamed(e, d, f, s, stub.id)
  {
    hide Copied, Redirected;
  }

  lemma RedirectedBy(g: Graph, e: Edge, d: Edge, f: Id, s: Id, stub: Node, m: Node)
    requires stub.body.Merged? && Passed(g, e, d, f, s, stub) && m.body.Merged? && m.id == stub.id
             && m.body.pairs == stub.body.pairs
    requires !Between(e, f, s)
    ensures Redirected(e, d, f, s, m, Width(g, e, f, s))
  {
    hide Copied;
  }

  lemma InnerBy(g: Graph, e: Edge, d: Edge, f: Id, s: Id, stub: Node)
    requires stub.body.Merged? && Passed(g, e, d, f, s, stub) && Between(e, f, s)
    ensures Copied(e, d, stub.id, stub.id, HalfPick(e.start, f, stub.body.pairs), HalfPick(e.end, f, stub.body.pairs))
  {
    hide Copied, Redirected;
  }

  /** What the constructor has computed: pairs, costs, re-indexed edges and the inner edge. */
  ghost predicate MergeData(g: Graph, f: Id, s: Id, common: Option<Id>, stub: Node, r: map<Id, Edge>, m: Node) {
    && f in g.node && s in g.node && f != s && g.node[f].id == f && m.id !in g.node && IsCommon(g, f, s, common)
    && stub.body.Merged? && |stub.body.pairs| > 0 && stub.id == m.id
    && var nf, ns, pairs := g.node[f], g.node[s], stub.body.pairs;
    && m.body == Merged(nf, ns, pairs, if common.Some? && common.value in r then Some(r[common.value]) else None)
    && m.children == [] && |m.cost| == |pairs|
    && (forall p :: 0 <= p < |pairs| ==> pairs[p].0 < |nf.cost| && pairs[p].1 < |ns.cost|)
    && (forall p :: 0 <= p < |pairs| ==> m.cost[p] == PairCost(nf, ns, CommonEdge(g, common), pairs[p].0, pairs[p].1))
    && (forall i, j :: 0 <= i < |nf.cost| && 0 <= j < |ns.cost| ==>
       ((i, j) in pairs <==> Kept(f, CommonEdge(g, common), i, j)))
    && r.Keys == g.edge.Keys && (forall k :: k in g.edge ==> Passed(g, g.edge[k], r[k], f, s, stub))
  }

  lemma MergeIsStep(v: View, f: Id, s: Id, common: Option<Id>, stub: Node, r: map<Id, Edge>, m: Node, w: View)
    requires MergeData(v.g, f, s, common, stub, r, m) && Unused(v.g, m.id)
    requires w.g == AfterMerge(v.g, f, s, common, r, m)
    ensures Taken()(v, Merge(f, s, common, m), w)
    ensures MergeMoves(v.g, f, s, common, m, w.g) && Joined(v.g.node[f], v.g.node[s], CommonEdge(v.g, common), m)
    ensures forall k :: k in w.g.edge ==> Redirected(v.g.edge[k], w.g.edge[k], f, s, m, Width(v.g, v.g.edge[k], f, s))
  {
    hide Copied, Unused, Redirected, Passed, Kept, PairCost, HalfPick;
    if common.Some? { InnerBy(v.g, v.g.edge[common.value], r[common.value], f, s, stub); }
    assert Joined(v.g.node[f], v.g.node[s], CommonEdge(v.g, common), m);
    assert MergedNode(v.g.node[f], v.g.node[s], CommonEdge(v.g, common), m);
    assert MergeMoves(v.g, f, s, common, m, w.g);
    forall k | k in w.g.edge ensures Redirected(v.g.edge[k], w.g.edge[k], f, s, m, Width(v.g, v.g.edge[k], f, s)) {
      RedirectedBy(v.g, v.g.edge[k], r[k], f, s, stub, m);
    }
    assert MergeStep(v.g, f, s, common, m, w.g);
  }

  lemma MergeVolume(g: Graph, f: Id, s: Id, common: Option<Id>, m: Node, h: Graph)
    requires MergeMoves(g, f, s, common, m, h)
    ensures Volume(h) < Volume(g)
  {
    TwoForOne(g.node.Keys, h.node.Keys, f, s, m.id);
    NoLarger(h.edge.Keys, g.edge.Keys);
  }

  lemma TwoForOne(a: set<Id>, b: set<Id>, f: Id, s: Id, m: Id)
    requires f in a && s in a && f != s && m !in a && b == a - {f, s} + {m}
    ensures |b| == |a| - 1
  {
    var rest := a - {f} - {s};
    assert b == rest + {m};
  }

  /** The merging constructor up to the lists; it fails when the edge leaves no pair valid. */
  method Construct(v: View, f: Id, s: Id, ghost ratio: real)
    returns (ok: bool, common: Option<Id>, ghost stub: Node, r: map<Id, Edge>, m: Node)
    requires Has(v, f) && Has(v, s) && f != s && AtMostOne(v.g, f, s) && Ok(ratio)(v)
    ensures IsCommon(v.g, f, s, common)
    ensures ok <==> SomeKept(v.g, f, s, common)
    ensures ok ==>
            && MergeData(v.g, f, s, common, stub, r, m) && m.id == v.next && v.next !in v.g.node
            && v.next !in v.g.edge
  {
    hide Ok, GoodAt, ShapeNode, Passed, PairCost, Kept, Listed, OutList, InList, Indexed, PartsOk;
    ListsOf(v, ratio, f);
    ListsOf(v, ratio, s);
    OkParts(v, ratio);
    NextFree(v, ratio);
    GoodNode(v.g, ratio, f);
    GoodNode(v.g, ratio, s);
    var nf, ns := v.g.node[f], v.g.node[s];
    common := FindCommon(v.g.edge, v.into[f], v.out[f], f, s);
    var tie := CommonEdge(v.g, common);
    var pairs, cost := KeptPairs(nf, ns, tie);
    stub := Stub(v.next, nf, ns, pairs);
    r, m := v.g.edge, nf;
    ok := |pairs| > 0;
    if ok {
      assert (pairs[0].0, pairs[0].1) == pairs[0] && pairs[0] in pairs;
      r := RedirectAll(v, f, s, Stub(v.next, nf, ns, pairs), ratio);
      m := Node(v.next, cost, Merged(nf, ns, pairs, if common.Some? then Some(r[common.value]) else None), []);
    }
  }

  /** Some pair of signatures survives the edge between the two nodes. */
  ghost predicate SomeKept(g: Graph, f: Id, s: Id, common: Option<Id>)
    requires common.Some? ==> common.value in g.edge
  {
    f in g.node && s in g.node &&
    exists i, j :: 0 <= i < |g.node[f].cost| && 0 <= j < |g.node[s].cost| && Kept(f, CommonEdge(g, common), i, j)
  }

  /** The edge k leaves no pair of signatures of f and of the node at its other end valid. */
  ghost predicate BlockedAt(g: Graph, f: Id, k: Id) {
    && f in g.node && k in g.edge && Touches(g.edge[k], f) && Other(g.edge[k], f) in g.node
    && forall i, j :: 0 <= i < |g.node[f].cost| && 0 <= j < |g.node[Other(g.edge[k], f)].cost| ==>
       !Kept(f, Some(g.edge[k]), i, j)
  }

  /** Some two nodes cannot be merged. */
  ghost predicate Blocked(g: Graph) { exists f, k :: BlockedAt(g, f, k) }

  /** A pair survives, or the edge is why not. */
  lemma KeptOrBlocked(g: Graph, f: Id, s: Id, common: Option<Id>, ratio: real)
    requires f in g.node && s in g.node && f != s && IsCommon(g, f, s, common) && GoodAt(ratio)(g)
    ensures SomeKept(g, f, s, common) || Blocked(g)
  {
    hide GoodAt, Kept;
    GoodNode(g, ratio, f);
    GoodNode(g, ratio, s);
    if common.None? {
      AnyKept(f, CommonEdge(g, common), 0, 0);
    } else {
      var e := g.edge[common.value];
      assert CommonEdge(g, common) == Some(e) && Other(e, f) == s;
      if forall i, j :: 0 <= i < |g.node[f].cost| && 0 <= j < |g.node[s].cost| ==> !Kept(f, Some(e), i, j) {
        assert BlockedAt(g, f, common.value);
      }
    }
  }

  lemma AnyKept(f: Id, common: Option<Edge>, i: Sig, j: Sig)
    requires common.None?
    ensures Kept(f, common, i, j)
  {
  }

  /** The lists after the merge. */
  method Relist(v: View, f: Id, s: Id, common: Option<Id>, r: map<Id, Edge>, m: Node, p: Sig, ghost stub: Node,
                ghost ratio: real) returns (w: View)
    requires Has(v, f) && Has(v, s) && f != s && MergeData(v.g, f, s, common, stub, r, m) && m.id == v.next
             && Ok(ratio)(v)
    ensures Lists(w) && w.g == AfterMerge(v.g, f, s, common, r, m) && w.next == v.next + 1
            && w.final == v.final[m.id := p]
  {
    hide Ok, GoodAt, MergeData, Renamed, Wired, OutList, InList, IsCommon;
    OkParts(v, ratio);
    GoodWired(v.g, ratio);
    RenamedAll(v.g, f, s, common, stub, r, m);
    Apart(v.g, v.out, v.into, f, s);
    var outs, ins := MoveInside(r, v.out[f] + v.out[s], v.into[f] + v.into[s], m.id);
    var gone: set<Id> := {f, s};
    var out, into := (v.out - gone)[m.id := outs], (v.into - gone)[m.id := ins];
    MergeListed(v.g, v.out, v.into, f, s, common, r, m, outs, ins, out, into);
    var list, at := RelistNodes(v.nodeList, v.listId, f, s, m.id);
    w := View(list, at, AfterMerge(v.g, f, s, common, r, m), out, into, v.final[m.id := p], v.next + 1);
    assert w.g.node.Keys == v.g.node.Keys - {f, s} + {m.id};
  }

  lemma RenamedAll(g: Graph, f: Id, s: Id, common: Option<Id>, stub: Node, r: map<Id, Edge>, m: Node)
    requires MergeData(g, f, s, common, stub, r, m)
    ensures m.id !in g.node && IsCommon(g, f, s, common) && r.Keys == g.edge.Keys
    ensures forall k :: k in g.edge ==> Renamed(g.edge[k], r[k], f, s, m.id)
  {
    hide Passed, PairCost, Kept, Renamed;
    forall k | k in g.edge ensures Renamed(g.edge[k], r[k], f, s, m.id) { RenamedBy(g, g.edge[k], r[k], f, s, stub); }
  }

  lemma Apart(g: Graph, out: map<Id, seq<Id>>, into: map<Id, seq<Id>>, f: Id, s: Id)
    requires Listed(g, out, into) && f in g.node && s in g.node && f != s
    ensures Distinct(out[f] + out[s]) && Distinct(into[f] + into[s]) && forall k :: k in out[f] + out[s] ==> k in g.edge
  {
    assert OutList(g.edge, f, out[f]) && OutList(g.edge, s, out[s]) && InList(g.edge, f, into[f])
        && InList(g.edge, s, into[s]);
    DistinctAppend(out[f], out[s]);
    DistinctAppend(into[f], into[s]);
  }

  lemma MergeTaken(v: View, f: Id, s: Id, common: Option<Id>, stub: Node, r: map<Id, Edge>, m: Node, p: Sig, w: View,
                   ratio: real)
    requires MergeData(v.g, f, s, common, stub, r, m) && m.id == v.next && p < |m.cost|
    requires Lists(w) && w.g == AfterMerge(v.g, f, s, common, r, m) && w.next == v.next + 1
             && w.final == v.final[m.id := p]
    requires Ok(ratio)(v)
    ensures Ok(ratio)(w) && Taken()(v, Merge(f, s, common, m), w) && Volume(w.g) < Volume(v.g)
  {
    hide Ok, Lists, Beyond, RangedGraph, Unused, Taken, MergeMoves, Joined, Volume, Redirected, AfterMerge, Passed,
        PairCost, Kept;
    OkRest(v, ratio);
    NextUnused(v.g, v.next);
    MergeIsStep(v, f, s, common, stub, r, m, w);
    MergeAdds(v.g, f, s, common, m, w.g, v.next);
    MergeRanged(v.g, f, s, common, m, w.g, v.final, p);
    OkAfter(v, Merge(f, s, common, m), w, ratio);
    MergeVolume(v.g, f, s, common, m, w.g);
  }

  /** SbpGraph::NodeMerging; ok is false where the source would abort for lack of a valid pair. */
  method NodeMerging(v: View, f: Id, s: Id, ghost ratio: real) returns (w: View, ok: bool, ghost t: Trace)
    requires Has(v, f) && Has(v, s) && f != s && AtMostOne(v.g, f, s) && Ok(ratio)(v)
    ensures Ok(ratio)(w) && Moves(v, t, w)
    ensures if ok then Volume(w.g) < Volume(v.g) else w == v
    ensures ok <==> exists common :: IsCommon(v.g, f, s, common) && SomeKept(v.g, f, s, common)
    ensures !ok ==> Blocked(v.g)
  {
    hide Ok, Lists, Taken, Run, Volume, MergeData, SomeKept, AfterMerge;
    var common, r, m;
    ghost var stub;
    ok, common, stub, r, m := Construct(v, f, s, ratio);
    forall other | IsCommon(v.g, f, s, other) ensures other == common { OneCommon(v.g, f, s, common, other); }
    if !ok {
      OkParts(v, ratio);
      KeptOrBlocked(v.g, f, s, common, ratio);
      MovesNot(v);
      return v, false, Still(v.g);
    }
    PairsOf(v.g, f, s, common, stub, r, m);
    var p := TrackPair(m.body.pairs, At(v.final, f), At(v.final, s));
    w := Relist(v, f, s, common, r, m, p, stub, ratio);
    MergeTaken(v, f, s, common, stub, r, m, p, w, ratio);
    t := Once(v.g, Merge(f, s, common, m), w.g);
    MovesOnce(v, Merge(f, s, common, m), w);
  }

  lemma PairsOf(g: Graph, f: Id, s: Id, common: Option<Id>, stub: Node, r: map<Id, Edge>, m: Node)
    requires MergeData(g, f, s, common, stub, r, m)
    ensures m.body.Merged? && |m.body.pairs| > 0 && |m.cost| == |m.body.pairs|
  {
  }

  lemma OneCommon(g: Graph, f: Id, s: Id, a: Option<Id>, b: Option<Id>)
    requires IsCommon(g, f, s, a) && IsCommon(g, f, s, b)
    ensures a == b
  {
  }
}
