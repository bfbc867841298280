/** NodeAndEdgeEliminations: the sweeps over node_list_ that are repeated until nothing is
    left to eliminate, with a merge whenever they get stuck. */
module SbpDriver {
  import opened Sums
  import opened SbpForest
  import opened SbpSteps
  import opened SbpRun
  import opened SbpLists
  import opened SbpOps
  import opened SbpFold
  import opened SbpCollapse
  import opened SbpMerging
  import opened SbpPick
  import opened Wrappers

  // ----- NodeElimination -----

  /** Two edges between the same two nodes are not both alone. */
  lemma NotLone(v: View, n: Id, a: Id, b: Id, x: Id, p: Id, ratio: real)
    requires Has(v, n) && Has(v, x) && a in v.g.edge && b in v.g.edge && a != b
    requires Between(v.g.edge[a], n, p) && Between(v.g.edge[b], n, p)
    requires if x == n then v.g.edge[a].start == n || v.g.edge[b].start == n
             else x == p && v.g.edge[a].start == p && n != p
    requires Ok(ratio)(v)
    ensures !LoneUpTo(v.g, v.out[x], x, |v.out[x]|)
  {
    hide Ok;
    ListsOf(v, ratio, x);
    var k := if v.g.edge[a].start == x then a else b;
    assert k in v.out[x];
    var i :| 0 <= i < |v.out[x]| && v.out[x][i] == k;
    assert Between(v.g.edge[a], x, v.g.edge[k].end) && Between(v.g.edge[b], x, v.g.edge[k].end);
    assert !Lone(v.g, x, v.out[x][i]);
  }

  /** SbpGraph::NodeElimination. */
  method NodeElimination(v: View, n: Id, ghost ratio: real) returns (w: View, num: nat, ghost t: Trace)
    requires Has(v, n) && Ok(ratio)(v)
    ensures Ok(ratio)(w) && Moves(v, t, w) && Before(v, n, w)
    ensures if num == 0 then w == v && Degree(v, n) != 2 else Volume(w.g) < Volume(v.g)
  {
    hide Ok, Taken, Run, Volume, LoneUpTo, Follow, FollowAll, GoodAt, Listed;
    MovesNot(v);
    OkParts(v, ratio);
    if Degree(v, n) != 2 { return v, 0, Still(v.g); }
    HasLive(v, ratio);
    var a, b, p, q := TwoEdges(v, n, ratio);
    if p == q {
      w, num, t := EliminatePair(v, n, a, b, p, ratio);
    } else {
      w, t := FoldAway(v, n, a, b, ratio);
      num := 1;
    }
  }

  method FoldAway(v: View, n: Id, a: Id, b: Id, ghost ratio: real) returns (w: View, ghost t: Trace)
    requires Has(v, n) && a in v.g.edge && b in v.g.edge && a != b
    requires forall k :: k in v.g.edge ==> (Touches(v.g.edge[k], n) <==> k == a || k == b)
    requires var p, q := Other(v.g.edge[a], n), Other(v.g.edge[b], n);
             p in v.g.node && q in v.g.node && p != q && p != n && q != n
    requires Ok(ratio)(v)
    ensures Ok(ratio)(w) && Moves(v, t, w) && Before(v, n, w) && Volume(w.g) < Volume(v.g)
  {
    hide Ok, Taken, Run, Volume, Follow, FollowAll;
    ghost var step;
    w, step := FoldNode(v, n, a, b, ratio);
    t := Once(v.g, step, w.g);
    MovesOnce(v, step, w);
  }

  /** Both edges of n lead to the same neighbour p: collapse them, then swallow n. */
  method EliminatePair(v: View, n: Id, a: Id, b: Id, p: Id, ghost ratio: real)
    returns (w: View, num: nat, ghost t: Trace)
    requires Has(v, n) && Has(v, p) && a in v.g.edge && b in v.g.edge && a != b && n != p
    requires Touches(v.g.edge[a], n) && Touches(v.g.edge[b], n) && p == Other(v.g.edge[a], n)
             && p == Other(v.g.edge[b], n)
    requires |v.out[n]| == 0 <==> v.g.edge[a].end == n && v.g.edge[b].end == n
    requires Ok(ratio)(v)
    ensures Ok(ratio)(w) && Moves(v, t, w) && Before(v, n, w) && num > 0 && Volume(w.g) < Volume(v.g)
  {
    hide Ok, Run, FollowAll, Volume, LoneUpTo;
    var u, more;
    ghost var t1, t2;
    if |v.out[n]| == 0 {
      NotLone(v, n, a, b, p, p, ratio);
      u, num, t1 := EdgeElimination(v, p, ratio);
    } else {
      NotLone(v, n, a, b, n, p, ratio);
      u, num, t1 := EdgeElimination(v, n, ratio);
    }
    w, more, t2 := ChildElimination(u, n, ratio);
    num := num + more;
    t := Then(t1, t2);
    MovesThen(v, t1, u, t2, w);
  }

  // ----- sweeps -----

  /** Slot i of node_list_ holds a live node that knows its slot. */
  lemma SlotOf(v: View, i: nat, ratio: real)
    requires i < |v.nodeList| && Ok(ratio)(v)
    ensures Has(v, v.nodeList[i]) && v.listId[v.nodeList[i]] == i
  {
    hide GoodAt;
    OkParts(v, ratio);
    HasLive(v, ratio);
  }

  method SweepNodes(v: View, ghost ratio: real) returns (w: View, num: nat, ghost t: Trace)
    requires Ok(ratio)(v)
    ensures Ok(ratio)(w) && Moves(v, t, w)
    ensures if num == 0 then w == v && NoDegree(v, 2, 0) else Volume(w.g) < Volume(v.g)
  {
    hide Ok, Run, FollowAll, Volume;
    w, num, t := v, 0, Still(v.g);
    MovesNot(v);
    var i := |v.nodeList|;
    while i > 0
      invariant 0 <= i <= |w.nodeList| && Ok(ratio)(w) && Moves(v, t, w)
      invariant if num == 0 then w == v && NoDegree(v, 2, i) else Volume(w.g) < Volume(v.g)
    {
      i := i - 1;
      SlotOf(w, i, ratio);
      ghost var u, before, step := w, t, t;
      var more;
      w, more, step := NodeElimination(w, w.nodeList[i], ratio);
      num := num + more;
      MovesThen(v, before, u, step, w);
      t := Then(before, step);
    }
  }

  /** No node from slot i on has degree d. */
  ghost predicate NoDegree(v: View, d: nat, i: nat) {
    forall p :: i <= p < |v.nodeList| ==> Has(v, v.nodeList[p]) && Degree(v, v.nodeList[p]) != d
  }

  method SweepEdges(v: View, ghost ratio: real) returns (w: View, num: nat, ghost t: Trace)
    requires Ok(ratio)(v)
    ensures Ok(ratio)(w) && Moves(v, t, w)
    ensures if num == 0 then w == v && AllLone(v, 0) else Volume(w.g) < Volume(v.g)
  {
    hide Ok, Run, FollowAll, Volume, LoneUpTo;
    w, num, t := v, 0, Still(v.g);
    MovesNot(v);
    var i := |v.nodeList|;
    while i > 0
      invariant 0 <= i <= |w.nodeList| && Ok(ratio)(w) && Moves(v, t, w)
      invariant if num == 0 then w == v && AllLone(v, i) else Volume(w.g) < Volume(v.g)
    {
      i := i - 1;
      SlotOf(w, i, ratio);
      ghost var u, before, step := w, t, t;
      var more;
      w, more, step := EdgeElimination(w, w.nodeList[i], ratio);
      num := num + more;
      MovesThen(v, before, u, step, w);
      t := Then(before, step);
    }
  }

  /** Every edge out of a node from slot i on is alone between its ends. */
  ghost predicate AllLone(v: View, i: nat) {
    forall p :: i <= p < |v.nodeList| ==> var n := v.nodeList[p]; Has(v, n) && LoneUpTo(v.g, v.out[n], n, |v.out[n]|)
  }

  method SweepChildren(v: View, ghost ratio: real) returns (w: View, num: nat, ghost t: Trace)
    requires Ok(ratio)(v)
    ensures Ok(ratio)(w) && Moves(v, t, w)
    ensures if num == 0 then w == v && NoDegree(v, 1, 0) else Volume(w.g) < Volume(v.g)
  {
    hide Ok, Run, FollowAll, Volume;
    w, num, t := v, 0, Still(v.g);
    MovesNot(v);
    var i := |v.nodeList|;
    while i > 0
      invariant 0 <= i <= |w.nodeList| && Ok(ratio)(w) && Moves(v, t, w)
      invariant if num == 0 then w == v && NoDegree(v, 1, i) else Volume(w.g) < Volume(v.g)
    {
      i := i - 1;
      SlotOf(w, i, ratio);
      ghost var u, before, step := w, t, t;
      var more;
      w, more, step := ChildElimination(w, w.nodeList[i], ratio);
      num := num + more;
      MovesThen(v, before, u, step, w);
      t := Then(before, step);
    }
  }

  // ----- the loop -----

  /** Nothing is left to eliminate: every degree is 0 or at least 3, and no two edges join the
      same two nodes, in whatever direction. */
  ghost predicate Stuck(v: View) {
    && (forall n :: Has(v, n) ==> Degree(v, n) == 0 || Degree(v, n) >= 3)
    && NoParallel(v.g)
  }

  /** At a node of degree three meet three edges. */
  lemma ThreeEdges(v: View, i: Id) returns (a: Id, b: Id, c: Id)
    requires Wired(v.g) && Listed(v.g, v.out, v.into) && Has(v, i) && Degree(v, i) >= 3
    ensures a in v.g.edge && b in v.g.edge && c in v.g.edge && a != b && a != c && b != c
    ensures Touches(v.g.edge[a], i) && Touches(v.g.edge[b], i) && Touches(v.g.edge[c], i)
  {
    var all := v.into[i] + v.out[i];
    assert InList(v.g.edge, i, v.into[i]) && OutList(v.g.edge, i, v.out[i]);
    a, b, c := all[0], all[1], all[2];
    forall p | 0 <= p < |all| ensures all[p] in v.g.edge && Touches(v.g.edge[all[p]], i) {
      assert if p < |v.into[i]| then all[p] in v.into[i] else all[p] in v.out[i];
    }
    forall p, q | 0 <= p < q < |all| ensures all[p] != all[q] {
      if p < |v.into[i]| <= q { assert all[p] in v.into[i] && all[q] in v.out[i]; }
    }
  }

  lemma ApartAcross(g: Graph, i: Id, a: Id, b: Id)
    requires Wired(g) && NoParallel(g) && a in g.edge && b in g.edge && a != b && Touches(g.edge[a], i)
             && Touches(g.edge[b], i)
    ensures var x, y := Other(g.edge[a], i), Other(g.edge[b], i);
            i in g.node && x in g.node && y in g.node && x != y && x != i && y != i
  {
    assert Between(g.edge[a], g.edge[b].start, g.edge[b].end) ==> a == b;
  }

  lemma FourOf(s: set<Id>, i: Id, x: Id, y: Id, z: Id)
    requires i in s && x in s && y in s && z in s && i != x && i != y && i != z && x != y && x != z && y != z
    ensures |s| >= 4
  {
    assert |{i, x, y, z}| == 4;
    NoLarger({i, x, y, z}, s);
  }

  /** Where nothing is left to eliminate and fewer than four nodes are left, no edge is left either. */
  lemma SmallHasNoEdges(v: View)
    requires Stuck(v) && Wired(v.g) && Listed(v.g, v.out, v.into) && v.listId.Keys == v.g.node.Keys
    ensures v.g.edge == map[] || |v.g.node| >= 4
  {
    hide NoParallel;
    if k :| k in v.g.edge {
      var i := v.g.edge[k].start;
      assert OutList(v.g.edge, i, v.out[i]) && k in v.out[i];
      var a, b, c := ThreeEdges(v, i);
      ApartAcross(v.g, i, a, b);
      ApartAcross(v.g, i, a, c);
      ApartAcross(v.g, i, b, c);
      FourOf(v.g.node.Keys, i, Other(v.g.edge[a], i), Other(v.g.edge[b], i), Other(v.g.edge[c], i));
    }
  }

  lemma StuckWhen(v: View, ratio: real)
    requires NoDegree(v, 1, 0) && NoDegree(v, 2, 0) && AllLone(v, 0) && Ok(ratio)(v)
    ensures Stuck(v)
  {
    hide Ok, GoodAt, LoneUpTo;
    OkParts(v, ratio);
    GoodWired(v.g, ratio);
    forall n | Has(v, n) ensures Degree(v, n) == 0 || Degree(v, n) >= 3 {
      assert v.nodeList[v.listId[n]] == n;
    }
    forall k, l | k in v.g.edge && l in v.g.edge && Between(v.g.edge[k], v.g.edge[l].start, v.g.edge[l].end)
      ensures k == l
    {
      var n := v.g.edge[l].start;
      assert n in v.g.node && v.nodeList[v.listId[n]] == n;
      assert LoneUpTo(v.g, v.out[n], n, |v.out[n]|);
      LoneEdgeOf(v.g, v.out[n], n, l);
    }
  }

  lemma LoneEdgeOf(g: Graph, list: seq<Id>, n: Id, l: Id)
    requires OutList(g.edge, n, list) && LoneUpTo(g, list, n, |list|) && l in g.edge && g.edge[l].start == n
    ensures Lone(g, n, l)
  {
    assert l in list;
    var i :| 0 <= i < |list| && list[i] == l;
    assert Lone(g, n, list[i]);
  }

  /** What is merged: the ends of the edge of least cut ratio below 1; without one, the two nodes with
      most in common; nothing in a small graph or when no two nodes have anything in common. */
  ghost predicate Chosen(v: View, threshold: nat, pick: Option<(Id, Id)>)
    requires AllBoxed(v.g) && threshold > 0
  {
    if |v.nodeList| < MIN_NODES then pick == None
    else if forall k :: k in v.g.edge ==> CutOf(v.g, k, threshold) >= 1.0 then
      exists f: nat, s: nat, common: nat :: MostCommon(v, threshold, f, s, common) &&
                             pick == if common > 0 then Some((v.nodeList[f], v.nodeList[s])) else None
    else exists k ::
           && LeastCut(v.g, threshold, Some(k)) && FirstOfLeast(v.g, threshold, Some(k), Visited(v, |v.nodeList|))
           && pick == Some((v.g.edge[k].start, v.g.edge[k].end))
  }

  method Pick(v: View, threshold: nat, ghost ratio: real) returns (pick: Option<(Id, Id)>)
    requires threshold > 0 && AllBoxed(v.g) && Ok(ratio)(v)
    ensures Chosen(v, threshold, pick)
    ensures pick.Some? ==> pick.value.0 in v.g.node && pick.value.1 in v.g.node && pick.value.0 != pick.value.1
  {
    hide Ok, CutOf, AllBoxed, MostCommon, LeastCut, FirstOfLeast, Visited;
    if |v.nodeList| < MIN_NODES { return None; }
    var best := PickEdge(v, threshold, ratio);
    EdgeChosen(v, threshold, best, ratio);
    if best.Some? { return Some((v.g.edge[best.value].start, v.g.edge[best.value].end)); }
    var f, s, common := PickPair(v, threshold, ratio);
    PairChosen(v, threshold, f, s, common, ratio);
    pick := if common > 0 then Some((v.nodeList[f], v.nodeList[s])) else None;
  }

  lemma EdgeChosen(v: View, threshold: nat, best: Option<Id>, ratio: real)
    requires threshold > 0 && AllBoxed(v.g) && LeastCut(v.g, threshold, best) && Ok(ratio)(v)
    ensures best.None? ==> forall k :: k in v.g.edge ==> CutOf(v.g, k, threshold) >= 1.0
    ensures best.Some? ==> best.value in v.g.edge && CutOf(v.g, best.value, threshold) < 1.0
    ensures best.Some? ==> var e := v.g.edge[best.value]; e.start in v.g.node && e.end in v.g.node && e.start != e.end
  {
    hide Ok, CutOf, AllBoxed, GoodAt, Listed, Indexed;
    OkParts(v, ratio);
    GoodWired(v.g, ratio);
  }

  lemma PairChosen(v: View, threshold: nat, f: nat, s: nat, common: nat, ratio: real)
    requires MostCommon(v, threshold, f, s, common) && Ok(ratio)(v)
    ensures common > 0 ==>
            && f < s < |v.nodeList| && v.nodeList[f] in v.g.node && v.nodeList[s] in v.g.node
            && v.nodeList[f] != v.nodeList[s]
  {
    hide Ok, Common, Pairs, GoodAt, Listed;
    OkParts(v, ratio);
  }

  /** SbpGraph::PickAndMerge. It aborts exactly when the edge between the two nodes leaves none of
      their signature pairs valid. */
  method PickAndMerge(v: View, threshold: nat, ghost ratio: real)
    returns (w: View, num: nat, aborted: bool, pick: Option<(Id, Id)>, ghost t: Trace)
    requires threshold > 0 && Stuck(v) && AllBoxed(v.g) && Ok(ratio)(v)
    ensures Ok(ratio)(w) && Moves(v, t, w) && (aborted ==> num == 0 && Blocked(v.g))
    ensures if num == 0 then w == v else Volume(w.g) < Volume(v.g)
    ensures Chosen(v, threshold, pick) && (num == 0 <==> pick.None? || aborted)
    ensures aborted <==> pick.Some? && !(exists common :: IsCommon(v.g, pick.value.0, pick.value.1, common)
                                                          && SomeKept(v.g, pick.value.0, pick.value.1, common))
  {
    hide Ok, Run, FollowAll, Volume, SomeKept, Blocked, Chosen, AllBoxed;
    HasLive(v, ratio);
    w, num, aborted, t := v, 0, false, Still(v.g);
    MovesNot(v);
    pick := Pick(v, threshold, ratio);
    if pick.Some? {
      var ok;
      w, ok, t := NodeMerging(v, pick.value.0, pick.value.1, ratio);
      num, aborted := if ok then 1 else 0, !ok;
    }
  }

  /** SbpGraph::NodeAndEdgeEliminations. */
  method NodeAndEdgeEliminations(v: View, threshold: nat, ghost ratio: real)
    returns (w: View, total: nat, aborted: bool, ghost t: Trace)
    requires threshold > 0 && Ok(ratio)(v)
    ensures Ok(ratio)(w) && Moves(v, t, w)
    ensures Stuck(w) && (aborted ==> Blocked(w.g))
    ensures Volume(w.g) <= Volume(v.g) && (total == 0 ==> w == v)
  {
    hide Ok, Run, FollowAll, Volume, Stuck, Blocked;
    w, total, aborted, t := v, 0, false, Still(v.g);
    MovesNot(v);
    var num := 1;
    while num > 0 && !aborted
      invariant Ok(ratio)(w) && Moves(v, t, w) && Volume(w.g) <= Volume(v.g) && (total == 0 ==> w == v)
      invariant (num > 0 && !aborted) || Stuck(w)
      invariant aborted ==> Blocked(w.g)
      decreases Volume(w.g), num, !aborted
    {
      ghost var u, before, round := w, t, t;
      w, num, aborted, round := Round(w, threshold, ratio);
      MovesThen(v, before, u, round, w);
      t := Then(before, round);
      total := total + num;
    }
  }

  /** One turn of the loop. */
  method Round(v: View, threshold: nat, ghost ratio: real) returns (w: View, num: nat, aborted: bool, ghost t: Trace)
    requires threshold > 0 && Ok(ratio)(v)
    ensures Ok(ratio)(w) && Moves(v, t, w)
    ensures if num == 0 then w == v && Stuck(w) else Volume(w.g) < Volume(v.g) && !aborted
    ensures aborted ==> Blocked(w.g)
  {
    hide Ok, Run, FollowAll, Volume, NoDegree, AllLone, Stuck, Blocked, AllBoxed, Chosen, SomeKept;
    var a, b, c, x, y;
    ghost var ta, tb, tc;
    x, a, ta := SweepNodes(v, ratio);
    y, b, tb := SweepEdges(x, ratio);
    w, c, tc := SweepChildren(y, ratio);
    MovesThen(v, ta, x, tb, y);
    MovesThen(v, Then(ta, tb), y, tc, w);
    t, num, aborted := Then(Then(ta, tb), tc), a + b + c, false;
    if num == 0 {
      StuckWhen(v, ratio);
      if |w.nodeList| > 2 {
        var d, e, pick;
        BoxedHere(v, ratio);
        x, d, aborted, pick, ta := PickAndMerge(v, threshold, ratio);
        y, e, tb := SweepEdges(x, ratio);
        MovesThen(v, ta, x, tb, y);
        if aborted { return; }
        w, num, t := y, d + e, Then(ta, tb);
      }
    }
  }

  lemma BoxedHere(v: View, ratio: real)
    requires Ok(ratio)(v)
    ensures AllBoxed(v.g)
  {
    hide GoodAt, AllBoxed;
    OkParts(v, ratio);
    GoodBoxed(v.g, ratio);
  }
}
