/** PickAndMerge: which two nodes are merged once nothing is left to eliminate. */
module SbpPick {
  import opened Wrappers
  import opened BinarySet
  import opened CutRatio
  import opened SbpForest
  import opened SbpSteps
  import opened SbpRun
  import opened SbpLists
  import opened SbpOps
  import opened NbhLocal

  const MIN_NODES := 4  // kMinNodeInGraphForMerging

  ghost predicate AllBoxed(g: Graph) { forall k :: k in g.edge ==> Boxed(g.edge[k].cost) }

  lemma GoodBoxed(g: Graph, ratio: real)
    requires GoodAt(ratio)(g)
    ensures AllBoxed(g)
  {
    forall k | k in g.edge ensures Boxed(g.edge[k].cost) { EdgeBoxed(g, k, ratio); }
  }

  lemma EdgeBoxed(g: Graph, k: Id, ratio: real)
    requires GoodAt(ratio)(g) && k in g.edge
    ensures Boxed(g.edge[k].cost)
  {
    hide Boxed;
    var e := g.edge[k];
    assert e.start in g.node && e.end in g.node;
    GoodNode(g, ratio, e.start);
    GoodNode(g, ratio, e.end);
    EdgeSizes(g, k, ratio);
    SizedBoxed(e.cost, |g.node[e.start].cost|, |g.node[e.end].cost|);
  }

  lemma SizedBoxed(t: Table, n: nat, m: nat)
    requires Sized(t, n, m) && n > 0 && m > 0
    ensures Boxed(t)
  {
  }

  // ----- by cut ratio -----

  ghost function CutOf(g: Graph, k: Id, threshold: nat): real
    requires k in g.edge && AllBoxed(g) && threshold > 0
  {
    Cut(g.edge[k].cost, threshold)
  }

  /** k is the edge of least cut ratio, or all of them are at least 1. */
  ghost predicate LeastCut(g: Graph, threshold: nat, best: Option<Id>)
    requires AllBoxed(g) && threshold > 0
  {
    match best
    case None => forall l :: l in g.edge ==> CutOf(g, l, threshold) >= 1.0
    case Some(k) => k in g.edge && CutOf(g, k, threshold) < 1.0
                    && forall l :: l in g.edge ==> CutOf(g, k, threshold) <= CutOf(g, l, threshold)
  }

  /** The edges in the order in which they are looked at: those into the first n nodes of the list. */
  ghost function Visited(v: View, n: nat): seq<Id>
    requires n <= |v.nodeList|
  {
    if n == 0 then [] else
      Visited(v, n - 1) + if v.nodeList[n - 1] in v.into then v.into[v.nodeList[n - 1]] else []
  }

  lemma NobodyVisited(v: View)
    ensures Visited(v, 0) == []
  {
  }

  lemma VisitedMore(v: View, i: nat)
    requires i < |v.nodeList| && v.nodeList[i] in v.into
    ensures Visited(v, i + 1) == Visited(v, i) + v.into[v.nodeList[i]]
  {
  }

  /** It is the first one of that ratio in the order of visiting. */
  ghost predicate FirstOfLeast(g: Graph, threshold: nat, best: Option<Id>, order: seq<Id>)
    requires AllBoxed(g) && threshold > 0
  {
    best.Some? ==> exists at :: 0 <= at < |order| && FirstLeastAt(g, threshold, best.value, order, at)
  }

  ghost predicate FirstLeastAt(g: Graph, threshold: nat, k: Id, order: seq<Id>, at: nat)
    requires AllBoxed(g) && threshold > 0 && at < |order|
  {
    && order[at] == k && k in g.edge
    && forall q :: 0 <= q < at && order[q] in g.edge ==> CutOf(g, order[q], threshold) > CutOf(g, k, threshold)
  }

  /** The same for the edges in ks. */
  ghost predicate LeastSoFar(g: Graph, threshold: nat, best: Option<Id>, least: real, ks: seq<Id>)
    requires AllBoxed(g) && threshold > 0
  {
    && least <= 1.0 && (best.None? ==> least == 1.0)
    && (best.Some? ==> best.value in g.edge && CutOf(g, best.value, threshold) == least < 1.0)
    && (forall q :: 0 <= q < |ks| && ks[q] in g.edge ==> least <= CutOf(g, ks[q], threshold))
    && FirstOfLeast(g, threshold, best, ks)
  }

  lemma SoFarMore(g: Graph, threshold: nat, best: Option<Id>, least: real, ks: seq<Id>, k: Id, ratio: real)
    requires AllBoxed(g) && threshold > 0 && LeastSoFar(g, threshold, best, least, ks)
    requires k in g.edge && ratio == CutOf(g, k, threshold)
    ensures if ratio < least then LeastSoFar(g, threshold, Some(k), ratio, ks + [k])
            else LeastSoFar(g, threshold, best, least, ks + [k])
  {
    hide CutOf;
    var more := ks + [k];
    if ratio < least {
      assert FirstLeastAt(g, threshold, k, more, |ks|);
    } else if best.Some? {
      var at :| 0 <= at < |ks| && FirstLeastAt(g, threshold, best.value, ks, at);
      assert FirstLeastAt(g, threshold, best.value, more, at);
    }
  }

  lemma SoFarAll(g: Graph, threshold: nat, best: Option<Id>, least: real, ks: seq<Id>)
    requires AllBoxed(g) && threshold > 0 && LeastSoFar(g, threshold, best, least, ks)
             && forall l :: l in g.edge ==> l in ks
    ensures LeastCut(g, threshold, best) && FirstOfLeast(g, threshold, best, ks)
  {
    hide CutOf, FirstLeastAt;
    forall l | l in g.edge ensures least <= CutOf(g, l, threshold) { var q :| 0 <= q < |ks| && ks[q] == l; }
  }

  method PickEdge(v: View, threshold: nat, ghost ratio: real) returns (best: Option<Id>)
    requires threshold > 0 && AllBoxed(v.g) && Ok(ratio)(v)
    ensures LeastCut(v.g, threshold, best) && FirstOfLeast(v.g, threshold, best, Visited(v, |v.nodeList|))
  {
    hide Ok, Cut, LeastSoFar, AllBoxed, GoodAt, Listed, LeastCut, FirstOfLeast, Indexed, Visited;
    NobodyVisited(v);
    OkParts(v, ratio);
    best := None;
    var least := 1.0;
    ghost var seen: seq<Id> := [];
    NothingSeen(v.g, threshold);
    for i := 0 to |v.nodeList|
      invariant LeastSoFar(v.g, threshold, best, least, seen) && seen == Visited(v, i)
      invariant forall k :: k in v.g.edge && v.g.edge[k].end in v.nodeList[..i] ==> k in seen
    {
      var n := v.nodeList[i];
      InListOf(v, n, ratio);
      assert v.nodeList[..i + 1] == v.nodeList[..i] + [n];
      for j := 0 to |v.into[n]|
        invariant LeastSoFar(v.g, threshold, best, least, seen) && seen == Visited(v, i) + v.into[n][..j]
        invariant forall k :: k in v.g.edge && v.g.edge[k].end in v.nodeList[..i] ==> k in seen
        invariant forall q :: 0 <= q < j ==> v.into[n][q] in seen
      {
        var k := v.into[n][j];
        assert k in v.into[n];
        BoxedAt(v.g, k);
        var cut := FindCutRatio(v.g.edge[k].cost, threshold);
        SoFarMore(v.g, threshold, best, least, seen, k, cut);
        if cut < least { best, least := Some(k), cut; }
        assert v.into[n][..j + 1] == v.into[n][..j] + [k];
        seen := seen + [k];
      }
      assert v.into[n][..|v.into[n]|] == v.into[n];
      VisitedMore(v, i);
    }
    forall k | k in v.g.edge.Keys ensures k in seen { EndListed(v, k, ratio); }
    SoFarAll(v.g, threshold, best, least, seen);
  }

  lemma NothingSeen(g: Graph, threshold: nat)
    requires AllBoxed(g) && threshold > 0
    ensures LeastSoFar(g, threshold, None, 1.0, [])
  {
    hide Cut;
  }

  lemma BoxedAt(g: Graph, k: Id)
    requires AllBoxed(g) && k in g.edge
    ensures Boxed(g.edge[k].cost)
  {
  }

  lemma InListOf(v: View, n: Id, ratio: real)
    requires Ok(ratio)(v) && n in v.nodeList
    ensures n in v.g.node && n in v.into && n in v.out && n in v.listId && v.listId[n] < |v.nodeList|
    ensures InList(v.g.edge, n, v.into[n]) && OutList(v.g.edge, n, v.out[n])
  {
    var p :| 0 <= p < |v.nodeList| && v.nodeList[p] == n;
  }

  lemma EndListed(v: View, k: Id, ratio: real)
    requires Ok(ratio)(v) && k in v.g.edge
    ensures v.g.edge[k].end in v.nodeList[..|v.nodeList|] && v.g.edge[k].start in v.nodeList
  {
    hide Ok, GoodAt, Listed;
    OkParts(v, ratio);
    GoodWired(v.g, ratio);
    var i, j := v.g.edge[k].end, v.g.edge[k].start;
    assert i in v.g.node && j in v.g.node;
    assert v.nodeList[..|v.nodeList|] == v.nodeList && v.nodeList[v.listId[i]] == i && v.nodeList[v.listId[j]] == j;
  }

  // ----- by common neighbours -----

  /** What the set of a node holds: its own slot and those of its producers. The slots added for its
      outgoing edges are those of their start nodes, which is its own again. */
  ghost function Counted(v: View, i: Id): set<nat>
    requires i in v.listId
  {
    {v.listId[i]} + set k | k in v.g.edge && v.g.edge[k].end == i
        && v.g.edge[k].start in v.listId :: v.listId[v.g.edge[k].start]
  }

  /** It is the neighbourhood of the node exactly when no edge leaves the node. */
  lemma CountedWhen(v: View, i: Id)
    requires i in v.g.node && Wired(v.g) && NoParallel(v.g) && Indexed(v.nodeList, v.listId, v.g.node.Keys)
    ensures Counted(v, i) <= Slots(v, Near(v, i))
    ensures Counted(v, i) == Slots(v, Near(v, i)) <==> forall k :: k in v.g.edge ==> v.g.edge[k].start != i
  {
    assert i in Near(v, i);
    forall k | k in v.g.edge && v.g.edge[k].end == i ensures v.g.edge[k].start in Near(v, i) {
      assert Touches(v.g.edge[k], i) && Other(v.g.edge[k], i) == v.g.edge[k].start;
    }
    if k :| k in v.g.edge && v.g.edge[k].start == i {
      OutNotCounted(v, i, k);
    } else {
      forall j | j in Near(v, i) && j in v.listId ensures v.listId[j] in Counted(v, i) {
        if j != i {
          var k :| k in v.g.edge && Touches(v.g.edge[k], i) && Other(v.g.edge[k], i) == j;
          assert v.g.edge[k].end == i && v.g.edge[k].start == j;
        }
      }
    }
  }

  lemma OutNotCounted(v: View, i: Id, k: Id)
    requires i in v.g.node && Wired(v.g) && NoParallel(v.g) && Indexed(v.nodeList, v.listId, v.g.node.Keys)
    requires k in v.g.edge && v.g.edge[k].start == i
    ensures var j := v.g.edge[k].end;
            && j in v.listId && v.listId[j] in Slots(v, Near(v, i))
            && v.listId[j] !in Counted(v, i)
  {
    var j := v.g.edge[k].end;
    assert Touches(v.g.edge[k], i) && Other(v.g.edge[k], i) == j && j in Near(v, i);
    forall l | l in v.g.edge && v.g.edge[l].end == i ensures v.g.edge[l].start != j {
      assert Between(v.g.edge[l], v.g.edge[k].start, v.g.edge[k].end) ==> l == k;
    }
    assert v.nodeList[v.listId[j]] == j && v.nodeList[v.listId[i]] == i;
  }

  method NeighbourSet(v: View, n: Id, ghost ratio: real) returns (s: BinarySet)
    requires n in v.nodeList && n in v.into && n in v.out && n in v.listId && Ok(ratio)(v)
    ensures fresh(s) && s.Valid() && s.size == |v.nodeList| && s.View() == Counted(v, n)
  {
    hide Ok, Members, Fits;
    InListOf(v, n, ratio);
    s := new BinarySet(|v.nodeList|);
    s.AddEntry(v.listId[n]);
    for j := 0 to |v.into[n]|
      invariant s.Valid() && s.size == |v.nodeList| && fresh(s)
      invariant s.View() == {v.listId[n]} + SlotsOf(v, v.into[n][..j])
    {
      var k := v.into[n][j];
      assert k in v.into[n];
      StartSlot(v, k, ratio);
      SlotsMore(v, v.into[n], j);
      s.AddEntry(v.listId[v.g.edge[k].start]);
    }
    for j := 0 to |v.out[n]|
      invariant s.Valid() && s.size == |v.nodeList| && fresh(s)
      invariant s.View() == {v.listId[n]} + SlotsOf(v, v.into[n])
    {
      var k := v.out[n][j];
      assert k in v.out[n];
      s.AddEntry(v.listId[v.g.edge[k].start]);
    }
    CountedIs(v, n);
  }

  /** The slots of the nodes that these edges start from. */
  ghost function SlotsOf(v: View, ks: seq<Id>): set<nat> {
    set k | k in ks && k in v.g.edge && v.g.edge[k].start in v.listId :: v.listId[v.g.edge[k].start]
  }

  lemma SlotsMore(v: View, ks: seq<Id>, j: nat)
    requires j < |ks| && ks[j] in v.g.edge && v.g.edge[ks[j]].start in v.listId
    ensures SlotsOf(v, ks[..j + 1]) == SlotsOf(v, ks[..j]) + {v.listId[v.g.edge[ks[j]].start]}
    ensures ks[..|ks|] == ks && SlotsOf(v, []) == {}
  {
    assert ks[..j + 1] == ks[..j] + [ks[j]];
  }

  lemma StartSlot(v: View, k: Id, ratio: real)
    requires Ok(ratio)(v) && k in v.g.edge
    ensures v.g.edge[k].start in v.listId && v.listId[v.g.edge[k].start] < |v.nodeList|
  {
    assert v.g.edge[k].start in v.g.node;
  }

  lemma CountedIs(v: View, n: Id)
    requires n in v.listId && n in v.into && InList(v.g.edge, n, v.into[n])
    ensures Counted(v, n) == {v.listId[n]} + SlotsOf(v, v.into[n])
  {
  }

  method NeighbourSets(v: View, ghost ratio: real) returns (sets: seq<BinarySet>)
    requires Ok(ratio)(v)
    ensures |sets| == |v.nodeList| && Sets(v, sets) && forall p :: 0 <= p < |sets| ==> fresh(sets[p])
  {
    hide Ok, Members, Fits, Counted;
    sets := [];
    for p := 0 to |v.nodeList|
      invariant |sets| == p && Sets(v, sets) && forall q :: 0 <= q < p ==> fresh(sets[q])
    {
      InListOf(v, v.nodeList[p], ratio);
      var s := NeighbourSet(v, v.nodeList[p], ratio);
      sets := sets + [s];
    }
  }

  /** sets[p] is the set of the node in slot p. */
  ghost predicate Sets(v: View, sets: seq<BinarySet>)
    reads sets
  {
    |sets| <= |v.nodeList| && forall p :: 0 <= p < |sets| ==> SetAt(v, sets[p], p)
  }

  ghost predicate SetAt(v: View, s: BinarySet, p: nat)
    requires p < |v.nodeList|
    reads s
  {
    s.Valid() && s.size == |v.nodeList| && v.nodeList[p] in v.listId && s.View() == Counted(v, v.nodeList[p])
  }

  ghost function Common(v: View, p: nat, q: nat): nat
    requires p < |v.nodeList| && q < |v.nodeList| && v.nodeList[p] in v.listId && v.nodeList[q] in v.listId
  {
    |Counted(v, v.nodeList[p]) * Counted(v, v.nodeList[q])|
  }

  /** The number of signature pairs of two nodes. */
  function Pairs(v: View, p: nat, q: nat): nat
    requires p < |v.nodeList| && q < |v.nodeList| && v.nodeList[p] in v.g.node && v.nodeList[q] in v.g.node
  {
    |v.g.node[v.nodeList[p]].cost| * |v.g.node[v.nodeList[q]].cost|
  }

  ghost predicate InSlots(v: View) {
    forall p :: 0 <= p < |v.nodeList| ==> v.nodeList[p] in v.g.node && v.nodeList[p] in v.listId
  }

  /** The best of the pairs before (p, q) in the order of the loops: most in common, then fewest
      signature pairs; common is 0 while there is none. */
  ghost predicate BestPair(v: View, threshold: nat, f: nat, s: nat, common: nat, pairs: nat, p: nat, q: nat)
    requires InSlots(v)
  {
    && (common == 0 ==> pairs == 0) && (common > 0 ==> f < p || (f == p && s < q))
    && (common > 0 ==> f < s < |v.nodeList| && Pairs(v, f, s) == pairs <= threshold && Common(v, f, s) == common)
    && forall i: nat, j: nat :: i < j < |v.nodeList| && (i < p || (i == p && j < q)) && Pairs(v, i, j) <= threshold ==>
         Common(v, i, j) < common || (Common(v, i, j) == common && (common == 0 || Preferred(v, f, s, pairs, i, j)))
  }

  /** Fewer signature pairs, or as many and looked at no later. */
  ghost predicate Preferred(v: View, f: nat, s: nat, pairs: nat, i: nat, j: nat)
    requires InSlots(v) && i < |v.nodeList| && j < |v.nodeList|
  {
    pairs < Pairs(v, i, j) || (pairs == Pairs(v, i, j) && (f < i || (f == i && s <= j)))
  }

  lemma PairMore(v: View, threshold: nat, f: nat, s: nat, common: nat, pairs: nat, p: nat, q: nat)
    requires InSlots(v) && p < q < |v.nodeList| && BestPair(v, threshold, f, s, common, pairs, p, q)
    ensures var c, n := Common(v, p, q), Pairs(v, p, q);
            if n <= threshold && (c > common || (c == common && n < pairs))
            then BestPair(v, threshold, p, q, c, n, p, q + 1) else BestPair(v, threshold, f, s, common, pairs, p, q + 1)
  {
    hide Common, Pairs;
  }

  lemma PairRow(v: View, threshold: nat, f: nat, s: nat, common: nat, pairs: nat, p: nat)
    requires InSlots(v) && BestPair(v, threshold, f, s, common, pairs, p, |v.nodeList|)
    ensures BestPair(v, threshold, f, s, common, pairs, p + 1, p + 2)
  {
    hide Common, Pairs;
  }

  lemma FirstPair(v: View, threshold: nat)
    requires InSlots(v)
    ensures BestPair(v, threshold, 0, 0, 0, 0, 0, 1)
  {
    hide Common, Pairs;
  }

  /** The first pair with most in common, and among those with fewest signature pairs; common is 0 if
      no pair within the threshold has anything in common. */
  ghost predicate MostCommon(v: View, threshold: nat, f: nat, s: nat, common: nat) {
    && InSlots(v)
    && (common > 0 ==> f < s < |v.nodeList| && Pairs(v, f, s) <= threshold && Common(v, f, s) == common)
    && forall i: nat, j: nat :: i < j < |v.nodeList| && Pairs(v, i, j) <= threshold ==>
         || Common(v, i, j) < common
         || (Common(v, i, j) == common && (common == 0 || Preferred(v, f, s, Pairs(v, f, s), i, j)))
  }

  lemma AllPairs(v: View, threshold: nat, f: nat, s: nat, common: nat, pairs: nat)
    requires InSlots(v) && BestPair(v, threshold, f, s, common, pairs, |v.nodeList|, |v.nodeList| + 1)
    ensures MostCommon(v, threshold, f, s, common)
  {
    hide Common, Pairs;
  }

  lemma SlotsIn(v: View, ratio: real)
    requires Ok(ratio)(v)
    ensures InSlots(v)
  {
    forall p | 0 <= p < |v.nodeList|
      ensures v.nodeList[p] in v.g.node && v.nodeList[p] in v.listId
    {
      InListOf(v, v.nodeList[p], ratio);
    }
  }

  lemma CommonIs(v: View, p: nat, q: nat, both: set<nat>)
    requires InSlots(v) && p < |v.nodeList| && q < |v.nodeList|
             && both == Counted(v, v.nodeList[p]) * Counted(v, v.nodeList[q])
    ensures |both| == Common(v, p, q)
  {
  }

  lemma SetOf(v: View, sets: seq<BinarySet>, p: nat)
    requires Sets(v, sets) && p < |sets|
    ensures p < |v.nodeList| && v.nodeList[p] in v.listId && sets[p].Valid() && sets[p].size == |v.nodeList|
            && sets[p].View() == Counted(v, v.nodeList[p])
  {
    assert SetAt(v, sets[p], p);
  }

  /** The buffer is used for every pair. */
  method CountCommon(v: View, sets: seq<BinarySet>, p: nat, q: nat, buffer: BinarySet) returns (c: nat)
    requires InSlots(v) && Sets(v, sets) && p < |sets| && q < |sets| && buffer !in sets
    requires buffer.Valid() && buffer.size == |v.nodeList|
    modifies buffer`values
    ensures Sets(v, sets) && buffer.Valid() && c == Common(v, p, q)
  {
    hide Members, Fits, Counted, Sets, InSlots, Common, WordsFor;
    SetOf(v, sets, p);
    SetOf(v, sets, q);
    var _ := sets[p].IntersectionTo(sets[q].values, buffer);
    c := buffer.Total();
    CommonIs(v, p, q, buffer.View());
  }

  method PickPair(v: View, threshold: nat, ghost ratio: real) returns (f: nat, s: nat, common: nat)
    requires Ok(ratio)(v)
    ensures MostCommon(v, threshold, f, s, common)
  {
    hide Ok, Members, Fits, Counted, BestPair, Common, Pairs, Sets;
    SlotsIn(v, ratio);
    var sets := NeighbourSets(v, ratio);
    var buffer := new BinarySet(|v.nodeList|);
    var pairs: nat := 0;
    f, s, common := 0, 0, 0;
    FirstPair(v, threshold);
    for p := 0 to |v.nodeList|
      invariant Sets(v, sets) && |sets| == |v.nodeList| && buffer !in sets && fresh(buffer) && buffer.Valid()
                && buffer.size == |v.nodeList|
      invariant BestPair(v, threshold, f, s, common, pairs, p, p + 1)
    {
      for q := p + 1 to |v.nodeList|
        invariant Sets(v, sets) && buffer.Valid() && buffer.size == |v.nodeList|
        invariant BestPair(v, threshold, f, s, common, pairs, p, q)
      {
        PairMore(v, threshold, f, s, common, pairs, p, q);
        var n := Pairs(v, p, q);
        if n <= threshold {
          var c := CountCommon(v, sets, p, q, buffer);
          if c > common || (c == common && n < pairs) { f, s, common, pairs := p, q, c, n; }
        }
      }
      PairRow(v, threshold, f, s, common, pairs, p);
    }
    AllPairs(v, threshold, f, s, common, pairs);
  }
}
