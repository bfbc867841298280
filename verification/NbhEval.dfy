/** The sums the neighbourhood search evaluates, edge list by edge list, and the orders it
    visits things in. */
module NbhEval {
  import opened Wrappers
  import opened Sums
  import opened SbpForest
  import opened SbpSteps
  import opened SbpComplete
  import opened SbpLists
  import opened NbhCost

  /** The edges of a list that belong to all. */
  ghost function Of(all: set<Id>, ks: seq<Id>): set<Id> { set k | k in ks && k in all }

  lemma OfStep(all: set<Id>, ks: seq<Id>, j: nat, f: nat -> real)
    requires Distinct(ks) && j < |ks|
    ensures Sum(Of(all, ks[..j + 1]), f) == Sum(Of(all, ks[..j]), f) + (if ks[j] in all then f(ks[j]) else 0.0)
  {
    var k, a, b := ks[j], Of(all, ks[..j]), Of(all, ks[..j + 1]);
    assert ks[..j + 1] == ks[..j] + [k] && k !in ks[..j];
    if k in all {
      assert b == a + {k};
      SumAdd(a, k, f);
    } else {
      assert b == a;
    }
  }

  /** The two lists of a node hold the edges at it once each. */
  lemma BothLists(g: Graph, out: map<Id, seq<Id>>, into: map<Id, seq<Id>>, i: Id, all: set<Id>, f: nat -> real)
    requires Wired(g) && Listed(g, out, into) && i in g.node && forall k :: k in all ==>
             k in g.edge && Touches(g.edge[k], i)
    ensures Sum(all, f) == Sum(Of(all, into[i]), f) + Sum(Of(all, out[i]), f)
    ensures Distinct(into[i]) && Distinct(out[i]) && (forall k :: k in into[i] ==> k in g.edge)
            && (forall k :: k in out[i] ==> k in g.edge)
  {
    assert OutList(g.edge, i, out[i]) && InList(g.edge, i, into[i]);
    var a, b := Of(all, into[i]), Of(all, out[i]);
    forall k | k in a ensures k !in b { assert g.edge[k].end == i; }
    SumUnion(a, b, f);
    assert all == a + b;
  }

  /** Add up the outward edges of one list. */
  method AddOutward(g: Graph, ks: seq<Id>, i: Id, rank: map<Id, nat>, x: Assign, start: real) returns (sum: real)
    requires Distinct(ks) && forall k :: k in ks ==> k in g.edge
    ensures sum == start + Sum(Of(Outer(g, i, rank), ks), Cells(g, x))
  {
    sum := start;
    assert Of(Outer(g, i, rank), ks[..0]) == {};
    for j := 0 to |ks|
      invariant sum == start + Sum(Of(Outer(g, i, rank), ks[..j]), Cells(g, x))
    {
      assert ks[j] in ks;
      OfStep(Outer(g, i, rank), ks, j, Cells(g, x));
      if Outward(g.edge[ks[j]], i, rank) { sum := sum + EdgeCell(g.edge[ks[j]], x); }
    }
    assert ks[..|ks|] == ks;
  }

  method EvalOutNbhCost(g: Graph, out: map<Id, seq<Id>>, into: map<Id, seq<Id>>, i: Id, rank: map<Id, nat>, x: Assign)
    returns (cost: real)
    requires Wired(g) && i in g.node && Listed(g, out, into)
    ensures cost == OutCost(g, i, rank, x)
  {
    BothLists(g, out, into, i, Outer(g, i, rank), Cells(g, x));
    hide Wired, OutList, InList, Outer, Cells;
    cost := AddOutward(g, into[i], i, rank, x, NodeCell(g.node[i], x));
    cost := AddOutward(g, out[i], i, rank, x, cost);
  }

  /** Add up the edges of one list that lead down, but stop once the sum is no longer valid. */
  method AddClipped(g: Graph, ks: seq<Id>, i: Id, rank: map<Id, nat>, x: Assign, start: real)
    returns (sum: real, over: bool)
    requires NonNegative(g) && Distinct(ks) && (forall k :: k in ks ==> k in g.edge) && start <= VALID_MAX_COPY_COST
    ensures var all := start + Sum(Of(Lower(g, i, rank), ks), Cells(g, x));
            (over <==> all > VALID_MAX_COPY_COST) && (!over ==> sum == all)
  {
    ghost var low := Lower(g, i, rank);
    sum, over := start, false;
    assert Of(low, ks[..0]) == {};
    for j := 0 to |ks|
      invariant sum == start + Sum(Of(low, ks[..j]), Cells(g, x)) <= VALID_MAX_COPY_COST
    {
      assert ks[j] in ks;
      OfStep(low, ks, j, Cells(g, x));
      if Downward(g.edge[ks[j]], i, rank) {
        sum := sum + EdgeCell(g.edge[ks[j]], x);
        if sum > VALID_MAX_COPY_COST {
          CellsNonNegative(g, x);
          assert Of(low, ks[..j + 1]) <= Of(low, ks);
          SumSubset(Of(low, ks[..j + 1]), Of(low, ks), Cells(g, x));
          over := true;
          return;
        }
      }
    }
    assert ks[..|ks|] == ks;
  }

  method EvalInNbhCost(g: Graph, out: map<Id, seq<Id>>, into: map<Id, seq<Id>>, i: Id, rank: map<Id, nat>, x: Assign)
    returns (cost: real)
    requires Wired(g) && NonNegative(g) && i in g.node && Listed(g, out, into)
    ensures cost == InCost(g, i, rank, x)
  {
    BothLists(g, out, into, i, Lower(g, i, rank), Cells(g, x));
    CellsNonNegative(g, x);
    assert Of(Lower(g, i, rank), out[i]) <= g.edge.Keys;
    SumNonNegative(Of(Lower(g, i, rank), out[i]), Cells(g, x));
    hide Wired, OutList, InList, Lower, Cells, NonNegative;
    var sum, over := AddClipped(g, into[i], i, rank, x, 0.0);
    if over { return UNSUPPORTED; }
    sum, over := AddClipped(g, out[i], i, rank, x, sum);
    if over { return UNSUPPORTED; }
    cost := sum;
  }

  method LeastOfRow(row: seq<real>) returns (least: real)
    requires |row| > 0
    ensures least == LeastIn(row)
  {
    least := row[0];
    assert row[..1] == [row[0]];
    for j := 1 to |row|
      invariant least == LeastIn(row[..j])
    {
      assert row[..j + 1][..j] == row[..j];
      if row[j] < least { least := row[j]; }
    }
    assert row[..|row|] == row;
  }

  /** The least entry of a table, computed afresh. */
  method MinWeightedCost(e: Edge) returns (least: real)
    requires Filled(e.cost)
    ensures least == LeastCell(e.cost)
  {
    var t := e.cost;
    least := LeastOfRow(t[0]);
    assert t[..1] == [t[0]];
    for i := 1 to |t|
      invariant least == LeastCell(t[..i])
    {
      var row := LeastOfRow(t[i]);
      assert t[..i + 1][..i] == t[..i];
      if row < least { least := row; }
    }
    assert t[..|t|] == t;
  }

  /** min_weighted_cost_ and the memory ratio it was computed for. */
  datatype Cached = Cached(ratio: real, least: real)

  /** What is stored for the current ratio, unless negative, is the least entry of the table. */
  ghost predicate Sound(c: Cached, ratio: real, e: Edge) {
    c.ratio == ratio && 0.0 <= c.least ==> Filled(e.cost) && c.least == LeastCell(e.cost)
  }

  /** SbpEdge::GetMinWeightedCost: the stored value stands for the table as long as the table only
      changes with the ratio; a negative one is never used. */
  method GetMinWeightedCost(e: Edge, ratio: real, c: Cached) returns (least: real, c': Cached)
    requires Filled(e.cost) && Sound(c, ratio, e)
    ensures least == LeastCell(e.cost) && Sound(c', ratio, e) && c' == Cached(ratio, least)
    ensures c != c' ==> c.ratio != ratio || c.least < 0.0
  {
    if ratio == c.ratio && c.least >= 0.0 { return c.least, c; }
    least := MinWeightedCost(e);
    c' := Cached(ratio, least);
  }

  method AddMins(g: Graph, ks: seq<Id>, i: Id, rank: map<Id, nat>, start: real) returns (sum: real)
    requires Distinct(ks) && forall k :: k in ks ==> k in g.edge && Filled(g.edge[k].cost)
    ensures sum == start + Sum(Of(Upper(g, i, rank), ks), Mins(g))
  {
    ghost var high := Upper(g, i, rank);
    sum := start;
    assert Of(high, ks[..0]) == {};
    for j := 0 to |ks|
      invariant sum == start + Sum(Of(high, ks[..j]), Mins(g))
    {
      assert ks[j] in ks;
      OfStep(high, ks, j, Mins(g));
      if Upward(g.edge[ks[j]], i, rank) {
        var least := MinWeightedCost(g.edge[ks[j]]);
        sum := sum + least;
      }
    }
    assert ks[..|ks|] == ks;
  }

  method EvalMinInNbhCost(g: Graph, out: map<Id, seq<Id>>, into: map<Id, seq<Id>>, i: Id, rank: map<Id, nat>)
    returns (cost: real)
    requires Wired(g) && i in g.node && Listed(g, out, into) && forall k :: k in g.edge ==> Filled(g.edge[k].cost)
    ensures cost == Sum(Upper(g, i, rank), Mins(g))
  {
    BothLists(g, out, into, i, Upper(g, i, rank), Mins(g));
    hide Wired, OutList, InList, Upper, Mins, Filled;
    cost := AddMins(g, into[i], i, rank, 0.0);
    cost := AddMins(g, out[i], i, rank, cost);
  }

  // ----- orders -----

  /** order lists 0 .. n-1, each once. */
  ghost predicate Permutes(order: seq<nat>, n: nat) {
    |order| == n && Distinct(order) && forall i :: i in order <==> 0 <= i < n
  }

  predicate Precedes(v: seq<real>, i: nat, j: nat, up: bool) {
    i < |v| && j < |v| && if up then v[i] <= v[j] else v[i] >= v[j]
  }

  /** v read along order goes up, or down. */
  ghost predicate Ordered(v: seq<real>, order: seq<nat>, up: bool) {
    forall p, q :: 0 <= p < q < |order| ==> Precedes(v, order[p], order[q], up)
  }

  /** DecideOrder: the indices of v, sorted by the values they stand for. */
  method DecideOrder(v: seq<real>, up: bool) returns (order: seq<nat>)
    ensures Permutes(order, |v|) && Ordered(v, order, up)
  {
    order := [];
    for i := 0 to |v|
      invariant Permutes(order, i) && Ordered(v, order, up)
    {
      var p := 0;
      while p < |order| && Precedes(v, order[p], i, up)
        invariant p <= |order| && forall q :: 0 <= q < p ==> Precedes(v, order[q], i, up)
      {
        p := p + 1;
      }
      if p < |order| { assert order[p] in order; }
      Inserted(v, order, i, p, up);
      order := order[..p] + [i] + order[p..];
    }
  }

  lemma Inserted(v: seq<real>, order: seq<nat>, i: nat, p: nat, up: bool)
    requires Permutes(order, i) && Ordered(v, order, up) && i < |v| && p <= |order|
    requires forall q :: 0 <= q < p ==> Precedes(v, order[q], i, up)
    requires p < |order| ==> Precedes(v, i, order[p], up)
    ensures var new' := order[..p] + [i] + order[p..]; Permutes(new', i + 1) && Ordered(v, new', up)
  {
    var new' := order[..p] + [i] + order[p..];
    forall k ensures k in new' <==> k in order || k == i {
      if k in order {
        var q :| 0 <= q < |order| && order[q] == k;
        assert new'[if q < p then q else q + 1] == k;
      }
      if k == i { assert new'[p] == k; }
    }
    forall a, b | 0 <= a < b < |new'| ensures new'[a] != new'[b] && Precedes(v, new'[a], new'[b], up) {
      var a', b' := if a < p then a else a - 1, if b < p then b else b - 1;
      if a != p { assert new'[a] == order[a'] && order[a'] in order; }
      if b != p { assert new'[b] == order[b'] && order[b'] in order; }
      if a == p && b > p + 1 { assert Precedes(v, order[p], order[b'], up); }
    }
  }

  /** The nodes of the neighbourhood in visiting order, and the inverse map. */
  method Visit(nbh: seq<Id>, order: seq<nat>) returns (ring: seq<Id>, rank: map<Id, nat>)
    requires Distinct(nbh) && Permutes(order, |nbh|)
    ensures |ring| == |nbh| && (forall p :: 0 <= p < |ring| ==> order[p] < |nbh| && ring[p] == nbh[order[p]])
    ensures forall i :: i in ring <==> i in nbh
    ensures (forall p :: 0 <= p < |ring| ==> ring[p] in rank && rank[ring[p]] == p)
    ensures (forall i :: i in rank ==> rank[i] < |ring| && ring[rank[i]] == i)
  {
    ring, rank := [], map[];
    for p := 0 to |nbh|
      invariant |ring| == p && (forall q :: 0 <= q < p ==> order[q] < |nbh| && ring[q] == nbh[order[q]])
      invariant (forall q :: 0 <= q < p ==> ring[q] in rank && rank[ring[q]] == q)
      invariant (forall i :: i in rank ==> rank[i] < |ring| && ring[rank[i]] == i)
    {
      assert order[p] in order;
      forall q | 0 <= q < p ensures ring[q] != nbh[order[p]] {
        assert order[q] in order && order[q] != order[p];
      }
      ring, rank := ring + [nbh[order[p]]], rank[nbh[order[p]] := p];
    }
    forall i | i in nbh ensures i in ring {
      var j :| 0 <= j < |nbh| && nbh[j] == i;
      assert j in order;
      var p :| 0 <= p < |order| && order[p] == j;
      assert ring[p] == i;
    }
  }
}
