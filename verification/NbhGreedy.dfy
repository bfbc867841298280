/** NbhGreedyStrategy: adjusting the signatures of one neighbourhood. */
module NbhGreedy {
  import opened Wrappers
  import opened Sums
  import opened SbpForest
  import opened SbpSteps
  import opened SbpComplete
  import opened SbpLists
  import opened NbhCost
  import opened NbhEval
  import opened NbhSearch

  // ----- the cost of a neighbourhood does not depend on the visiting order -----

  /** The edges that touch one of the nodes. */
  ghost function TiesOf(g: Graph, nodes: set<Id>): set<Id> {
    set k | k in g.edge && (g.edge[k].start in nodes || g.edge[k].end in nodes)
  }

  /** The nodes and all their edges. */
  ghost function NbhOf(g: Graph, nodes: set<Id>, x: Assign): real {
    Sum(nodes, NodeTerm(g, NodeCells(x))) + Sum(TiesOf(g, nodes), Cells(g, x))
  }

  lemma NbhTotalIs(g: Graph, ring: seq<Id>, rank: map<Id, nat>, x: Assign)
    requires Wired(g) && Ring(g, ring, rank)
    ensures NbhTotal(g, ring, rank, x) == NbhOf(g, Elems(ring), x)
  {
    hide Prefix, Ring, Charged, TiesOf, Sum;
    var n := |ring|;
    PrefixIs(g, ring, rank, x, n);
    assert ring[..n] == ring;
    ChargedTies(g, ring, rank);
  }

  lemma ChargedTies(g: Graph, ring: seq<Id>, rank: map<Id, nat>)
    requires Wired(g) && Ring(g, ring, rank)
    ensures Charged(g, ring, rank, |ring|) == TiesOf(g, Elems(ring))
  {
    var n := |ring|;
    forall k | k in Charged(g, ring, rank, n) ensures k in TiesOf(g, Elems(ring)) {
      var p :| 0 <= p < n && (Outward(g.edge[k], ring[p], rank) || Downward(g.edge[k], ring[p], rank));
      assert ring[p] in Elems(ring);
    }
    forall k | k in TiesOf(g, Elems(ring)) ensures k in Charged(g, ring, rank, n) {
      if k !in Charged(g, ring, rank, n) { Uncharged(g, ring, rank, k); }
    }
  }

  lemma NbhBelowWhole(g: Graph, ring: seq<Id>, rank: map<Id, nat>, x: Assign)
    requires Wired(g) && NonNegative(g) && Ring(g, ring, rank)
    ensures NbhTotal(g, ring, rank, x) <= GraphCost(g, x)
  {
    hide Prefix, Charged, GraphCost, Ring;
    WholeIs(g, ring, rank, x);
    CellsNonNegative(g, x);
    forall i | i in g.node.Keys - Elems(ring)
      ensures 0.0 <= NodeTerm(g, NodeCells(x))(i)
    {
      assert NonNegativeNode(g.node[i]);
    }
    SumNonNegative(g.node.Keys - Elems(ring), NodeTerm(g, NodeCells(x)));
    SumNonNegative(g.edge.Keys - Charged(g, ring, rank, |ring|), Cells(g, x));
  }

  // ----- out-costs -----

  /** The out-cost looks at the node itself and at nodes outside the neighbourhood only. */
  lemma OutFrame(g: Graph, i: Id, nbh: seq<Id>, first: map<Id, nat>, rank: map<Id, nat>, x: Assign, y: Assign)
    requires Wired(g) && i in g.node && i in nbh && first.Keys == rank.Keys && (forall j :: j in nbh ==> j in rank)
    requires Varies(x, y, nbh) && At(x, i) == At(y, i)
    ensures OutCost(g, i, first, x) == OutCost(g, i, rank, y)
  {
    assert Outer(g, i, first) == Outer(g, i, rank);
    SumSame(Outer(g, i, rank), Cells(g, x), Cells(g, y));
    assert g.node[i].id == i;
  }

  /** out_nbh_costs of one node: every signature in turn, from the last one down. */
  method OutRow(g: Graph, out: map<Id, seq<Id>>, into: map<Id, seq<Id>>, i: Id, nbh: seq<Id>, first: map<Id, nat>,
                x: Assign)
    returns (row: seq<real>, y: Assign)
    requires Wired(g) && i in g.node && i in nbh && Listed(g, out, into) && (forall j :: j in nbh ==> j in first)
    ensures Varies(x, y, nbh) && |row| == |g.node[i].cost|
    ensures forall s :: 0 <= s < |row| ==> row[s] == OutCost(g, i, first, x[i := s])
  {
    row, y := [], x;
    var s := |g.node[i].cost|;
    while s > 0
      invariant 0 <= s <= |g.node[i].cost| && |row| == |g.node[i].cost| - s && Varies(x, y, nbh)
      invariant forall p :: 0 <= p < |row| ==> row[p] == OutCost(g, i, first, x[i := s + p])
    {
      hide OutCost, Wired, Listed, Varies;
      s := s - 1;
      SetBoth(x, y, nbh, i, s);
      y := y[i := s];
      var cost := EvalOutNbhCost(g, out, into, i, first, y);
      OutFrame(g, i, nbh, first, first, y, x[i := s]);
      row := [cost] + row;
    }
  }

  lemma SetBoth(x: Assign, y: Assign, nbh: seq<Id>, i: Id, s: Sig)
    requires Varies(x, y, nbh) && i in nbh
    ensures Varies(x, y[i := s], nbh) && Varies(y[i := s], x[i := s], nbh) && At(y[i := s], i) == At(x[i := s], i)
  {
  }

  /** InverseFunction: the position of every node in the list. */
  method Positions(nbh: seq<Id>) returns (first: map<Id, nat>)
    ensures first.Keys == Elems(nbh)
  {
    first := map[];
    for n := 0 to |nbh|
      invariant first.Keys == Elems(nbh[..n])
    {
      assert nbh[..n + 1] == nbh[..n] + [nbh[n]];
      first := first[nbh[n] := n];
    }
    assert nbh[..|nbh|] == nbh;
  }

  /** out_nbh_costs of all nodes, by position in nbh. */
  method OutRows(g: Graph, out: map<Id, seq<Id>>, into: map<Id, seq<Id>>, nbh: seq<Id>, first: map<Id, nat>,
                 x: Assign) returns (rows: seq<seq<real>>)
    requires Wired(g) && (forall i :: i in nbh ==> i in g.node && i in first) && Listed(g, out, into)
    ensures |rows| == |nbh| && forall n :: 0 <= n < |nbh| ==> OutRowOf(g, nbh[n], first, x, rows[n])
  {
    rows := [];
    var y: Assign := x;
    for n := 0 to |nbh|
      invariant |rows| == n && Varies(x, y, nbh) && forall q :: 0 <= q < n ==> OutRowOf(g, nbh[q], first, x, rows[q])
    {
      hide Wired, Listed, OutCost;
      var i := nbh[n];
      assert i in nbh;
      var row, z := OutRow(g, out, into, i, nbh, first, y);
      forall s | 0 <= s < |row| ensures row[s] == OutCost(g, i, first, x[i := s]) {
        OutFrame(g, i, nbh, first, first, y[i := s], x[i := s]);
      }
      rows, y := rows + [row], z;
    }
  }

  ghost predicate OutRowOf(g: Graph, i: Id, first: map<Id, nat>, x: Assign, row: seq<real>) {
    i in g.node && |row| == |g.node[i].cost| && forall s :: 0 <= s < |row| ==> row[s] == OutCost(g, i, first, x[i := s])
  }

  /** The rows, taken in visiting order, are the table the search needs. */
  lemma OutRowsTable(g: Graph, nbh: seq<Id>, first: map<Id, nat>, order: seq<nat>, ring: seq<Id>, rank: map<Id, nat>,
                     x: Assign,
                     rows: seq<seq<real>>, outs: seq<seq<real>>)
    requires Net(g) && Ring(g, ring, rank) && first.Keys == Elems(nbh) && rank.Keys == Elems(nbh)
             && (forall i :: i in ring <==> i in nbh)
    requires |rows| == |nbh| && forall n :: 0 <= n < |nbh| ==> OutRowOf(g, nbh[n], first, x, rows[n])
    requires |outs| == |ring| == |order| && forall p :: 0 <= p < |ring| ==>
             order[p] < |nbh| && ring[p] == nbh[order[p]] && outs[p] == rows[order[p]]
    ensures OutTable(g, ring, rank, x, outs)
  {
    hide OutCost;
    forall p | 0 <= p < |ring|
      ensures |outs[p]| == |g.node[ring[p]].cost| > 0
    {
      assert OutRowOf(g, nbh[order[p]], first, x, rows[order[p]]);
    }
    forall p, y: Assign | 0 <= p < |ring| && Sigs(g, y) && Varies(x, y, ring)
      ensures outs[p][At(y, ring[p])] == OutCost(g, ring[p], rank, y)
    {
      var i := ring[p];
      assert i in ring && i in nbh && OutRowOf(g, i, first, x, outs[p]);
      OutFrame(g, i, nbh, first, rank, x[i := At(y, i)], y);
    }
  }

  // ----- the cost to start from -----

  ghost function Leg(g: Graph, rank: map<Id, nat>, x: Assign): nat -> real {
    (i: nat) => if i in g.node then OutCost(g, i, rank, x) + InCost(g, i, rank, x) else 0.0
  }

  lemma {:induction false} ClippedIsSum(g: Graph, ring: seq<Id>, rank: map<Id, nat>, x: Assign, n: nat)
    requires Ring(g, ring, rank) && n <= |ring|
    ensures Clipped(g, ring, rank, x, n) == SeqSum(ring[..n], Leg(g, rank, x))
    decreases n
  {
    hide OutCost, InCost;
    if n > 0 {
      ClippedIsSum(g, ring, rank, x, n - 1);
      assert ring[..n][..n - 1] == ring[..n - 1];
    }
  }

  lemma RingDistinct(g: Graph, ring: seq<Id>, rank: map<Id, nat>)
    requires Ring(g, ring, rank)
    ensures Distinct(ring)
  {
    forall p, q | 0 <= p < q < |ring| ensures ring[p] != ring[q] { assert rank[ring[p]] == p && rank[ring[q]] == q; }
  }

  /** Adding up node by node in the given order gives the cost accumulated in visiting order. */
  method OriginalCost(g: Graph, out: map<Id, seq<Id>>, into: map<Id, seq<Id>>, nbh: seq<Id>, rows: seq<seq<real>>,
                      ghost first: map<Id, nat>,
                      ghost ring: seq<Id>, rank: map<Id, nat>, x: Assign) returns (cost: real)
    requires Wired(g) && NonNegative(g) && Listed(g, out, into) && Ring(g, ring, rank) && Distinct(nbh) && Sigs(g, x)
    requires first.Keys == Elems(nbh) && rank.Keys == Elems(nbh) && Elems(ring) == Elems(nbh)
    requires |rows| == |nbh| && forall n :: 0 <= n < |nbh| ==> OutRowOf(g, nbh[n], first, x, rows[n])
    ensures cost == Clipped(g, ring, rank, x, |ring|)
  {
    hide Wired, NonNegative, Listed, OutCost, InCost, Ring, Clipped, Distinct;
    cost := 0.0;
    for n := 0 to |nbh|
      invariant cost == SeqSum(nbh[..n], Leg(g, rank, x))
    {
      var i := nbh[n];
      assert i in nbh && OutRowOf(g, i, first, x, rows[n]);
      OutFrame(g, i, nbh, first, rank, x[i := At(x, i)], x);
      var more := EvalInNbhCost(g, out, into, i, rank, x);
      cost := cost + rows[n][At(x, i)] + more;
      assert nbh[..n + 1][..n] == nbh[..n];
    }
    assert nbh[..|nbh|] == nbh;
    AnyOrder(g, nbh, ring, rank, x);
  }

  lemma AnyOrder(g: Graph, nbh: seq<Id>, ring: seq<Id>, rank: map<Id, nat>, x: Assign)
    requires Ring(g, ring, rank) && Distinct(nbh) && Elems(ring) == Elems(nbh)
    ensures SeqSum(nbh, Leg(g, rank, x)) == Clipped(g, ring, rank, x, |ring|)
  {
    hide Leg, Clipped;
    assert ring[..|ring|] == ring;
    ClippedIsSum(g, ring, rank, x, |ring|);
    RingDistinct(g, ring, rank);
    SeqSumIsSum(nbh, Leg(g, rank, x));
    SeqSumIsSum(ring, Leg(g, rank, x));
  }

  // ----- the accumulated lower bounds -----

  lemma {:induction false} LeastOutsFront(outs: seq<seq<real>>, lo: nat, hi: nat)
    requires lo < hi <= |outs| && forall p :: 0 <= p < |outs| ==> |outs[p]| > 0
    ensures LeastOuts(outs, lo, hi) == LeastIn(outs[lo]) + LeastOuts(outs, lo + 1, hi)
    decreases hi
  {
    if lo + 1 < hi { LeastOutsFront(outs, lo, hi - 1); }
  }

  ghost function Bound(g: Graph, ring: seq<Id>, rank: map<Id, nat>, outs: seq<seq<real>>, o: nat): real
    requires o <= |ring| == |outs| && forall p :: 0 <= p < |outs| ==> |outs[p]| > 0
  {
    LeastOuts(outs, o, |ring|) + Sum(Within(g, rank, o, |ring|), Mins(g))
  }

  lemma BoundStep(g: Graph, ring: seq<Id>, rank: map<Id, nat>, outs: seq<seq<real>>, o: nat)
    requires Wired(g) && Ring(g, ring, rank) && o < |ring| == |outs| && forall p :: 0 <= p < |outs| ==> |outs[p]| > 0
    ensures Bound(g, ring, rank, outs, o) == Bound(g, ring, rank, outs, o + 1) + LeastIn(outs[o])
            + Sum(Upper(g, ring[o], rank), Mins(g))
    ensures o == |ring| - 1 ==> Bound(g, ring, rank, outs, o) == LeastIn(outs[o])
  {
    hide Mins;
    LeastOutsFront(outs, o, |ring|);
    WithinDown(g, ring, rank, o);
    SumUnion(Within(g, rank, o + 1, |ring|), Upper(g, ring[o], rank), Mins(g));
    if o == |ring| - 1 {
      forall k | k in g.edge ensures k !in Within(g, rank, o, |ring|) {
        var e := g.edge[k];
        if e.start in rank { assert ring[rank[e.start]] == e.start; }
        if e.end in rank { assert ring[rank[e.end]] == e.end; }
      }
      assert Within(g, rank, o, |ring|) == {};
    }
  }

  lemma NetFilled(g: Graph)
    requires Net(g)
    ensures Wired(g) && NonNegative(g) && forall k :: k in g.edge ==> Filled(g.edge[k].cost)
  {
  }

  /** order2acc_min_in_nbh_cost, filled from the last node back. */
  method Accumulate(g: Graph, out: map<Id, seq<Id>>, into: map<Id, seq<Id>>, ring: seq<Id>, rank: map<Id, nat>,
                    outs: seq<seq<real>>)
    returns (acc: seq<real>)
    requires Net(g) && Listed(g, out, into) && Ring(g, ring, rank) && |ring| > 0
    requires |outs| == |ring| && forall p :: 0 <= p < |outs| ==> |outs[p]| > 0
    ensures |acc| == |ring| && forall o :: 0 <= o < |ring| ==> acc[o] == Bound(g, ring, rank, outs, o)
  {
    hide Net, Listed, Bound, LeastIn, Mins;
    NetFilled(g);
    var o := |ring| - 1;
    BoundStep(g, ring, rank, outs, o);
    var least := LeastOfRow(outs[o]);
    acc := [least];
    while o > 0
      invariant 0 <= o < |ring| && |acc| == |ring| - o
      invariant forall p :: o <= p < |ring| ==> acc[p - o] == Bound(g, ring, rank, outs, p)
    {
      o := o - 1;
      BoundStep(g, ring, rank, outs, o);
      least := LeastOfRow(outs[o]);
      var more := EvalMinInNbhCost(g, out, into, ring[o], rank);
      acc := [acc[0] + least + more] + acc;
    }
  }

  /** If there is an assignment of valid cost at all, the bounds are admissible. */
  lemma BoundsHold(c: Scene, x0: Assign, z: Assign)
    requires Set(c, x0) && Sigs(c.g, z) && NbhTotal(c.g, c.ring, c.rank, z) <= VALID_MAX_COPY_COST
    requires |c.outs| == |c.ring| && (forall p :: 0 <= p < |c.outs| ==> |c.outs[p]| > 0)
    requires forall o :: 0 <= o < |c.ring| ==> o < |c.acc| && c.acc[o] == Bound(c.g, c.ring, c.rank, c.outs, o)
    ensures Admissible(c, x0)
  {
    hide Net, Sigs, Prefix, Clipped, OutTable, LeastOuts, Mins, Within, Set;
    SetFacts(c, x0);
    SetTable(c, x0);
    PrefixAtLeast(c.g, c.ring, c.rank, z, |c.ring|);
    forall y: Assign, o | 0 <= o < |c.ring| && o < |c.acc| && Sigs(c.g, y) && Varies(x0, y, c.ring)
      ensures Cost(c, y, o) + c.acc[o] <= Cost(c, y, |c.ring|)
    {
      Rises(c.g, c.ring, c.rank, x0, c.outs, y, o, |c.ring|);
    }
  }

  // ----- the strategy -----

  /** The rows in visiting order. */
  function Reordered<T>(rows: seq<T>, order: seq<nat>): (r: seq<T>)
    requires forall p :: 0 <= p < |order| ==> order[p] < |rows|
    ensures |r| == |order| && forall p :: 0 <= p < |r| ==> r[p] == rows[order[p]]
  {
    seq(|order|, p requires 0 <= p < |order| => rows[order[p]])
  }

  /** max - min of every row, by which the nodes are ordered. */
  method Spreads(rows: seq<seq<real>>) returns (diff: seq<real>)
    requires forall n :: 0 <= n < |rows| ==> |rows[n]| > 0
    ensures |diff| == |rows|
  {
    diff := [];
    for n := 0 to |rows|
      invariant |diff| == n
    {
      var least := LeastOfRow(rows[n]);
      var most := LeastOfRow(seq(|rows[n]|, s requires 0 <= s < |rows[n]| => -rows[n][s]));
      diff := diff + [-most - least];
    }
  }

  method Orders(outs: seq<seq<real>>) returns (orders: seq<seq<nat>>)
    ensures |orders| == |outs| && forall p :: 0 <= p < |outs| ==> Permutes(orders[p], |outs[p]|)
  {
    orders := [];
    for p := 0 to |outs|
      invariant |orders| == p && forall q :: 0 <= q < p ==> Permutes(orders[q], |outs[q]|)
    {
      hide Permutes;
      var order := DecideOrder(outs[p], true);
      orders := orders + [order];
    }
  }

  /** Everything the search needs, and the cost it starts from. */
  method Prepare(g: Graph, out: map<Id, seq<Id>>, into: map<Id, seq<Id>>, nbh: seq<Id>, x: Assign)
    returns (c: Scene, original: real)
    requires Net(g) && Listed(g, out, into) && Distinct(nbh) && |nbh| > 0 && (forall i :: i in nbh ==> i in g.node)
             && Sigs(g, x)
    ensures c.g == g && Set(c, x) && Elems(c.ring) == Elems(nbh) && original == Cost(c, x, |c.ring|)
    ensures (exists z :: Sigs(g, z) && NbhTotal(g, c.ring, c.rank, z) <= VALID_MAX_COPY_COST) ==> Admissible(c, x)
  {
    hide Net, Listed, Permutes, OutTable, Admissible, Clipped, Prefix, OutRowOf, Bound, LeastIn, Sigs;
    NetFilled(g);
    var first := Positions(nbh);
    var rows := OutRows(g, out, into, nbh, first, x);
    RowsSized(g, nbh, first, x, rows);
    var diff := Spreads(rows);
    var order := DecideOrder(diff, false);
    var ring, rank := Visit(nbh, order);
    InOrder(order, |rows|);
    var outs := Reordered(rows, order);
    VisitRing(g, nbh, ring, rank);
    OutRowsTable(g, nbh, first, order, ring, rank, x, rows, outs);
    TableSized(g, ring, rank, x, outs);
    var orders := Orders(outs);
    var acc := Accumulate(g, out, into, ring, rank, outs);
    original := OriginalCost(g, out, into, nbh, rows, first, ring, rank, x);
    c := Scene(g, out, into, ring, rank, outs, orders, acc);
    if z :| Sigs(g, z) && NbhTotal(g, ring, rank, z) <= VALID_MAX_COPY_COST { BoundsHold(c, x, z); }
  }

  lemma RowsSized(g: Graph, nbh: seq<Id>, first: map<Id, nat>, x: Assign, rows: seq<seq<real>>)
    requires Net(g) && |rows| == |nbh| && forall n :: 0 <= n < |nbh| ==> OutRowOf(g, nbh[n], first, x, rows[n])
    ensures forall n :: 0 <= n < |rows| ==> |rows[n]| > 0
  {
    hide OutCost;
  }

  lemma InOrder(order: seq<nat>, n: nat)
    requires Permutes(order, n)
    ensures |order| == n && forall p :: 0 <= p < n ==> order[p] < n
  {
    forall p | 0 <= p < n ensures order[p] < n { assert order[p] in order; }
  }

  lemma VisitRing(g: Graph, nbh: seq<Id>, ring: seq<Id>, rank: map<Id, nat>)
    requires (forall i :: i in nbh ==> i in g.node) && (forall i :: i in ring <==> i in nbh)
    requires (forall p :: 0 <= p < |ring| ==> ring[p] in rank && rank[ring[p]] == p)
    requires (forall i :: i in rank ==> rank[i] < |ring| && ring[rank[i]] == i)
    ensures Ring(g, ring, rank) && rank.Keys == Elems(nbh) && Elems(ring) == Elems(nbh)
  {
    forall p | 0 <= p < |ring| ensures ring[p] in g.node { assert ring[p] in ring; }
    forall i ensures i in rank <==> i in nbh {
      if i in rank { assert ring[rank[i]] in ring; }
      if i in nbh {
        assert i in ring;
        var p :| 0 <= p < |ring| && ring[p] == i;
      }
    }
  }

  lemma TableSized(g: Graph, ring: seq<Id>, rank: map<Id, nat>, x: Assign, outs: seq<seq<real>>)
    requires OutTable(g, ring, rank, x, outs)
    ensures |outs| == |ring| && forall p :: 0 <= p < |outs| ==> |outs[p]| > 0
  {
  }

  /** Write the kept signatures back. */
  method Settle(x: Assign, ring: seq<Id>, best: seq<Sig>) returns (y: Assign)
    requires Distinct(ring) && |best| == |ring|
    ensures Varies(x, y, ring) && forall p :: 0 <= p < |ring| ==> At(y, ring[p]) == best[p]
  {
    y := x;
    for p := 0 to |ring|
      invariant Varies(x, y, ring) && forall q :: 0 <= q < p ==> At(y, ring[q]) == best[q]
    {
      assert ring[p] in ring;
      y := y[ring[p] := best[p]];
    }
  }

  /** SbpGraph::NbhGreedyStrategy. */
  method NbhGreedyStrategy(g: Graph, out: map<Id, seq<Id>>, into: map<Id, seq<Id>>, nbh: seq<Id>, x: Assign)
    returns (y: Assign, delta: real)
    requires Net(g) && Listed(g, out, into) && Distinct(nbh) && |nbh| > 0 && (forall i :: i in nbh ==> i in g.node)
             && Sigs(g, x)
    ensures Sigs(g, y) && Varies(x, y, nbh)
    ensures NbhOf(g, Elems(nbh), x) <= VALID_MAX_COPY_COST ==>
              && delta == GraphCost(g, y) - GraphCost(g, x) && delta <= 0.0
              && (delta == 0.0 ==> forall i :: At(y, i) == At(x, i))
              && NearlyBest(g, nbh, x, y)
    ensures GraphCost(g, x) <= VALID_MAX_COPY_COST ==> NbhOf(g, Elems(nbh), x) <= VALID_MAX_COPY_COST
    ensures Hopeful(g, Elems(nbh), x) ==>
              NearlyBest(g, nbh, x, y) && NbhOf(g, Elems(nbh), y) <= VALID_MAX_COPY_COST
  {
    hide Net, Sigs, Listed, Admissible, Set, NearlyBest, Improves, SearchedAll, GraphCost, NbhOf, Prefix, NonNegative,
        Wired, Ring, Hopeful;
    var c, original := Prepare(g, out, into, nbh, x);
    SetFacts(c, x);
    NbhTotalIs(g, c.ring, c.rank, x);
    NbhBelowWhole(g, c.ring, c.rank, x);
    SceneStart(c, x);
    var best := Signatures(c, x);
    var z, kept, least := Dfs(c, x, best, original, 0, 0.0, x);
    RingDistinct(g, c.ring, c.rank);
    KeptSized(c, x, best, original, kept, least);
    y := Settle(x, c.ring, kept);
    delta := if least < original && original * NEARLY > least then least - original else 0.0;
    Outcome(c, nbh, x, original, kept, least, y);
    if NbhOf(g, Elems(nbh), x) <= VALID_MAX_COPY_COST { ValidOutcome(c, nbh, x, original, kept, least, y); }
    if Hopeful(g, Elems(nbh), x) { HopefulOutcome(c, nbh, x, least, y); }
  }

  /** z differs from y on the nodes at most. */
  ghost predicate Elsewhere(nodes: set<Id>, y: Assign, z: Assign) { forall i :: i !in nodes ==> At(z, i) == At(y, i) }

  /** Some signatures of these nodes have a cost that is valid, with a little to spare. */
  ghost predicate Hopeful(g: Graph, nodes: set<Id>, x: Assign) {
    exists z: Assign :: Sigs(g, z) && Elsewhere(nodes, x, z) && NbhOf(g, nodes, z) <= NEARLY * VALID_MAX_COPY_COST
  }

  /** Wherever the search starts: if there are such signatures, it finds some of valid cost. */
  lemma HopefulOutcome(c: Scene, nbh: seq<Id>, x: Assign, least: real, y: Assign)
    requires Set(c, x) && Elems(c.ring) == Elems(nbh) && Hopeful(c.g, Elems(nbh), x)
    requires Varies(x, y, c.ring) && Cost(c, y, |c.ring|) == least
    requires (exists z :: Sigs(c.g, z) && NbhTotal(c.g, c.ring, c.rank, z) <= VALID_MAX_COPY_COST) ==>
               SearchedAll(c, x, 0, least)
    ensures NearlyBest(c.g, nbh, x, y) && NbhOf(c.g, Elems(nbh), y) <= VALID_MAX_COPY_COST
  {
    hide Set, Net, Sigs, GraphCost, Clipped, Prefix, NonNegative, Wired, Ring, NbhOf, SearchedAll;
    SetFacts(c, x);
    var hope: Assign :| && Sigs(c.g, hope) && Elsewhere(Elems(nbh), x, hope)
                        && NbhOf(c.g, Elems(nbh), hope) <= NEARLY * VALID_MAX_COPY_COST;
    NbhTotalIs(c.g, c.ring, c.rank, hope);
    assert forall i :: i in nbh <==> i in Elems(nbh);
    SameNodes(c, nbh, x, hope);
    ClipFacts(c.g, c.ring, c.rank, hope, |c.ring|);
    AllOf(c, x, hope, least);
    ClipFacts(c.g, c.ring, c.rank, y, |c.ring|);
    NbhTotalIs(c.g, c.ring, c.rank, y);
    forall z: Assign | Sigs(c.g, z) && Varies(x, z, nbh)
      ensures NEARLY * NbhOf(c.g, Elems(nbh), y) <= NbhOf(c.g, Elems(nbh), z)
    {
      SameNodes(c, nbh, x, z);
      ClipFacts(c.g, c.ring, c.rank, z, |c.ring|);
      NbhTotalIs(c.g, c.ring, c.rank, z);
      AllOf(c, x, z, least);
    }
  }

  /** No assignment of the neighbourhood costs less than nearly what y costs. */
  ghost predicate NearlyBest(g: Graph, nbh: seq<Id>, x: Assign, y: Assign) {
    forall z: Assign :: Sigs(g, z) && Varies(x, z, nbh) ==> NEARLY * NbhOf(g, Elems(nbh), y) <= NbhOf(g, Elems(nbh), z)
  }

  lemma SceneStart(c: Scene, x: Assign)
    requires Ring(c.g, c.ring, c.rank)
    ensures Cost(c, x, 0) == 0.0 && Varies(x, x, c.ring)
  {
  }

  lemma KeptSized(c: Scene, x: Assign, best: seq<Sig>, original: real, kept: seq<Sig>, least: real)
    requires Ring(c.g, c.ring, c.rank) && |best| == |c.ring| && Improves(c, x, best, original, kept, least)
    ensures |kept| == |c.ring|
  {
    hide Clipped;
  }

  lemma SameNodes(c: Scene, nbh: seq<Id>, x: Assign, y: Assign)
    requires Elems(c.ring) == Elems(nbh)
    ensures Varies(x, y, c.ring) <==> Varies(x, y, nbh)
  {
    assert forall i :: i in c.ring <==> i in Elems(c.ring);
    assert forall i :: i in nbh <==> i in Elems(nbh);
  }

  /** y is x itself, or the better assignment the search kept. */
  lemma Outcome(c: Scene, nbh: seq<Id>, x: Assign, original: real, kept: seq<Sig>, least: real, y: Assign)
    requires Ring(c.g, c.ring, c.rank) && Elems(c.ring) == Elems(nbh) && Sigs(c.g, x)
             && original == Cost(c, x, |c.ring|)
    requires |kept| == |c.ring| && Improves(c, x, Signatures(c, x), original, kept, least)
    requires Varies(x, y, c.ring) && forall p :: 0 <= p < |c.ring| ==> At(y, c.ring[p]) == kept[p]
    ensures Sigs(c.g, y) && Varies(x, y, nbh) && Cost(c, y, |c.ring|) == least
    ensures least == original ==> forall i :: At(y, i) == At(x, i)
    ensures least != original ==> least < NEARLY * original
  {
    SameNodes(c, nbh, x, y);
    if kept == Signatures(c, x) && least == original {
      forall i ensures At(y, i) == At(x, i) {
        if i in c.ring { var p :| 0 <= p < |c.ring| && c.ring[p] == i; assert kept[p] == At(x, i); }
      }
      CostSame(c, x, y);
    } else {
      var z: Assign :| Holding(c, x, kept, z) && Cost(c, z, |c.ring|) == least;
      forall i ensures At(y, i) == At(z, i) {
        if i in c.ring { var p :| 0 <= p < |c.ring| && c.ring[p] == i; }
      }
      CostSame(c, z, y);
    }
  }

  lemma CostSame(c: Scene, x: Assign, y: Assign)
    requires Ring(c.g, c.ring, c.rank) && (forall i :: At(x, i) == At(y, i)) && Sigs(c.g, x)
    ensures Cost(c, x, |c.ring|) == Cost(c, y, |c.ring|) && Sigs(c.g, y)
  {
    SameCost(c.g, c.ring, c.rank, x, y, |c.ring|);
  }

  lemma {:induction false} SameCost(g: Graph, ring: seq<Id>, rank: map<Id, nat>, x: Assign, y: Assign, n: nat)
    requires Ring(g, ring, rank) && n <= |ring| && forall i :: At(x, i) == At(y, i)
    ensures Clipped(g, ring, rank, x, n) == Clipped(g, ring, rank, y, n)
    decreases n
  {
    if n > 0 {
      var i := ring[n - 1];
      SameCost(g, ring, rank, x, y, n - 1);
      SumSame(Outer(g, i, rank), Cells(g, x), Cells(g, y));
      SumSame(Lower(g, i, rank), Cells(g, x), Cells(g, y));
    }
  }

  lemma ValidOutcome(c: Scene, nbh: seq<Id>, x: Assign, original: real, kept: seq<Sig>, least: real, y: Assign)
    requires Set(c, x) && Elems(c.ring) == Elems(nbh) && Sigs(c.g, x)
             && NbhOf(c.g, Elems(nbh), x) <= VALID_MAX_COPY_COST
    requires original == Cost(c, x, |c.ring|) && Varies(x, y, c.ring) && Cost(c, y, |c.ring|) == least <= original
    requires (exists z :: Sigs(c.g, z) && NbhTotal(c.g, c.ring, c.rank, z) <= VALID_MAX_COPY_COST) ==>
               SearchedAll(c, x, 0, least)
    ensures least - original == GraphCost(c.g, y) - GraphCost(c.g, x) && NearlyBest(c.g, nbh, x, y)
  {
    hide Set, Net, Sigs, GraphCost, Clipped, Prefix, NonNegative, Wired, Ring, NbhOf, SearchedAll;
    SetFacts(c, x);
    NbhTotalIs(c.g, c.ring, c.rank, x);
    ClipFacts(c.g, c.ring, c.rank, x, |c.ring|);
    ClipFacts(c.g, c.ring, c.rank, y, |c.ring|);
    WholeChange(c.g, c.ring, c.rank, x, y);
    NbhTotalIs(c.g, c.ring, c.rank, y);
    forall z: Assign | Sigs(c.g, z) && Varies(x, z, nbh) ensures NEARLY * NbhOf(c.g, Elems(nbh), y)
        <= NbhOf(c.g, Elems(nbh), z) {
      SameNodes(c, nbh, x, z);
      ClipFacts(c.g, c.ring, c.rank, z, |c.ring|);
      NbhTotalIs(c.g, c.ring, c.rank, z);
      AllOf(c, x, z, least);
    }
  }

  lemma AllOf(c: Scene, x: Assign, z: Assign, least: real)
    requires Ring(c.g, c.ring, c.rank) && SearchedAll(c, x, 0, least) && Sigs(c.g, z) && Varies(x, z, c.ring)
    ensures NEARLY * least <= Cost(c, z, |c.ring|)
  {
    hide Clipped, Sigs;
    assert c.ring[0..] == c.ring;
    assert Alike(c, x, z, 0);
  }
}
