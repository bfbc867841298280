/** The cost of a neighbourhood: what the nodes of a ring cost together with all their edges,
    charged to the nodes in visiting order. */
module NbhCost {
  import opened Wrappers
  import opened Sums
  import opened SbpForest
  import opened SbpSteps
  import opened SbpComplete
  import opened SbpLists

  /** What the search needs of the live graph. */
  ghost predicate Net(g: Graph) {
    && Wired(g) && NonNegative(g)
    && (forall i :: i in g.node ==> |g.node[i].cost| > 0)
    && forall k :: k in g.edge ==> Sized(g.edge[k].cost, |g.node[g.edge[k].start].cost|, |g.node[g.edge[k].end].cost|)
  }

  /** The nodes to adjust, in visiting order; rank is the inverse of ring. */
  ghost predicate Ring(g: Graph, ring: seq<Id>, rank: map<Id, nat>) {
    && (forall p :: 0 <= p < |ring| ==> ring[p] in g.node && ring[p] in rank && rank[ring[p]] == p)
    && (forall i :: i in rank ==> rank[i] < |ring| && ring[rank[i]] == i)
  }

  ghost function Cells(g: Graph, x: Assign): nat -> real { EdgeTerm(g, EdgeCells(x)) }

  // ----- the edges at a node, by where they lead -----

  predicate Outward(e: Edge, i: Id, rank: map<Id, nat>) { Touches(e, i) && Other(e, i) !in rank }

  predicate Downward(e: Edge, i: Id, rank: map<Id, nat>) {
    Touches(e, i) && i in rank && Other(e, i) in rank && rank[Other(e, i)] < rank[i]
  }

  predicate Upward(e: Edge, i: Id, rank: map<Id, nat>) {
    Touches(e, i) && i in rank && Other(e, i) in rank && rank[Other(e, i)] > rank[i]
  }

  ghost function Outer(g: Graph, i: Id, rank: map<Id, nat>): set<Id> {
    set k | k in g.edge && Outward(g.edge[k], i, rank)
  }

  ghost function Lower(g: Graph, i: Id, rank: map<Id, nat>): set<Id> {
    set k | k in g.edge && Downward(g.edge[k], i, rank)
  }

  ghost function Upper(g: Graph, i: Id, rank: map<Id, nat>): set<Id> {
    set k | k in g.edge && Upward(g.edge[k], i, rank)
  }

  // ----- costs -----

  /** EvalOutNbhCost: the node and its edges to the outside. */
  ghost function OutCost(g: Graph, i: Id, rank: map<Id, nat>, x: Assign): real
    requires i in g.node
  {
    NodeCell(g.node[i], x) + Sum(Outer(g, i, rank), Cells(g, x))
  }

  /** The edges to nodes visited earlier. */
  ghost function InSum(g: Graph, i: Id, rank: map<Id, nat>, x: Assign): real { Sum(Lower(g, i, rank), Cells(g, x)) }

  /** EvalInNbhCost: the same, but infinite once it exceeds the largest valid cost. */
  ghost function InCost(g: Graph, i: Id, rank: map<Id, nat>, x: Assign): real {
    if InSum(g, i, rank, x) > VALID_MAX_COPY_COST then UNSUPPORTED else InSum(g, i, rank, x)
  }

  /** The cost of the first n nodes of the ring: of their own, with the outside, and among
      themselves. */
  ghost function Prefix(g: Graph, ring: seq<Id>, rank: map<Id, nat>, x: Assign, n: nat): real
    requires Ring(g, ring, rank) && n <= |ring|
  {
    if n == 0 then 0.0 else
      Prefix(g, ring, rank, x, n - 1) + OutCost(g, ring[n - 1], rank, x) + InSum(g, ring[n - 1], rank, x)
  }

  ghost function NbhTotal(g: Graph, ring: seq<Id>, rank: map<Id, nat>, x: Assign): real
    requires Ring(g, ring, rank)
  {
    Prefix(g, ring, rank, x, |ring|)
  }

  lemma CellsNonNegative(g: Graph, x: Assign)
    requires NonNegative(g)
    ensures forall k :: k in g.edge ==> 0.0 <= Cells(g, x)(k)
  {
    forall k | k in g.edge ensures 0.0 <= Cells(g, x)(k) {
      assert NonNegativeEdge(g.edge[k]);
    }
  }

  lemma InSumNonNegative(g: Graph, i: Id, rank: map<Id, nat>, x: Assign)
    requires NonNegative(g)
    ensures 0.0 <= InSum(g, i, rank, x) <= InCost(g, i, rank, x) || InSum(g, i, rank, x) > VALID_MAX_COPY_COST
    ensures 0.0 <= InSum(g, i, rank, x) && 0.0 <= InCost(g, i, rank, x)
  {
    CellsNonNegative(g, x);
    SumNonNegative(Lower(g, i, rank), Cells(g, x));
  }

  lemma OutCostNonNegative(g: Graph, i: Id, rank: map<Id, nat>, x: Assign)
    requires NonNegative(g) && i in g.node
    ensures 0.0 <= OutCost(g, i, rank, x)
  {
    CellsNonNegative(g, x);
    SumNonNegative(Outer(g, i, rank), Cells(g, x));
    assert NonNegativeNode(g.node[i]);
  }

  // ----- what the neighbourhood is of the whole graph -----

  /** The edges charged to the first n nodes. */
  ghost function Charged(g: Graph, ring: seq<Id>, rank: map<Id, nat>, n: nat): set<Id>
    requires Ring(g, ring, rank) && n <= |ring|
  {
    set k, p | k in g.edge && 0 <= p < n
        && (Outward(g.edge[k], ring[p], rank) || Downward(g.edge[k], ring[p], rank)) :: k
  }

  lemma ChargedStep(g: Graph, ring: seq<Id>, rank: map<Id, nat>, n: nat)
    requires Wired(g) && Ring(g, ring, rank) && n < |ring|
    ensures var i := ring[n];
            && Outer(g, i, rank) !! Lower(g, i, rank)
               && Charged(g, ring, rank, n) !! Outer(g, i, rank) + Lower(g, i, rank)
            && Charged(g, ring, rank, n + 1) == Charged(g, ring, rank, n) + (Outer(g, i, rank) + Lower(g, i, rank))
  {
    var i := ring[n];
    forall k | k in Charged(g, ring, rank, n) ensures k !in Outer(g, i, rank) + Lower(g, i, rank) {
      var p :| 0 <= p < n && (Outward(g.edge[k], ring[p], rank) || Downward(g.edge[k], ring[p], rank));
      assert rank[ring[p]] == p && rank[i] == n;
    }
    forall k | k in Charged(g, ring, rank, n + 1) ensures k in Charged(g, ring, rank, n)
        + (Outer(g, i, rank) + Lower(g, i, rank)) {
      var p :| 0 <= p < n + 1 && (Outward(g.edge[k], ring[p], rank) || Downward(g.edge[k], ring[p], rank));
      if p < n { assert k in Charged(g, ring, rank, n); }
    }
    forall k | k in Outer(g, i, rank) + Lower(g, i, rank) ensures k in Charged(g, ring, rank, n + 1) {
      assert Outward(g.edge[k], ring[n], rank) || Downward(g.edge[k], ring[n], rank);
    }
    forall k | k in Charged(g, ring, rank, n) ensures k in Charged(g, ring, rank, n + 1) {
      var p :| 0 <= p < n && (Outward(g.edge[k], ring[p], rank) || Downward(g.edge[k], ring[p], rank));
    }
  }

  lemma {:induction false} PrefixIs(g: Graph, ring: seq<Id>, rank: map<Id, nat>, x: Assign, n: nat)
    requires Wired(g) && Ring(g, ring, rank) && n <= |ring|
    ensures Prefix(g, ring, rank, x, n) == Sum(Elems(ring[..n]), NodeTerm(g, NodeCells(x)))
            + Sum(Charged(g, ring, rank, n), Cells(g, x))
    decreases n
  {
    hide Wired, Outer, Lower, Charged, Cells, Elems, Sum, NodeCell;
    if n == 0 {
      NoneCharged(g, ring, rank);
    } else {
      var i := ring[n - 1];
      PrefixIs(g, ring, rank, x, n - 1);
      ChargedStep(g, ring, rank, n - 1);
      SumUnion(Outer(g, i, rank), Lower(g, i, rank), Cells(g, x));
      SumUnion(Charged(g, ring, rank, n - 1), Outer(g, i, rank) + Lower(g, i, rank), Cells(g, x));
      NextInRing(g, ring, rank, n - 1);
      SumAdd(Elems(ring[..n - 1]), i, NodeTerm(g, NodeCells(x)));
    }
  }

  lemma NoneCharged(g: Graph, ring: seq<Id>, rank: map<Id, nat>)
    requires Ring(g, ring, rank)
    ensures forall f :: Sum(Elems(ring[..0]), f) == 0.0 && Sum(Charged(g, ring, rank, 0), f) == 0.0
  {
    assert Elems(ring[..0]) == {} && Charged(g, ring, rank, 0) == {};
  }

  lemma NextInRing(g: Graph, ring: seq<Id>, rank: map<Id, nat>, n: nat)
    requires Ring(g, ring, rank) && n < |ring|
    ensures ring[n] !in Elems(ring[..n]) && Elems(ring[..n + 1]) == Elems(ring[..n]) + {ring[n]}
  {
    assert ring[..n + 1] == ring[..n] + [ring[n]];
    forall p | 0 <= p < n ensures ring[p] != ring[n] { assert rank[ring[p]] == p && rank[ring[n]] == n; }
  }

  /** x and y differ on the ring only. */
  ghost predicate Varies(x: Assign, y: Assign, ring: seq<Id>) { forall i :: i !in ring ==> At(x, i) == At(y, i) }

  /** The whole cost: the neighbourhood and the rest. */
  lemma WholeIs(g: Graph, ring: seq<Id>, rank: map<Id, nat>, z: Assign)
    requires Wired(g) && Ring(g, ring, rank)
    ensures GraphCost(g, z) == NbhTotal(g, ring, rank, z) + Sum(g.node.Keys - Elems(ring), NodeTerm(g, NodeCells(z)))
                               + Sum(g.edge.Keys - Charged(g, ring, rank, |ring|), Cells(g, z))
  {
    hide Ring, Charged, Prefix, Sum, NodeTerm, GraphCost;
    var n := |ring|;
    assert ring[..n] == ring;
    PrefixIs(g, ring, rank, z, n);
    InGraph(g, ring, rank);
    CostSplit(g, Elems(ring), Charged(g, ring, rank, n), z);
  }

  lemma InGraph(g: Graph, ring: seq<Id>, rank: map<Id, nat>)
    requires Ring(g, ring, rank)
    ensures Elems(ring) <= g.node.Keys && Charged(g, ring, rank, |ring|) <= g.edge.Keys
  {
    hide Outward, Downward;
  }

  lemma CostSplit(g: Graph, nodes: set<Id>, ties: set<Id>, z: Assign)
    requires nodes <= g.node.Keys && ties <= g.edge.Keys
    ensures GraphCost(g, z) == Sum(nodes, NodeTerm(g, NodeCells(z)))
            + Sum(g.node.Keys - nodes, NodeTerm(g, NodeCells(z)))
                               + Sum(ties, Cells(g, z)) + Sum(g.edge.Keys - ties, Cells(g, z))
  {
    hide Sum, NodeTerm;
    assert g.node.Keys == nodes + (g.node.Keys - nodes) && g.edge.Keys == ties + (g.edge.Keys - ties);
    SumUnion(nodes, g.node.Keys - nodes, NodeTerm(g, NodeCells(z)));
    SumUnion(ties, g.edge.Keys - ties, Cells(g, z));
  }

  /** Changing signatures on the ring changes the cost of the whole graph by exactly the change
      of the neighbourhood's cost. */
  lemma WholeChange(g: Graph, ring: seq<Id>, rank: map<Id, nat>, x: Assign, y: Assign)
    requires Wired(g) && Ring(g, ring, rank) && Varies(x, y, ring)
    ensures GraphCost(g, y) - GraphCost(g, x) == NbhTotal(g, ring, rank, y) - NbhTotal(g, ring, rank, x)
  {
    hide GraphCost, Prefix, Charged, Ring;
    WholeIs(g, ring, rank, x);
    WholeIs(g, ring, rank, y);
    var restN, restE := g.node.Keys - Elems(ring), g.edge.Keys - Charged(g, ring, rank, |ring|);
    forall i | i in restN
      ensures NodeTerm(g, NodeCells(x))(i) == NodeTerm(g, NodeCells(y))(i)
    {
      assert g.node[i].id == i;
    }
    SumSame(restN, NodeTerm(g, NodeCells(x)), NodeTerm(g, NodeCells(y)));
    forall k | k in restE ensures Cells(g, x)(k) == Cells(g, y)(k) { Uncharged(g, ring, rank, k); }
    SumSame(restE, Cells(g, x), Cells(g, y));
  }

  /** An edge charged to nobody touches no node of the ring. */
  lemma Uncharged(g: Graph, ring: seq<Id>, rank: map<Id, nat>, k: Id)
    requires Wired(g) && Ring(g, ring, rank) && k in g.edge && k !in Charged(g, ring, rank, |ring|)
    ensures g.edge[k].start !in ring && g.edge[k].end !in ring
  {
    var e := g.edge[k];
    forall p | 0 <= p < |ring| ensures e.start != ring[p] && e.end != ring[p] {
      assert !Outward(e, ring[p], rank) && !Downward(e, ring[p], rank);
      if Touches(e, ring[p]) {
        var q := rank[Other(e, ring[p])];
        assert ring[q] == Other(e, ring[p]) && q != p;
        assert !Downward(e, ring[q], rank);
      }
    }
  }

  // ----- clipping -----

  /** The cost the search accumulates: infinite edges count as UNSUPPORTED. */
  ghost function Clipped(g: Graph, ring: seq<Id>, rank: map<Id, nat>, x: Assign, n: nat): real
    requires Ring(g, ring, rank) && n <= |ring|
  {
    if n == 0 then 0.0 else
      Clipped(g, ring, rank, x, n - 1) + OutCost(g, ring[n - 1], rank, x) + InCost(g, ring[n - 1], rank, x)
  }

  /** A valid accumulated cost is the true cost; an invalid true cost stays invalid. */
  lemma {:induction false} ClipFacts(g: Graph, ring: seq<Id>, rank: map<Id, nat>, x: Assign, n: nat)
    requires NonNegative(g) && Ring(g, ring, rank) && n <= |ring|
    ensures 0.0 <= Clipped(g, ring, rank, x, n) && 0.0 <= Prefix(g, ring, rank, x, n)
    ensures Clipped(g, ring, rank, x, n) <= VALID_MAX_COPY_COST ==>
            Prefix(g, ring, rank, x, n) == Clipped(g, ring, rank, x, n)
    ensures Prefix(g, ring, rank, x, n) == Clipped(g, ring, rank, x, n)
            || Prefix(g, ring, rank, x, n) > VALID_MAX_COPY_COST
    decreases n
  {
    if n > 0 {
      ClipFacts(g, ring, rank, x, n - 1);
      OutCostNonNegative(g, ring[n - 1], rank, x);
      InSumNonNegative(g, ring[n - 1], rank, x);
    }
  }

  // ----- the lower bound -----

  ghost function LeastIn(row: seq<real>): real
    requires |row| > 0
  {
    if |row| == 1 then row[0] else
      var m, l := LeastIn(row[..|row| - 1]), row[|row| - 1];
      if l < m then l else m
  }

  lemma {:induction false} LeastInFacts(row: seq<real>, j: nat)
    requires j < |row|
    ensures LeastIn(row) <= row[j]
    decreases |row|
  {
    if |row| > 1 && j < |row| - 1 { LeastInFacts(row[..|row| - 1], j); }
  }

  ghost function LeastCell(t: Table): real
    requires |t| > 0 && forall i :: 0 <= i < |t| ==> |t[i]| > 0
  {
    if |t| == 1 then LeastIn(t[0]) else
      var m, l := LeastCell(t[..|t| - 1]), LeastIn(t[|t| - 1]);
      if l < m then l else m
  }

  /** The least entry is one of the entries. */
  lemma {:induction false} LeastCellAttained(t: Table) returns (i: nat, j: nat)
    requires |t| > 0 && forall p :: 0 <= p < |t| ==> |t[p]| > 0
    ensures i < |t| && j < |t[i]| && LeastCell(t) == t[i][j]
    decreases |t|
  {
    i := |t| - 1;
    j := LeastInAttained(t[i]);
    if |t| > 1 && LeastCell(t[..|t| - 1]) <= LeastIn(t[i]) { i, j := LeastCellAttained(t[..|t| - 1]); }
  }

  lemma {:induction false} LeastInAttained(row: seq<real>) returns (j: nat)
    requires |row| > 0
    ensures j < |row| && LeastIn(row) == row[j]
    decreases |row|
  {
    j := |row| - 1;
    if |row| > 1 && LeastIn(row[..|row| - 1]) <= row[j] { j := LeastInAttained(row[..|row| - 1]); }
  }

  lemma {:induction false} LeastCellFacts(t: Table, i: nat, j: nat)
    requires |t| > 0 && (forall p :: 0 <= p < |t| ==> |t[p]| > 0) && i < |t| && j < |t[i]|
    ensures LeastCell(t) <= t[i][j]
    decreases |t|
  {
    if |t| > 1 && i < |t| - 1 {
      assert t[..|t| - 1][i] == t[i];
      LeastCellFacts(t[..|t| - 1], i, j);
    } else {
      LeastInFacts(t[i], j);
    }
  }

  ghost predicate Filled(t: Table) { |t| > 0 && forall i :: 0 <= i < |t| ==> |t[i]| > 0 }

  /** The least entry of every edge table. */
  ghost function Mins(g: Graph): nat -> real {
    (k: nat) => if k in g.edge && Filled(g.edge[k].cost) then LeastCell(g.edge[k].cost) else 0.0
  }

  lemma MinsBelow(g: Graph, x: Assign, k: Id)
    requires Net(g) && Sigs(g, x) && k in g.edge
    ensures Mins(g)(k) <= Cells(g, x)(k)
  {
    var e := g.edge[k];
    assert Sized(e.cost, |g.node[e.start].cost|, |g.node[e.end].cost|);
    LeastCellFacts(e.cost, At(x, e.start), At(x, e.end));
  }

  lemma {:induction false} LeastInNonNegative(row: seq<real>)
    requires |row| > 0 && forall j :: 0 <= j < |row| ==> 0.0 <= row[j]
    ensures 0.0 <= LeastIn(row)
    decreases |row|
  {
    if |row| > 1 { LeastInNonNegative(row[..|row| - 1]); }
  }

  lemma {:induction false} LeastCellNonNegative(t: Table)
    requires Filled(t) && forall i: Sig, j: Sig :: 0.0 <= Cell(t, i, j)
    ensures 0.0 <= LeastCell(t)
    decreases |t|
  {
    forall i, j | 0 <= i < |t| && 0 <= j < |t[i]| ensures 0.0 <= t[i][j] { assert 0.0 <= Cell(t, i, j); }
    LeastInNonNegative(t[|t| - 1]);
    if |t| > 1 {
      var u := t[..|t| - 1];
      forall i: Sig, j: Sig ensures 0.0 <= Cell(u, i, j) { assert 0.0 <= Cell(t, i, j); }
      LeastCellNonNegative(u);
    }
  }

  lemma MinsNonNegative(g: Graph, k: Id)
    requires NonNegative(g) && k in g.edge
    ensures 0.0 <= Mins(g)(k)
  {
    assert NonNegativeEdge(g.edge[k]);
    if Filled(g.edge[k].cost) { LeastCellNonNegative(g.edge[k].cost); }
  }

  /** The edges between nodes of rank from lo to below hi. */
  ghost function Within(g: Graph, rank: map<Id, nat>, lo: nat, hi: nat): set<Id> {
    set k | k in g.edge && g.edge[k].start in rank && g.edge[k].end in rank
            && lo <= rank[g.edge[k].start] < hi && lo <= rank[g.edge[k].end] < hi
  }

  /** One rank more: the new edges all lead down from the new node. */
  lemma WithinUp(g: Graph, ring: seq<Id>, rank: map<Id, nat>, lo: nat, hi: nat) returns (more: set<Id>)
    requires Wired(g) && Ring(g, ring, rank) && lo <= hi < |ring|
    ensures more <= Lower(g, ring[hi], rank) && more <= Within(g, rank, 0, |ring|)
    ensures Sum(Within(g, rank, lo, hi + 1), Mins(g)) == Sum(Within(g, rank, lo, hi), Mins(g)) + Sum(more, Mins(g))
  {
    hide Mins;
    var old', new' := Within(g, rank, lo, hi), Within(g, rank, lo, hi + 1);
    more := new' - old';
    forall k | k in more ensures k in Lower(g, ring[hi], rank) {
      var e := g.edge[k];
      assert rank[ring[hi]] == hi && ring[rank[e.start]] == e.start && ring[rank[e.end]] == e.end;
    }
    SumUnion(old', more, Mins(g));
    assert old' + more == new';
  }

  lemma WithinDown(g: Graph, ring: seq<Id>, rank: map<Id, nat>, lo: nat)
    requires Wired(g) && Ring(g, ring, rank) && lo < |ring|
    ensures Within(g, rank, lo, |ring|) == Within(g, rank, lo + 1, |ring|) + Upper(g, ring[lo], rank)
    ensures Within(g, rank, lo + 1, |ring|) !! Upper(g, ring[lo], rank)
  {
    forall k | k in g.edge
      ensures k in Within(g, rank, lo, |ring|) <==>
              k in Within(g, rank, lo + 1, |ring|) || k in Upper(g, ring[lo], rank)
      ensures !(k in Within(g, rank, lo + 1, |ring|) && k in Upper(g, ring[lo], rank))
    {
      var e := g.edge[k];
      assert rank[ring[lo]] == lo;
      if e.start in rank { assert ring[rank[e.start]] == e.start; }
      if e.end in rank { assert ring[rank[e.end]] == e.end; }
    }
  }

  lemma SumSubset(s: set<nat>, t: set<nat>, f: nat -> real)
    requires s <= t && forall i :: i in t ==> 0.0 <= f(i)
    ensures Sum(s, f) <= Sum(t, f)
  {
    SumUnion(s, t - s, f);
    assert s + (t - s) == t;
    SumNonNegative(t - s, f);
  }

  /** The edges down from a node cost at least their minima. */
  lemma InSumAtLeast(g: Graph, i: Id, rank: map<Id, nat>, x: Assign, some: set<Id>)
    requires Net(g) && Sigs(g, x) && some <= Lower(g, i, rank)
    ensures InSum(g, i, rank, x) >= Sum(some, Mins(g))
  {
    forall k | k in some ensures Mins(g)(k) <= Cells(g, x)(k) { MinsBelow(g, x, k); }
    SumLeq(some, Mins(g), Cells(g, x));
    CellsNonNegative(g, x);
    SumSubset(some, Lower(g, i, rank), Cells(g, x));
  }

  lemma {:induction false} PrefixAtLeast(g: Graph, ring: seq<Id>, rank: map<Id, nat>, x: Assign, n: nat)
    requires Net(g) && Sigs(g, x) && Ring(g, ring, rank) && n <= |ring|
    ensures Prefix(g, ring, rank, x, n) >= Sum(Within(g, rank, 0, n), Mins(g))
    decreases n
  {
    hide Net, Sigs, InSum, OutCost, Mins, Wired, NonNegative;
    NetFacts(g);
    if n == 0 {
      assert Within(g, rank, 0, 0) == {};
    } else {
      PrefixAtLeast(g, ring, rank, x, n - 1);
      var more := WithinUp(g, ring, rank, 0, n - 1);
      InSumAtLeast(g, ring[n - 1], rank, x, more);
      OutCostNonNegative(g, ring[n - 1], rank, x);
    }
  }

  /** outs[p][s] is the out-cost of the p-th node under signature s, the outside being as in x. */
  ghost predicate OutTable(g: Graph, ring: seq<Id>, rank: map<Id, nat>, x: Assign, outs: seq<seq<real>>) {
    && Ring(g, ring, rank) && |outs| == |ring|
    && (forall p :: 0 <= p < |ring| ==> |outs[p]| == |g.node[ring[p]].cost| > 0)
    && forall p, y: Assign :: 0 <= p < |ring| && Sigs(g, y) && Varies(x, y, ring) ==>
       outs[p][At(y, ring[p])] == OutCost(g, ring[p], rank, y)
  }

  ghost function LeastOuts(outs: seq<seq<real>>, lo: nat, hi: nat): real
    requires lo <= hi <= |outs| && forall p :: 0 <= p < |outs| ==> |outs[p]| > 0
    decreases hi
  {
    if lo == hi then 0.0 else LeastOuts(outs, lo, hi - 1) + LeastIn(outs[hi - 1])
  }

  /** Between two points of the search, the accumulated cost rises at least by the bound. */
  lemma {:induction false} Rises(g: Graph, ring: seq<Id>, rank: map<Id, nat>, x: Assign, outs: seq<seq<real>>,
                                 y: Assign, lo: nat, hi: nat)
    requires Net(g) && Sigs(g, y) && OutTable(g, ring, rank, x, outs) && Varies(x, y, ring) && lo <= hi <= |ring|
    requires Sum(Within(g, rank, 0, |ring|), Mins(g)) <= VALID_MAX_COPY_COST
    ensures Clipped(g, ring, rank, y, hi) - Clipped(g, ring, rank, y, lo) >= LeastOuts(outs, lo, hi)
            + Sum(Within(g, rank, lo, hi), Mins(g))
    decreases hi
  {
    hide Net, Sigs, Clipped, Mins, Ring, Wired, NonNegative, OutTable, Varies, Lower, LeastIn, Within, Sum;
    NetFacts(g);
    OutTableFacts(g, ring, rank, x, outs, y);
    if lo == hi {
      NoneWithin(g, rank, lo);
    } else {
      Rises(g, ring, rank, x, outs, y, lo, hi - 1);
      var more := WithinUp(g, ring, rank, lo, hi - 1);
      RiseStep(g, ring, rank, x, outs, y, hi - 1, more);
    }
  }

  lemma NoneWithin(g: Graph, rank: map<Id, nat>, lo: nat)
    ensures Sum(Within(g, rank, lo, lo), Mins(g)) == 0.0
  {
    hide Mins;
    assert Within(g, rank, lo, lo) == {};
  }

  /** One node more adds at least its least out-cost and the minima of some edges that lead down. */
  lemma RiseStep(g: Graph, ring: seq<Id>, rank: map<Id, nat>, x: Assign, outs: seq<seq<real>>, y: Assign, n: nat,
                 more: set<Id>)
    requires Net(g) && Sigs(g, y) && OutTable(g, ring, rank, x, outs) && Varies(x, y, ring) && n < |ring|
    requires Sum(Within(g, rank, 0, |ring|), Mins(g)) <= VALID_MAX_COPY_COST
    requires more <= Lower(g, ring[n], rank) && more <= Within(g, rank, 0, |ring|)
    ensures Clipped(g, ring, rank, y, n + 1) - Clipped(g, ring, rank, y, n) >= LeastIn(outs[n]) + Sum(more, Mins(g))
  {
    hide Net, Sigs, InSum, OutCost, Mins, Ring, Wired, NonNegative, OutTable, Varies, Lower, Within, Sum, LeastIn;
    NetFacts(g);
    OutTableFacts(g, ring, rank, x, outs, y);
    InSumAtLeast(g, ring[n], rank, y, more);
    FewMins(g, ring, rank, more);
    LeastInFacts(outs[n], At(y, ring[n]));
  }

  lemma NetFacts(g: Graph)
    requires Net(g)
    ensures Wired(g) && NonNegative(g)
  {
  }

  lemma OutTableFacts(g: Graph, ring: seq<Id>, rank: map<Id, nat>, x: Assign, outs: seq<seq<real>>, y: Assign)
    requires OutTable(g, ring, rank, x, outs) && Sigs(g, y) && Varies(x, y, ring)
    ensures Ring(g, ring, rank) && |outs| == |ring| && (forall p :: 0 <= p < |outs| ==> |outs[p]| > 0)
    ensures forall p :: 0 <= p < |ring| ==>
              ring[p] in g.node && At(y, ring[p]) < |outs[p]| && outs[p][At(y, ring[p])] == OutCost(g, ring[p], rank, y)
  {
    forall p | 0 <= p < |ring|
      ensures At(y, ring[p]) < |outs[p]| && outs[p][At(y, ring[p])] == OutCost(g, ring[p], rank, y)
    {
      assert ring[p] in g.node;
    }
  }

  lemma FewMins(g: Graph, ring: seq<Id>, rank: map<Id, nat>, some: set<Id>)
    requires NonNegative(g) && Sum(Within(g, rank, 0, |ring|), Mins(g)) <= VALID_MAX_COPY_COST
             && some <= Within(g, rank, 0, |ring|)
    ensures Sum(some, Mins(g)) <= VALID_MAX_COPY_COST
  {
    forall k | k in Within(g, rank, 0, |ring|) ensures 0.0 <= Mins(g)(k) { MinsNonNegative(g, k); }
    SumSubset(some, Within(g, rank, 0, |ring|), Mins(g));
  }
}
