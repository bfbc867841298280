/** Neighbourhoods, and what a signature two or more edges away cannot change. */
module NbhLocal {
  import opened Sums
  import opened SbpForest
  import opened SbpSteps
  import opened SbpOps
  import opened NbhCost
  import opened NbhSearch
  import opened NbhGreedy

  /** The node at a position and its neighbours. */
  ghost function Near(v: View, i: Id): set<Id> {
    set j | j in v.g.node && (j == i ||
        exists k :: k in v.g.edge && Touches(v.g.edge[k], i) && Other(v.g.edge[k], i) == j)
  }

  /** All nodes next to one of the nodes, those nodes included. */
  ghost function Spread(v: View, nodes: set<Id>): set<Id> { set i, j | i in nodes && j in Near(v, i) :: j }

  /** The nodes at most n edges away. */
  ghost function Ball(v: View, i: Id, n: nat): set<Id> {
    if n == 0 then {i} else Spread(v, Ball(v, i, n - 1))
  }

  /** The slots of some nodes in the node list. */
  ghost function Slots(v: View, ids: set<Id>): set<nat> { set j | j in ids && j in v.listId :: v.listId[j] }

  lemma NearSym(v: View, i: Id, j: Id)
    requires Wired(v.g) && i in v.g.node && j in Near(v, i)
    ensures i in Near(v, j) && j in v.g.node
  {
    if j != i {
      var k :| k in v.g.edge && Touches(v.g.edge[k], i) && Other(v.g.edge[k], i) == j;
      assert Touches(v.g.edge[k], j) && Other(v.g.edge[k], j) == i;
    }
  }

  lemma BallOne(v: View, i: Id)
    ensures Ball(v, i, 1) == Near(v, i) && Ball(v, i, 2) == Spread(v, Near(v, i))
  {
    hide Near;
    assert Ball(v, i, 0) == {i};
  }

  lemma BallSym(v: View, i: Id, j: Id)
    requires Wired(v.g) && i in v.g.node && j in Ball(v, i, 2)
    ensures i in Ball(v, j, 2) && j in v.g.node
  {
    hide Near, Ball, Wired;
    BallOne(v, i);
    var m :| m in Near(v, i) && j in Near(v, m);
    NearSym(v, i, m);
    NearSym(v, m, j);
    BallOne(v, j);
  }

  // ----- the best signatures of a neighbourhood -----

  /** No other signatures of these nodes cost less than nearly what y costs them. */
  ghost predicate Best(g: Graph, nodes: set<Id>, y: Assign) {
    forall z: Assign :: Sigs(g, z) && Elsewhere(nodes, y, z) ==> NEARLY * NbhOf(g, nodes, y) <= NbhOf(g, nodes, z)
  }

  lemma BestOf(g: Graph, nbh: seq<Id>, x: Assign, y: Assign)
    requires NearlyBest(g, nbh, x, y) && Varies(x, y, nbh)
    ensures Best(g, Elems(nbh), y)
  {
    hide NbhOf, Sigs;
    forall z: Assign | Sigs(g, z) && Elsewhere(Elems(nbh), y, z) ensures NEARLY * NbhOf(g, Elems(nbh), y)
        <= NbhOf(g, Elems(nbh), z) {
      assert forall i :: i !in nbh ==> i !in Elems(nbh);
      assert Varies(x, z, nbh);
    }
  }

  /** The cost of a neighbourhood depends on its nodes and their neighbours only. */
  lemma LocalCost(v: View, nodes: set<Id>, x: Assign, y: Assign)
    requires Wired(v.g) && (forall i :: i in nodes ==> i in v.g.node) && forall j :: j in Spread(v, nodes) ==>
             At(x, j) == At(y, j)
    ensures NbhOf(v.g, nodes, x) == NbhOf(v.g, nodes, y)
  {
    hide Sum;
    forall i | i in nodes ensures NodeTerm(v.g, NodeCells(x))(i) == NodeTerm(v.g, NodeCells(y))(i) {
      assert i in Near(v, i) && i in Spread(v, nodes) && v.g.node[i].id == i;
    }
    SumSame(nodes, NodeTerm(v.g, NodeCells(x)), NodeTerm(v.g, NodeCells(y)));
    forall k | k in TiesOf(v.g, nodes) ensures Cells(v.g, x)(k) == Cells(v.g, y)(k) { TieEnds(v, nodes, k); }
    SumSame(TiesOf(v.g, nodes), Cells(v.g, x), Cells(v.g, y));
  }

  lemma TieEnds(v: View, nodes: set<Id>, k: Id)
    requires Wired(v.g) && (forall i :: i in nodes ==> i in v.g.node) && k in TiesOf(v.g, nodes)
    ensures v.g.edge[k].start in Spread(v, nodes) && v.g.edge[k].end in Spread(v, nodes)
  {
    var e := v.g.edge[k];
    var i := if e.start in nodes then e.start else e.end;
    assert Touches(e, i) && Other(e, i) in Near(v, i) && i in Near(v, i);
  }

  /** z with the signatures of y outside the nodes. */
  ghost function Overlaid(nodes: set<Id>, y: Assign, z: Assign): (r: Assign)
    ensures forall i :: At(r, i) == if i in nodes then At(z, i) else At(y, i)
  {
    map i | i in nodes + y.Keys :: if i in nodes then At(z, i) else At(y, i)
  }

  /** Changes further away leave a best neighbourhood best. */
  lemma BestKept(v: View, nodes: set<Id>, y: Assign, y': Assign)
    requires Wired(v.g) && (forall i :: i in nodes ==> i in v.g.node) && Sigs(v.g, y) && Best(v.g, nodes, y)
    requires forall j :: j in Spread(v, nodes) ==> At(y, j) == At(y', j)
    ensures Best(v.g, nodes, y')
  {
    hide NbhOf, Spread, Wired, Overlaid;
    LocalCost(v, nodes, y, y');
    forall z: Assign | Sigs(v.g, z) && Elsewhere(nodes, y', z) ensures NEARLY * NbhOf(v.g, nodes, y')
        <= NbhOf(v.g, nodes, z) {
      var w := Overlaid(nodes, y, z);
      assert Sigs(v.g, w) && Elsewhere(nodes, y, w);
      LocalCost(v, nodes, w, z);
    }
  }

  // ----- the nodes a visit adjusts together -----

  /** At most num nodes are adjusted together: the node alone, or its whole ring if it is small. */
  ghost predicate Small(v: View, i: Id, num: nat) { num <= 1 || |Near(v, i)| <= num }

  ghost function Zone(v: View, i: Id, num: nat): set<Id> { if num <= 1 then {i} else Near(v, i) }

  /** Best around i. */
  ghost predicate Rested(v: View, i: Id, num: nat, y: Assign) { Small(v, i, num) ==> Best(v.g, Zone(v, i, num), y) }

  /** A node rests until something within two edges of it changes. */
  lemma RestsOn(v: View, i: Id, num: nat, y: Assign, z: Assign)
    requires Wired(v.g) && i in v.g.node && Sigs(v.g, y) && Rested(v, i, num, y)
    requires forall j :: j in v.g.node && i in Ball(v, j, 2) ==> At(y, j) == At(z, j)
    ensures Rested(v, i, num, z)
  {
    hide Near, Spread, Ball, Best, Wired, Sigs;
    var zone := Zone(v, i, num);
    ZoneIn(v, i, num);
    BallOne(v, i);
    forall j | j in Spread(v, zone) ensures At(y, j) == At(z, j) { BallSym(v, i, j); }
    if Small(v, i, num) { BestKept(v, zone, y, z); }
  }

  lemma ZoneIn(v: View, i: Id, num: nat)
    requires i in v.g.node
    ensures (forall j :: j in Zone(v, i, num) ==> j in v.g.node) && Spread(v, Zone(v, i, num)) <= Spread(v, Near(v, i))
  {
    assert i in Near(v, i);
  }
}
