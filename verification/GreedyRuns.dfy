/** What every run of GreedyStrategy achieves, whether or not its worklist ran empty. */
module GreedyRuns {
  import opened Wrappers
  import opened Sums
  import opened SbpForest
  import opened SbpSteps
  import opened SbpComplete
  import opened NbhCost
  import opened SbpLists
  import opened SbpOps
  import opened NbhSearch
  import opened NbhGreedy
  import opened NbhLocal
  import opened GreedyLoop

  /** The first round visits the nodes in the order of the list. */
  lemma {:induction false} FirstRound(v: View, num: nat, run: seq<Moment>, k: nat)
    requires Ran(v, num, run) && k < |run| && k <= |v.nodeList|
    ensures |v.nodeList| - k <= |run[k].queue| && forall d :: 0 <= d < |v.nodeList| - k ==> run[k].queue[d] == k + d
    decreases k
  {
    hide Adjusted, Slots, Stirred, Distinct;
    if k > 0 {
      FirstRound(v, num, run, k - 1);
      assert Turn(v, num, run[k - 1], run[k - 1 + 1]);
      var q, r := run[k - 1].queue, run[k].queue;
      forall d | 0 <= d < |v.nodeList| - k ensures r[d] == k + d { assert q[1..][d] == q[d + 1]; }
    }
  }

  /** Nobody is left out: at its turn every node is visited. */
  lemma EverybodyVisited(v: View, num: nat, run: seq<Moment>, y: Assign, total: real, emptied: bool, p: nat)
    requires Ran(v, num, run) && Over(v, run, y, total, emptied) && p < |v.nodeList|
    ensures p < |run| - 1 && run[p].queue != [] && run[p].queue[0] == p
  {
    hide Ran;
    var n, last := |v.nodeList|, |run| - 1;
    if last < n { FirstRound(v, num, run, last); }
    assert n * n >= 0 && n * (n + 1) == n * n + n;
    FirstRound(v, num, run, p);
  }

  lemma {:induction false} RunExact(v: View, num: nat, run: seq<Moment>, k: nat)
    requires Ran(v, num, run) && k < |run| && Sigs(v.g, v.final)
    ensures Sigs(v.g, run[k].x) && Exact(v.g, v.final, run[k].x, run[k].total)
    decreases k
  {
    hide Sigs, Exact, GraphCost, Requeued, Near, Rested;
    if k == 0 {
      SelfExact(v, v.final);
    } else {
      RunExact(v, num, run, k - 1);
      assert Turn(v, num, run[k - 1], run[k - 1 + 1]);
      var a, b := run[k - 1], run[k];
      ExactBoth(v.g, v.final, a.x, b.x, a.total, b.total - a.total);
    }
  }

  lemma ExactValid(g: Graph, x: Assign, y: Assign, delta: real)
    requires Exact(g, x, y, delta) && GraphCost(g, x) <= VALID_MAX_COPY_COST
    ensures GraphCost(g, y) <= VALID_MAX_COPY_COST
  {
    hide GraphCost;
  }

  // ----- nodes without edges -----

  ghost predicate Alone(g: Graph, i: Id) { i in g.node && forall k :: k in g.edge ==> !Touches(g.edge[k], i) }

  lemma AloneNear(v: View, i: Id, j: Id)
    requires Wired(v.g) && Alone(v.g, i) && j in v.g.node
    ensures Near(v, i) == {i} && (i in Near(v, j) ==> j == i)
  {
    if i in Near(v, j) { NearSym(v, j, i); }
  }

  lemma AloneBall(v: View, i: Id, j: Id)
    requires Wired(v.g) && Alone(v.g, i) && j in v.g.node && i in Ball(v, j, 2)
    ensures j == i
  {
    hide Near, Wired, Ball, Alone;
    BallSym(v, j, i);
    BallOne(v, i);
    AloneNear(v, i, j);
  }

  /** What can be hoped for a node without edges depends on that node alone. */
  lemma AloneHope(v: View, num: nat, i: Id, x: Assign, y: Assign)
    requires Wired(v.g) && Alone(v.g, i) && Hopeful(v.g, Zone(v, i, num), x) && Sigs(v.g, y)
    ensures Hopeful(v.g, Zone(v, i, num), y)
  {
    hide Wired, Near, Overlaid, Sum;
    AloneNear(v, i, i);
    var z: Assign :| Sigs(v.g, z) && Elsewhere({i}, x, z) && NbhOf(v.g, {i}, z) <= NEARLY * VALID_MAX_COPY_COST;
    var w := Overlaid({i}, y, z);
    OneNode(v.g, i, z);
    OneNode(v.g, i, w);
    SameTerm(v.g, i, w, z);
    assert Sigs(v.g, w) && Elsewhere({i}, y, w);
  }

  /** The search starts from a valid cost, or there are signatures of i of valid cost. */
  ghost predicate Promising(v: View, num: nat, i: Id) {
    GraphCost(v.g, v.final) <= VALID_MAX_COPY_COST || Hopeful(v.g, Zone(v, i, num), v.final)
  }

  /** A node without edges rests from its first visit on. */
  lemma {:induction false} AloneRests(v: View, num: nat, run: seq<Moment>, p: nat, k: nat)
    requires Field(v) && Sigs(v.g, v.final) && Ran(v, num, run) && p < |v.nodeList| && Promising(v, num, v.nodeList[p])
    requires Alone(v.g, v.nodeList[p]) && p < k < |run| && run[p].queue != [] && run[p].queue[0] == p
    ensures Rested(v, v.nodeList[p], num, run[k].x)
    decreases k
  {
    hide Field, Sigs, Exact, GraphCost, Near, Ball, Rested, Alone, Requeued, Wired, Hopeful;
    FieldWired(v);
    FieldIndexed(v);
    var i, a := v.nodeList[p], run[k - 1];
    RunExact(v, num, run, k - 1);
    if GraphCost(v.g, v.final) <= VALID_MAX_COPY_COST {
      ExactValid(v.g, v.final, a.x, a.total);
    } else {
      AloneHope(v, num, i, v.final, a.x);
    }
    assert Turn(v, num, run[k - 1], run[k - 1 + 1]);
    var visited := v.nodeList[a.queue[0]];
    if visited != i {
      AloneRests(v, num, run, p, k - 1);
      AloneNear(v, i, visited);
      forall j | j in v.g.node && i in Ball(v, j, 2) ensures At(a.x, j) == At(run[k].x, j) { AloneBall(v, i, j); }
      RestsOn(v, i, num, a.x, run[k].x);
    }
  }

  /** So at the end every node without edges rests. */
  lemma AloneAtRest(v: View, num: nat, run: seq<Moment>, y: Assign, total: real, emptied: bool, i: Id)
    requires Field(v) && Sigs(v.g, v.final) && Promising(v, num, i)
    requires Ran(v, num, run) && Over(v, run, y, total, emptied) && Alone(v.g, i)
    ensures Rested(v, i, num, y)
  {
    hide Field, Sigs, Rested, Ran, Promising;
    FieldIndexed(v);
    var p := v.listId[i];
    EverybodyVisited(v, num, run, y, total, emptied, p);
    AloneRests(v, num, run, p, |run| - 1);
  }

  // ----- graphs without edges -----

  /** A node without edges that rests has nearly its cheapest signature. */
  lemma AloneBest(v: View, num: nat, y: Assign, z: Assign, i: Id)
    requires Wired(v.g) && num >= 1 && Alone(v.g, i) && Rested(v, i, num, y) && Sigs(v.g, y) && Sigs(v.g, z)
    ensures NEARLY * NodeTerm(v.g, NodeCells(y))(i) <= NodeTerm(v.g, NodeCells(z))(i)
  {
    hide Wired, Near, Overlaid, Sum;
    AloneNear(v, i, i);
    var w := Overlaid({i}, y, z);
    assert Zone(v, i, num) == {i} && Small(v, i, num);
    assert Sigs(v.g, w) && Elsewhere({i}, y, w);
    OneNode(v.g, i, y);
    OneNode(v.g, i, w);
    SameTerm(v.g, i, w, z);
  }

  lemma OneNode(g: Graph, i: Id, x: Assign)
    requires Alone(g, i)
    ensures NbhOf(g, {i}, x) == NodeTerm(g, NodeCells(x))(i)
  {
    assert TiesOf(g, {i}) == {};
    SumTake({i}, i, NodeTerm(g, NodeCells(x)));
    assert {i} - {i} == {};
  }

  lemma SameTerm(g: Graph, i: Id, x: Assign, y: Assign)
    requires Wired(g) && i in g.node && At(x, i) == At(y, i)
    ensures NodeTerm(g, NodeCells(x))(i) == NodeTerm(g, NodeCells(y))(i)
  {
  }

  /** Where no edges are left the search finds nearly the optimum. */
  lemma EdgelessBest(v: View, num: nat, y: Assign, z: Assign)
    requires Wired(v.g) && v.g.edge == map[] && num >= 1 && Sigs(v.g, y) && Sigs(v.g, z)
    requires forall i :: i in v.g.node ==> Rested(v, i, num, y)
    ensures NEARLY * GraphCost(v.g, y) <= GraphCost(v.g, z)
  {
    hide Wired, Rested, Sigs, Sum;
    forall i | i in v.g.node.Keys
      ensures NEARLY * NodeTerm(v.g, NodeCells(y))(i) <= NodeTerm(v.g, NodeCells(z))(i)
    {
      AloneBest(v, num, y, z, i);
    }
    SumScaled(v.g.node.Keys, NEARLY, NodeTerm(v.g, NodeCells(y)));
    SumLeq(v.g.node.Keys, Scaled(NEARLY, NodeTerm(v.g, NodeCells(y))), NodeTerm(v.g, NodeCells(z)));
    NoEdges(v.g, y);
    NoEdges(v.g, z);
  }

  /** Some signatures cost no more than nearly the largest valid cost. */
  ghost predicate HasCheap(g: Graph) { exists z :: Sigs(g, z) && GraphCost(g, z) <= NEARLY * VALID_MAX_COPY_COST }

  lemma NodeBelow(g: Graph, i: Id, z: Assign)
    requires NonNegative(g) && g.edge == map[] && i in g.node
    ensures NodeTerm(g, NodeCells(z))(i) <= GraphCost(g, z)
  {
    hide Sum;
    NoEdges(g, z);
    forall j | j in g.node.Keys ensures 0.0 <= NodeTerm(g, NodeCells(z))(j) { assert NonNegativeNode(g.node[j]); }
    SumTermLeq(g.node.Keys, i, NodeTerm(g, NodeCells(z)));
  }

  lemma CheapEverywhere(v: View, num: nat, i: Id)
    requires Net(v.g) && v.g.edge == map[] && i in v.g.node && HasCheap(v.g) && Sigs(v.g, v.final)
    ensures Promising(v, num, i)
  {
    hide Net, Near, Overlaid, Sum, GraphCost, NonNegative;
    NetFilled(v.g);
    var z :| Sigs(v.g, z) && GraphCost(v.g, z) <= NEARLY * VALID_MAX_COPY_COST;
    AloneNear(v, i, i);
    NodeBelow(v.g, i, z);
    var w := Overlaid({i}, v.final, z);
    OneNode(v.g, i, w);
    SameTerm(v.g, i, w, z);
    assert Sigs(v.g, w) && Elsewhere({i}, v.final, w);
  }

  lemma NoEdges(g: Graph, x: Assign)
    requires g.edge == map[]
    ensures GraphCost(g, x) == Sum(g.node.Keys, NodeTerm(g, NodeCells(x)))
  {
    assert g.edge.Keys == {};
  }
}
