/** What the costs and wait times of FindTrunk are, layer by layer and edge by edge. */
module TrunkLaws {
  import opened Sums
  import opened TrunkOrder
  import opened TrunkReduce
  import opened TrunkWait
  import opened TrunkFind

  ghost function CostAt(cost: seq<real>): nat -> real { (n: nat) => if n < |cost| then cost[n] else 0.0 }

  /** The cost of a layer is that of all operators whose min layer it is. */
  lemma {:induction false} InLayerIs(min: seq<nat>, cost: seq<real>, k: nat, l: nat)
    requires k <= |min| == |cost|
    ensures InLayer(min, cost, k, l) == Sum((set n: nat | n < k && min[n] == l), CostAt(cost))
    decreases k
  {
    var all := set n: nat | n < k && min[n] == l;
    if k == 0 {
      assert all == {};
    } else {
      InLayerIs(min, cost, k - 1, l);
      var less := set n: nat | n < k - 1 && min[n] == l;
      assert all == if min[k - 1] == l then less + {k - 1} else less;
      if min[k - 1] == l { SumAdd(less, k - 1, CostAt(cost)); }
    }
  }

  /** The layers from low to high, without high. */
  ghost function Layers(low: nat, high: nat): (s: set<nat>)
    ensures forall l: nat :: l in s <==> low <= l < high
  {
    if low >= high then {} else Layers(low, high - 1) + {high - 1}
  }

  lemma {:induction false} TailIs(layers: seq<real>, l: nat)
    ensures Tail(layers, l) == Sum(Layers(l, |layers|), CostAt(layers))
    decreases |layers| - l
  {
    if l >= |layers| {
      assert Layers(l, |layers|) == {};
    } else {
      TailIs(layers, l + 1);
      assert Layers(l, |layers|) == Layers(l + 1, |layers|) + {l};
      SumAdd(Layers(l + 1, |layers|), l, CostAt(layers));
    }
  }

  // ----- operators on the trunk and beside it -----

  ghost function OpCost(ops: seq<Op>): nat -> real { (n: nat) => if n < |ops| then ops[n].cost else 0.0 }

  lemma OneOpMore(ops: seq<Op>, s: set<nat>, takes: bool)
    requires ops != [] && forall n :: n in s ==> n < |ops| - 1
    ensures var k := |ops| - 1;
            Sum(if takes then s + {k} else s, OpCost(ops))
            == Sum(s, OpCost(ops[..k])) + if takes then ops[k].cost else 0.0
  {
    var k := |ops| - 1;
    if takes { SumAdd(s, k, OpCost(ops)); }
    SumSame(s, OpCost(ops), OpCost(ops[..k]));
  }

  /** trunk_cost: the operators on the trunk in that layer. */
  lemma {:induction false} AlongIs(ops: seq<Op>, l: nat)
    ensures Along(ops, l) == Sum((set n: nat | n < |ops| && ops[n].trunk && ops[n].min == l), OpCost(ops))
    decreases |ops|
  {
    var all := set n: nat | n < |ops| && ops[n].trunk && ops[n].min == l;
    if ops == [] {
      assert all == {};
    } else {
      var k := |ops| - 1;
      AlongIs(ops[..k], l);
      var less := set n: nat | n < k && ops[..k][n].trunk && ops[..k][n].min == l;
      var takes := ops[k].trunk && ops[k].min == l;
      OneOpMore(ops, less, takes);
      assert all == if takes then less + {k} else less;
    }
  }

  /** tributary_cost: the operators beside the trunk that may start in that layer. */
  lemma {:induction false} FromIs(ops: seq<Op>, l: nat)
    ensures From(ops, l) == Sum((set n: nat | n < |ops| && !ops[n].trunk && ops[n].min == l), OpCost(ops))
    decreases |ops|
  {
    var all := set n: nat | n < |ops| && !ops[n].trunk && ops[n].min == l;
    if ops == [] {
      assert all == {};
    } else {
      var k := |ops| - 1;
      FromIs(ops[..k], l);
      var less := set n: nat | n < k && !ops[..k][n].trunk && ops[..k][n].min == l;
      var takes := !ops[k].trunk && ops[k].min == l;
      OneOpMore(ops, less, takes);
      assert all == if takes then less + {k} else less;
    }
  }

  /** outdated_tributary_cost: those that must have run by the end of that layer. */
  lemma {:induction false} ToIs(ops: seq<Op>, l: nat)
    ensures To(ops, l) == Sum((set n: nat | n < |ops| && !ops[n].trunk && ops[n].trib == l), OpCost(ops))
    decreases |ops|
  {
    var all := set n: nat | n < |ops| && !ops[n].trunk && ops[n].trib == l;
    if ops == [] {
      assert all == {};
    } else {
      var k := |ops| - 1;
      ToIs(ops[..k], l);
      var less := set n: nat | n < k && !ops[..k][n].trunk && ops[..k][n].trib == l;
      var takes := !ops[k].trunk && ops[k].trib == l;
      OneOpMore(ops, less, takes);
      assert all == if takes then less + {k} else less;
    }
  }

  /** What can run beside the trunk in the layers l to k: operators whose range meets them. */
  lemma {:induction false} BesideIs(ops: seq<Op>, l: nat, k: nat)
    ensures Beside(ops, l, k)
            == Sum((set n: nat | n < |ops| && !ops[n].trunk && ops[n].min <= k && l <= ops[n].trib), OpCost(ops))
    decreases |ops|
  {
    var all := set n: nat | n < |ops| && !ops[n].trunk && ops[n].min <= k && l <= ops[n].trib;
    if ops == [] {
      assert all == {};
    } else {
      var p := |ops| - 1;
      BesideIs(ops[..p], l, k);
      var less := set n: nat | n < p && !ops[..p][n].trunk && ops[..p][n].min <= k && l <= ops[..p][n].trib;
      var takes := !ops[p].trunk && ops[p].min <= k && l <= ops[p].trib;
      OneOpMore(ops, less, takes);
      assert all == if takes then less + {p} else less;
    }
  }

  // ----- the wait times -----

  /** acc_trunk_cost is the cost of all later layers. */
  lemma {:induction false} LaterCost(cost: seq<real>, acc: seq<real>, k: nat)
    requires AddsUp(cost, acc) && k < |acc|
    ensures acc[k] == Sum(Layers(k + 1, |cost|), CostAt(cost))
    decreases |acc| - k
  {
    if k == |acc| - 1 {
      assert Layers(k + 1, |cost|) == {};
    } else {
      LaterCost(cost, acc, k + 1);
      assert acc[k + 1 - 1] == acc[k + 1] + cost[k + 1];
      assert Layers(k + 1, |cost|) == Layers(k + 2, |cost|) + {k + 1};
      SumAdd(Layers(k + 2, |cost|), k + 1, CostAt(cost));
    }
  }

  lemma CostBetween(cost: seq<real>, acc: seq<real>, p: nat, c: nat)
    requires AddsUp(cost, acc) && p < c <= |acc|
    ensures acc[p] - acc[c - 1] == Sum(Layers(p + 1, c), CostAt(cost))
  {
    hide Sum;
    LaterCost(cost, acc, p);
    LaterCost(cost, acc, c - 1);
    assert Layers(p + 1, |cost|) == Layers(p + 1, c) + Layers(c, |cost|);
    SumUnion(Layers(p + 1, c), Layers(c, |cost|), CostAt(cost));
  }

  /** The trunk cost that runs while the tensor of an edge is on its way: what the consumer has been
      left, and the layers between the two. */
  ghost function Cover(g: Net, own: real, p: nat, c: nat): real
    requires p < |g.min| && c < |g.min|
  {
    own + Sum(Layers(g.min[p] + 1, g.min[c]), CostAt(g.cost))
  }

  /** Before the reduction on the trunk, an edge waits for what its cover does not hide: nothing if the
      cover is as long as the wait time, and else the rest. */
  lemma WaitIs(g: Net, at: seq<nat>, own: seq<real>, wait: seq<seq<real>>, c: nat, i: nat)
    requires Set(g) && AddsUp(g.cost, g.acc) && Waits(g, at, own, wait)
    requires c < |g.ups| && i < |g.ups[c]| && g.ups[c][i].data && i < at[c]
    ensures var p := g.ups[c][i].producer;
            && p < |g.min| && c < |g.min| && |own| == |wait| == |g.ups| && i < |wait[c]|
            && (Cover(g, own[c], p, c) >= g.most ==> wait[c][i] == 0.0)
            && (Cover(g, own[c], p, c) < g.most ==> wait[c][i] + Cover(g, own[c], p, c) == g.most)
  {
    var p := g.ups[c][i].producer;
    assert Waited(g, at[c], own[c], wait[c][i], c, i);
    CostBetween(g.cost, g.acc, g.min[p], g.min[c]);
  }

  /** What the producer of an edge is left at most: the part of the cover that the wait time did not
      need; along a control edge, which does not wait, the whole. */
  lemma LeavesIs(g: Net, own: seq<real>, got: seq<real>, c: nat, i: nat)
    requires Set(g) && AddsUp(g.cost, g.acc) && |own| == |got| == |g.ups| && c < |g.ups| && i < |g.ups[c]|
    requires Exactly(g, own, got, c, i)
    ensures var p := g.ups[c][i].producer;
            && p < |g.min| && c < |g.min| && p < |got|
            && var cover := Cover(g, own[c], p, c);
               got[p] == if !g.ups[c][i].data then cover else if cover >= g.most then cover - g.most else 0.0
  {
    CostBetween(g.cost, g.acc, g.min[g.ups[c][i].producer], g.min[c]);
  }

  /** Nothing of the cover is lost or used twice: what is hidden and what is passed on make it up. */
  lemma CoverUsed(g: Net, left: real)
    requires 0.0 <= left && 0.0 <= g.most
    ensures (g.most - Exposed(g, left)) + Passed(g, true, left) == left && Passed(g, false, left) == left
    ensures 0.0 <= Exposed(g, left) <= g.most && 0.0 <= Passed(g, true, left)
  {
  }

  /** What a node starts with: nothing on the trunk; beside it, without a consumer, all layers from its
      own on; and else what it has been left and its own layer. */
  lemma BeginIs(g: Net, n: nat, got: real)
    requires Set(g) && AddsUp(g.cost, g.acc) && n < |g.ups| && 0 < g.min[n]
    ensures Begin(g, n, got) ==
              if g.trunk[n] then 0.0
              else if got < 0.0 then Sum(Layers(g.min[n], |g.cost|), CostAt(g.cost))
              else got + g.cost[g.min[n]]
  {
    LaterCost(g.cost, g.acc, g.min[n] - 1);
  }
}
