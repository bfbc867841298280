/** SbpGraph::FindTrunk: which operators are on the trunk, how late the others may run, and how
    much of the wait time of every edge remains exposed. */
module TrunkFind {
  import opened TrunkLayers
  import opened TrunkOrder
  import opened TrunkReduce
  import opened TrunkWait

  ghost predicate Costs(ups: seq<seq<Up>>, min: seq<nat>, cost: seq<real>, top: nat) {
    && Layered(ups, min) && |cost| == |ups| && (forall n :: 0 <= n < |cost| ==> 0.0 <= cost[n])
    && forall n :: 0 <= n < |min| ==> min[n] <= top
  }

  // ----- where the trunk ends -----

  ghost function InLayer(min: seq<nat>, cost: seq<real>, k: nat, l: nat): real
    requires k <= |min| == |cost|
  {
    if k == 0 then 0.0 else InLayer(min, cost, k - 1, l) + if min[k - 1] == l then cost[k - 1] else 0.0
  }

  method LayerCosts(min: seq<nat>, cost: seq<real>, top: nat) returns (layers: seq<real>)
    requires |min| == |cost| && forall n :: 0 <= n < |min| ==> min[n] <= top && 0.0 <= cost[n]
    ensures |layers| == top + 1 && forall l :: 0 <= l <= top ==>
            layers[l] == InLayer(min, cost, |min|, l) && 0.0 <= layers[l]
  {
    layers := seq(top + 1, _ => 0.0);
    for n := 0 to |min|
      invariant |layers| == top + 1 && forall l :: 0 <= l <= top ==>
                layers[l] == InLayer(min, cost, n, l) && 0.0 <= layers[l]
    {
      layers := layers[min[n] := layers[min[n]] + cost[n]];
    }
  }

  /** The cost from layer l to the end. */
  ghost function Tail(layers: seq<real>, l: nat): real
    decreases |layers| - l
  {
    if l >= |layers| then 0.0 else layers[l] + Tail(layers, l + 1)
  }

  /** The last layer from which the cost exceeds half the wait time; the last layer if none does. */
  ghost predicate EndsAt(layers: seq<real>, most: real, end: nat) {
    && end < |layers| && (Tail(layers, end) > 0.5 * most || end == |layers| - 1)
    && (forall l :: end < l < |layers| ==> Tail(layers, l) <= 0.5 * most)
    && (Tail(layers, end) <= 0.5 * most ==> forall l :: 0 <= l < |layers| ==> Tail(layers, l) <= 0.5 * most)
  }

  method TrunkEnd(layers: seq<real>, most: real) returns (end: nat)
    requires |layers| > 0 && forall l :: 0 <= l < |layers| ==> 0.0 <= layers[l]
    ensures EndsAt(layers, most, end)
  {
    var sum, l := 0.0, |layers|;
    while l > 0
      invariant 0 <= l <= |layers| && sum == Tail(layers, l) && forall k :: l <= k < |layers| ==>
                Tail(layers, k) <= 0.5 * most
    {
      l := l - 1;
      sum := sum + layers[l];
      if sum > 0.5 * most { return l; }
    }
    end := |layers| - 1;
  }

  // ----- who is on it -----

  /** c on the trunk takes its ith producer along, if that is in the layer before. */
  predicate Takes(ups: seq<seq<Up>>, min: seq<nat>, c: nat, i: nat)
    requires c < |ups| == |min| && i < |ups[c]| && ups[c][i].producer < |min|
  {
    min[ups[c][i].producer] + 1 >= min[c]
  }

  ghost predicate TakesAll(ups: seq<seq<Up>>, min: seq<nat>, trunk: seq<bool>, c: nat, k: nat)
    requires Layered(ups, min) && |trunk| == |ups| && c < |ups| && k <= |ups[c]|
  {
    forall i :: 0 <= i < k && Takes(ups, min, c, i) ==> trunk[ups[c][i].producer]
  }

  ghost predicate TakenBy(ups: seq<seq<Up>>, min: seq<nat>, trunk: seq<bool>, n: nat)
    requires Layered(ups, min) && |trunk| == |ups|
  {
    exists c, i :: 0 <= c < |ups| && 0 <= i < |ups[c]| && ups[c][i].producer == n && trunk[c] && Takes(ups, min, c, i)
  }

  ghost predicate Grown(ups: seq<seq<Up>>, min: seq<nat>, trunk: seq<bool>, trunk': seq<bool>, n: nat)
    requires Layered(ups, min) && |trunk| == |ups|
  {
    && |trunk'| == |ups| && (forall m :: 0 <= m < |ups| && trunk[m] ==> trunk'[m])
    && (forall m :: 0 <= m < |ups| && trunk'[m] && !trunk[m] ==> m == n || TakenBy(ups, min, trunk', m))
    && (forall m :: 0 <= m < |ups| && trunk'[m] && !trunk[m] ==> m == n || TakesAll(ups, min, trunk', m, |ups[m]|))
  }

  lemma GrownOn(ups: seq<seq<Up>>, min: seq<nat>, a: seq<bool>, b: seq<bool>, c: seq<bool>, n: nat, p: nat)
    requires Layered(ups, min) && |a| == |b| == |ups| && n < |ups| && p < |ups| && Grown(ups, min, a, b, n) && b[n]
    requires Grown(ups, min, b, c, p) && c[p] && (b[p] || TakesAll(ups, min, c, p, |ups[p]|)) && TakenBy(ups, min, b, p)
    ensures Grown(ups, min, a, c, n)
  {
    hide Layered, TakesAll, TakenBy, Takes;
    forall m | 0 <= m < |ups| && c[m] && !a[m] && m != n
      ensures TakenBy(ups, min, c, m) && TakesAll(ups, min, c, m, |ups[m]|)
    {
      if b[m] {
        StillTaken(ups, min, b, c, m);
        StillTakes(ups, min, b, c, m, |ups[m]|);
      } else if m == p {
        StillTaken(ups, min, b, c, p);
      }
    }
  }

  lemma StillTaken(ups: seq<seq<Up>>, min: seq<nat>, b: seq<bool>, c: seq<bool>, m: nat)
    requires Layered(ups, min) && |b| == |c| == |ups| && (forall j :: 0 <= j < |ups| && b[j] ==> c[j])
             && TakenBy(ups, min, b, m)
    ensures TakenBy(ups, min, c, m)
  {
    var k, i :| 0 <= k < |ups| && 0 <= i < |ups[k]| && ups[k][i].producer == m && b[k] && Takes(ups, min, k, i);
    assert c[k];
  }

  lemma StillTakes(ups: seq<seq<Up>>, min: seq<nat>, b: seq<bool>, c: seq<bool>, m: nat, k: nat)
    requires Layered(ups, min) && |b| == |c| == |ups| && (forall j :: 0 <= j < |ups| && b[j] ==> c[j]) && m < |ups|
             && k <= |ups[m]| && TakesAll(ups, min, b, m, k)
    ensures TakesAll(ups, min, c, m, k)
  {
  }

  /** SbpNode::SpreadTrunk. */
  method SpreadTrunk(ups: seq<seq<Up>>, min: seq<nat>, trunk: seq<bool>, n: nat) returns (trunk': seq<bool>)
    requires Layered(ups, min) && |trunk| == |ups| && n < |ups|
    ensures Grown(ups, min, trunk, trunk', n) && trunk'[n] && (trunk[n] || TakesAll(ups, min, trunk', n, |ups[n]|))
    decreases if n < |min| then min[n] else 0
  {
    hide TakenBy;
    trunk' := trunk;
    if trunk[n] { return; }
    trunk' := trunk[n := true];
    for i := 0 to |ups[n]|
      invariant |trunk'| == |ups| && trunk'[n] && Grown(ups, min, trunk, trunk', n) && TakesAll(ups, min, trunk', n, i)
    {
      var p := ups[n][i].producer;
      if Takes(ups, min, n, i) {
        ghost var before := trunk';
        trunk' := SpreadTrunk(ups, min, trunk', p);
        OneTaken(ups, min, before, n, i);
        GrownOn(ups, min, trunk, before, trunk', n, p);
        StillTakes(ups, min, before, trunk', n, i);
      }
    }
  }

  lemma OneTaken(ups: seq<seq<Up>>, min: seq<nat>, trunk: seq<bool>, n: nat, i: nat)
    requires Layered(ups, min) && |trunk| == |ups| && n < |ups| && i < |ups[n]| && trunk[n] && Takes(ups, min, n, i)
    ensures TakenBy(ups, min, trunk, ups[n][i].producer)
  {
  }

  /** On the trunk are exactly the operators from the layer end on, and those in the layer before
      a consumer that is on it. */
  ghost predicate IsTrunk(ups: seq<seq<Up>>, min: seq<nat>, end: nat, trunk: seq<bool>)
    requires Layered(ups, min)
  {
    |trunk| == |ups| && forall n :: 0 <= n < |ups| ==> (trunk[n] <==> min[n] >= end || TakenBy(ups, min, trunk, n))
  }

  method MarkTrunk(ups: seq<seq<Up>>, min: seq<nat>, end: nat) returns (trunk: seq<bool>)
    requires Layered(ups, min)
    ensures IsTrunk(ups, min, end, trunk)
  {
    trunk := seq(|ups|, _ => false);
    for n := 0 to |ups|
      invariant |trunk| == |ups| && forall m :: 0 <= m < n && min[m] >= end ==> trunk[m]
      invariant forall m :: 0 <= m < |ups| && trunk[m] ==> min[m] >= end || TakenBy(ups, min, trunk, m)
      invariant forall m :: 0 <= m < |ups| && trunk[m] ==> TakesAll(ups, min, trunk, m, |ups[m]|)
    {
      hide Layered, TakesAll, TakenBy, Takes;
      if min[n] >= end {
        ghost var before := trunk;
        trunk := SpreadTrunk(ups, min, trunk, n);
        forall m | 0 <= m < |ups| && trunk[m]
          ensures (min[m] >= end || TakenBy(ups, min, trunk, m)) && TakesAll(ups, min, trunk, m, |ups[m]|)
        {
          if before[m] {
            if min[m] < end { StillTaken(ups, min, before, trunk, m); }
            StillTakes(ups, min, before, trunk, m, |ups[m]|);
          }
        }
      }
    }
    forall n | 0 <= n < |ups| && TakenBy(ups, min, trunk, n) ensures trunk[n] {
      var c, i :| 0 <= c < |ups| && 0 <= i < |ups[c]| && ups[c][i].producer == n && trunk[c] && Takes(ups, min, c, i);
      assert TakesAll(ups, min, trunk, c, |ups[c]|);
    }
  }

  /** The equation has one solution: the trunk is determined. */
  lemma {:induction false} TrunkUnique(ups: seq<seq<Up>>, min: seq<nat>, end: nat, a: seq<bool>, b: seq<bool>,
                                       top: nat, n: nat)
    requires Layered(ups, min) && IsTrunk(ups, min, end, a) && IsTrunk(ups, min, end, b) && n < |ups|
             && forall m :: 0 <= m < |min| ==> min[m] <= top
    ensures a[n] == b[n]
    decreases top - min[n]
  {
    forall c, i | 0 <= c < |ups| && 0 <= i < |ups[c]| && ups[c][i].producer == n
      ensures a[c] == b[c]
    {
      TrunkUnique(ups, min, end, a, b, top, c);
    }
    assert TakenBy(ups, min, a, n) <==> TakenBy(ups, min, b, n);
  }

  // ----- all together -----

  function Operators(min: seq<nat>, trib: seq<int>, trunk: seq<bool>, cost: seq<real>): (ops: seq<Op>)
    requires |min| == |trib| == |trunk| == |cost| && forall n :: 0 <= n < |trib| ==> min[n] <= trib[n]
    ensures |ops| == |min| && forall n :: 0 <= n < |ops| ==> ops[n] == Op(min[n], trib[n], trunk[n], cost[n])
  {
    seq(|min|, n requires 0 <= n < |min| => Op(min[n], trib[n], trunk[n], cost[n]))
  }

  lemma OperatorsSpan(ups: seq<seq<Up>>, min: seq<nat>, cost: seq<real>, trunk: seq<bool>, top: nat, trib: seq<int>,
                      all: seq<nat>)
    requires Costs(ups, min, cost, top) && Latest(ups, min, trunk, top, trib, all)
    ensures |min| == |trib| == |trunk| == |cost| == |ups| && forall n :: 0 <= n < |trib| ==> min[n] <= trib[n]
    ensures Spans(Operators(min, trib, trunk, cost), top) && Inside(ups, |min|)
  {
  }

  lemma NetSet(ups: seq<seq<Up>>, min: seq<nat>, cost: seq<real>, top: nat, trunk: seq<bool>, layers: seq<real>,
               acc: seq<real>, most: real)
    requires Costs(ups, min, cost, top) && |trunk| == |ups| && |layers| == top + 1 && Suffixes(layers, acc)
             && 0.0 <= most
    ensures Set(Net(ups, min, trunk, layers, acc, most))
  {
  }

  lemma AllTimed(g: Net, all: seq<nat>, own: seq<real>, wait: seq<seq<real>>)
    requires Waits(g, all, own, wait) && forall n :: 0 <= n < |g.ups| ==> all[n] == |g.ups[n]|
    ensures Timed(g.ups, wait, g.most)
  {
    forall c, i | 0 <= c < |g.ups| && 0 <= i < |g.ups[c]| && g.ups[c][i].data ensures 0.0 <= wait[c][i] <= g.most {
      assert Waited(g, all[c], own[c], wait[c][i], c, i);
    }
  }

  lemma StillTimed(ups: seq<seq<Up>>, ops: seq<Op>, top: nat, hidden: seq<real>, most: real, wait: seq<seq<real>>,
                   wait': seq<seq<real>>)
    requires Timed(ups, wait, most) && Reduced(ops, top, hidden, most, 0)
             && Shortened(ups, ops, hidden, most, wait, wait')
    ensures Timed(ups, wait', most)
  {
    forall c, i | 0 <= c < |ups| && 0 <= i < |ups[c]| && ups[c][i].data ensures 0.0 <= wait'[c][i] <= most {
      assert wait'[c][i] == Short(ups, ops, hidden, most, wait, c, i);
    }
  }

  /** What the steps of FindTrunk compute on the way to the wait times. */
  datatype Found = Found(
    end: nat, trunk: seq<bool>, trib: seq<int>, layers: seq<real>, acc: seq<real>, own: seq<real>,
    got: seq<real>, spread: seq<seq<real>>, hidden: seq<real>)

  ghost predicate TrunkFound(ups: seq<seq<Up>>, min: seq<nat>, cost: seq<real>, top: nat, f: Found)
    requires Costs(ups, min, cost, top)
  {
    && IsTrunk(ups, min, f.end, f.trunk) && Latest(ups, min, f.trunk, top, f.trib, Links(ups))
    && |f.layers| == top + 1 && forall l :: 0 <= l <= top ==>
       f.layers[l] == Along(Operators(min, f.trib, f.trunk, cost), l)
  }

  ghost predicate WaitsFound(ups: seq<seq<Up>>, min: seq<nat>, cost: seq<real>, top: nat, most: real, f: Found,
                             wait: seq<seq<real>>)
    requires Costs(ups, min, cost, top) && TrunkFound(ups, min, cost, top, f)
  {
    var g, ops := Net(ups, min, f.trunk, f.layers, f.acc, most), Operators(min, f.trib, f.trunk, cost);
    && Set(g) && AddsUp(f.layers, f.acc) && Waits(g, Links(ups), f.own, f.spread)
       && Least(g, Links(ups), f.own, f.got) && Started(g, f.own, f.got)
    && Reduced(ops, top, f.hidden, most, 0) && Shortened(ups, ops, f.hidden, most, f.spread, wait)
  }

  /** acc is the trunk cost after each layer. */
  ghost predicate AddsUp(layers: seq<real>, acc: seq<real>) {
    |acc| == |layers| > 0 && acc[|acc| - 1] == 0.0 && forall l :: 0 < l < |acc| ==> acc[l - 1] == acc[l] + layers[l]
  }

  /** Every node with a producer started with what its consumers left it. */
  ghost predicate Started(g: Net, own: seq<real>, got: seq<real>)
  {
    |own| == |got| == |g.ups| && forall n :: 0 <= n < |g.ups| && g.ups[n] != [] ==>
        Holds(g, -1, false, own[n], got[n], n)
  }

  /** Every edge ends up with one wait time, between nothing and the whole: what neither the trunk
      after its consumer nor the operators beside its layer hide. */
  method FindTrunk(ups: seq<seq<Up>>, min: seq<nat>, cost: seq<real>, top: nat, most: real)
    returns (ok: bool, wait: seq<seq<real>>, layers: seq<real>, ghost f: Found)
    requires Costs(ups, min, cost, top) && 0.0 <= most
    ensures ok && Timed(ups, wait, most)
    ensures |layers| == top + 1 && EndsAt(layers, most, f.end)
    ensures |min| == |cost| && forall l :: 0 <= l <= top ==> layers[l] == InLayer(min, cost, |min|, l)
    ensures TrunkFound(ups, min, cost, top, f) && WaitsFound(ups, min, cost, top, most, f, wait)
  {
    hide IsTrunk, Latest, Set, Waits, Least, Reduced, Shortened, Spans, Timed, Along, From, To, Suffixes, EndsAt,
        Holds, InLayer, Inside;
    CostsSizes(ups, min, cost, top);
    layers := LayerCosts(min, cost, top);
    var end := TrunkEnd(layers, most);
    var trunk := MarkTrunk(ups, min, end);
    IsTrunkSize(ups, min, end, trunk);
    var trib := TributaryLayers(ups, min, trunk, top);
    OperatorsSpan(ups, min, cost, trunk, top, trib, Links(ups));
    var ops := Operators(min, trib, trunk, cost);
    var along, begins, ends := Summarize(ops, top);
    var acc := AccumulateTrunk(along);
    NetSet(ups, min, cost, top, trunk, along, acc, most);
    var g := Net(ups, min, trunk, along, acc, most);
    var spread, own;
    ghost var got;
    ok, spread, own, got := SpreadWaitTimes(g, top);
    LeastSizes(g, Links(ups), own, got);
    AllTimed(g, Links(ups), own, spread);
    var calm;
    ghost var hidden;
    calm, wait, hidden := ReduceTrunk(ups, ops, top, begins, ends, most, spread);
    ok := ok && calm;
    StillTimed(ups, ops, top, hidden, most, spread, wait);
    f := Found(end, trunk, trib, along, acc, own, got, spread, hidden);
  }

  lemma LeastSizes(g: Net, all: seq<nat>, own: seq<real>, got: seq<real>)
    requires Least(g, all, own, got)
    ensures |own| == |got| == |g.ups|
  {
  }

  lemma CostsSizes(ups: seq<seq<Up>>, min: seq<nat>, cost: seq<real>, top: nat)
    requires Costs(ups, min, cost, top)
    ensures Layered(ups, min) && |min| == |cost| == |ups|
  {
  }

  lemma IsTrunkSize(ups: seq<seq<Up>>, min: seq<nat>, end: nat, trunk: seq<bool>)
    requires Layered(ups, min) && IsTrunk(ups, min, end, trunk)
    ensures |trunk| == |ups|
  {
  }
}
