/** The layers of an operator graph: the earliest, the latest and the tributary layer. */
module OpLayers {

  /** in_topo_structs and out_topo_structs of every operator. */
  datatype Net = Net(ins: seq<set<nat>>, outs: seq<set<nat>>)

  /** The two agree, and level shows that there is no cycle. */
  ghost predicate Acyclic(g: Net, level: seq<nat>) {
    && |g.ins| == |g.outs| == |level|
    && (forall i, j :: 0 <= i < |g.ins| && j in g.ins[i] ==> j < |g.ins| && i in g.outs[j] && level[j] < level[i])
    && (forall i, j :: 0 <= i < |g.outs| && j in g.outs[i] ==> InsHave(g, j, i))
  }

  ghost predicate InsHave(g: Net, j: nat, i: nat) { j < |g.ins| && i in g.ins[j] }

  // ----- min_layer -----

  /** layer is the largest among those of done, which are all known, or -1. */
  ghost predicate Largest(min: seq<int>, done: set<nat>, layer: int) {
    && (forall j :: j in done ==> j < |min| && 0 <= min[j] <= layer)
    && (layer == -1 || exists j :: j in done && j < |min| && layer == min[j]) && -1 <= layer
  }

  /** Where a layer is known it is one more than the largest of the inputs'. */
  ghost predicate MinLayers(g: Net, min: seq<int>) {
    && |min| == |g.ins|
    && forall i :: 0 <= i < |min| ==> -1 <= min[i] && (0 <= min[i] ==> Largest(min, g.ins[i], min[i] - 1))
  }

  /** min' knows more, and only about nodes up to i. */
  ghost predicate Grown(level: seq<nat>, min: seq<int>, min': seq<int>, top: nat) {
    && |min'| == |min| == |level| && forall k :: 0 <= k < |min| && (0 <= min[k] || level[k] >= top) ==>
       min'[k] == min[k]
  }

  /** TopoStruct::ComputeMinLayer. The inputs come in the order of a hash set. */
  method ComputeMinLayer(g: Net, min: seq<int>, i: nat, ghost level: seq<nat>) returns (min': seq<int>)
    requires Acyclic(g, level) && i < |g.ins| && MinLayers(g, min)
    ensures MinLayers(g, min') && Grown(level, min, min', level[i] + 1) && 0 <= min'[i]
    decreases level[i]
  {
    hide MinLayers, Grown, Largest;
    Start(g, level, min);
    if min[i] >= 0 { return min; }
    min' := min;
    var layer, rest := -1, g.ins[i];
    ghost var done: set<nat> := {};
    while rest != {}
      invariant rest + done == g.ins[i] && MinLayers(g, min') && Grown(level, min, min', level[i])
                && Largest(min', done, layer)
      decreases |rest|
    {
      var j :| j in rest;
      ghost var before := min';
      assert j in g.ins[i];
      min' := ComputeMinLayer(g, min', j, level);
      GrownStep(level, min, before, min', level[j] + 1, level[i]);
      LargestMore(level, before, min', done, layer, j, level[j] + 1);
      rest, done := rest - {j}, done + {j};
      if layer < min'[j] { layer := min'[j]; }
    }
    GrownAt(level, min, min', i);
    Layered(g, level, min', i, layer, min);
    min' := min'[i := layer + 1];
  }

  lemma Start(g: Net, level: seq<nat>, min: seq<int>)
    requires Acyclic(g, level) && MinLayers(g, min)
    ensures |min| == |level| && Largest(min, {}, -1) && forall top: nat :: Grown(level, min, min, top)
  {
  }

  lemma LargestMore(level: seq<nat>, min: seq<int>, min': seq<int>, done: set<nat>, layer: int, j: nat, top: nat)
    requires Grown(level, min, min', top) && Largest(min, done, layer) && j < |min'| && 0 <= min'[j]
    ensures Largest(min', done + {j}, if layer < min'[j] then min'[j] else layer)
  {
    forall k | k in done ensures k < |min'| && min'[k] == min[k] {}
    if layer >= min'[j] {
      var k :| k in done && k < |min| && layer == min[k];
      assert k in done + {j};
    } else {
      assert j in done + {j};
    }
  }

  lemma Layered(g: Net, level: seq<nat>, min': seq<int>, i: nat, layer: int, min: seq<int>)
    requires Acyclic(g, level) && i < |g.ins| && MinLayers(g, min') && min'[i] < 0 && Largest(min', g.ins[i], layer)
    requires Grown(level, min, min', level[i])
    ensures MinLayers(g, min'[i := layer + 1]) && Grown(level, min, min'[i := layer + 1], level[i] + 1)
            && 0 <= layer + 1
  {
    hide Largest;
    var m := min'[i := layer + 1];
    LargestFrom(min', g.ins[i], layer);
    LargestKept(min', g.ins[i], layer, i, layer + 1);
    forall k | 0 <= k < |m| ensures -1 <= m[k] && (0 <= m[k] ==> Largest(m, g.ins[k], m[k] - 1)) {
      if k != i && 0 <= min'[k] { LargestKept(min', g.ins[k], min'[k] - 1, i, layer + 1); }
    }
  }

  lemma LargestFrom(min: seq<int>, done: set<nat>, layer: int)
    requires Largest(min, done, layer)
    ensures -1 <= layer
  {
  }

  lemma LargestKept(min: seq<int>, done: set<nat>, layer: int, i: nat, v: int)
    requires Largest(min, done, layer) && i < |min| && min[i] < 0
    ensures Largest(min[i := v], done, layer)
  {
    if layer != -1 {
      var j :| j in done && j < |min| && layer == min[j];
      assert min[i := v][j] == layer;
    }
  }

  lemma GrownAt(level: seq<nat>, min: seq<int>, min': seq<int>, i: nat)
    requires i < |level| && Grown(level, min, min', level[i])
    ensures |min'| == |min| == |level| && min'[i] == min[i]
  {
  }

  lemma GrownStep(level: seq<nat>, a: seq<int>, b: seq<int>, c: seq<int>, low: nat, top: nat)
    requires Grown(level, a, b, top) && Grown(level, b, c, low) && low <= top
    ensures Grown(level, a, c, top)
  {
  }

  // ----- tributary_layer -----

  /** layer is the smallest among those of done, which are all known, or the bound. */
  ghost predicate Smallest(trib: seq<int>, done: set<nat>, bound: int, layer: int) {
    && layer <= bound && (forall j :: j in done ==> j < |trib| && 0 <= trib[j] && layer <= trib[j])
    && (layer == bound || exists j :: j in done && j < |trib| && layer == trib[j])
  }

  /** Where a layer is known it is one less than the smallest of the outputs', or than the bound;
      it is never below the min layer. */
  ghost predicate TribLayers(g: Net, bound: int, min: seq<int>, trib: seq<int>) {
    && |trib| == |min| == |g.outs|
    && forall i :: 0 <= i < |trib| ==>
       && -1 <= trib[i]
       && (0 <= trib[i] ==> min[i] <= trib[i] && Smallest(trib, g.outs[i], bound, trib[i] + 1))
  }

  /** trib' knows more, and only about nodes from level low on. */
  ghost predicate Sunk(level: seq<nat>, trib: seq<int>, trib': seq<int>, low: nat) {
    && |trib'| == |trib| == |level| && forall k :: 0 <= k < |trib| && (0 <= trib[k] || level[k] < low) ==>
       trib'[k] == trib[k]
  }

  ghost predicate AllKnown(g: Net, bound: int, min: seq<int>) {
    MinLayers(g, min) && forall i :: 0 <= i < |min| ==> 0 <= min[i] < bound
  }

  /** The min layer rises along every edge. */
  lemma Climbs(g: Net, level: seq<nat>, bound: int, min: seq<int>, i: nat, j: nat)
    requires Acyclic(g, level) && AllKnown(g, bound, min) && i < |g.outs| && j in g.outs[i]
    ensures j < |min| == |g.outs| && i < |min| && min[i] < min[j] && level[i] < level[j]
  {
    assert InsHave(g, j, i);
    assert Largest(min, g.ins[j], min[j] - 1);
  }

  /** TopoStruct::ComputeTributaryLayer. */
  method ComputeTributaryLayer(g: Net, bound: int, min: seq<int>, trib: seq<int>, i: nat, ghost level: seq<nat>,
                               ghost top: nat) returns (trib': seq<int>)
    requires Acyclic(g, level) && (forall k :: 0 <= k < |level| ==> level[k] <= top) && i < |g.outs|
    requires AllKnown(g, bound, min) && TribLayers(g, bound, min, trib)
    ensures TribLayers(g, bound, min, trib') && Sunk(level, trib, trib', level[i]) && 0 <= trib'[i]
    decreases top - level[i]
  {
    hide TribLayers, Sunk, Smallest, AllKnown;
    StartTrib(g, level, bound, min, trib);
    if trib[i] >= 0 { return trib; }
    trib' := trib;
    var layer, rest := bound, g.outs[i];
    ghost var done: set<nat> := {};
    while rest != {}
      invariant rest + done == g.outs[i] && TribLayers(g, bound, min, trib') && Sunk(level, trib, trib', level[i] + 1)
      invariant Smallest(trib', done, bound, layer)
      decreases |rest|
    {
      var j :| j in rest;
      ghost var before := trib';
      assert j in g.outs[i];
      Climbs(g, level, bound, min, i, j);
      trib' := ComputeTributaryLayer(g, bound, min, trib', j, level, top);
      SunkStep(level, trib, before, trib', level[j], level[i] + 1);
      SmallestMore(level, before, trib', done, bound, layer, j, level[j]);
      rest, done := rest - {j}, done + {j};
      if layer > trib'[j] { layer := trib'[j]; }
    }
    SunkAt(level, trib, trib', i);
    TribLayered(g, level, bound, min, trib', i, layer, trib);
    trib' := trib'[i := layer - 1];
  }

  lemma StartTrib(g: Net, level: seq<nat>, bound: int, min: seq<int>, trib: seq<int>)
    requires Acyclic(g, level) && TribLayers(g, bound, min, trib)
    ensures |trib| == |level| && Smallest(trib, {}, bound, bound) && forall low: nat :: Sunk(level, trib, trib, low)
  {
  }

  lemma SunkAt(level: seq<nat>, trib: seq<int>, trib': seq<int>, i: nat)
    requires i < |level| && Sunk(level, trib, trib', level[i] + 1)
    ensures |trib'| == |trib| == |level| && trib'[i] == trib[i]
  {
  }

  lemma SunkStep(level: seq<nat>, a: seq<int>, b: seq<int>, c: seq<int>, high: nat, low: nat)
    requires Sunk(level, a, b, low) && Sunk(level, b, c, high) && low <= high
    ensures Sunk(level, a, c, low)
  {
  }

  lemma SmallestMore(level: seq<nat>, trib: seq<int>, trib': seq<int>, done: set<nat>, bound: int, layer: int, j: nat,
                     low: nat)
    requires Sunk(level, trib, trib', low) && Smallest(trib, done, bound, layer) && j < |trib'| && 0 <= trib'[j]
    ensures Smallest(trib', done + {j}, bound, if layer > trib'[j] then trib'[j] else layer)
  {
    forall k | k in done ensures k < |trib'| && trib'[k] == trib[k] {}
    if layer <= trib'[j] && layer != bound {
      var k :| k in done && k < |trib| && layer == trib[k];
      assert k in done + {j};
    } else {
      assert j in done + {j};
    }
  }

  lemma SmallestKept(trib: seq<int>, done: set<nat>, bound: int, layer: int, i: nat, v: int)
    requires Smallest(trib, done, bound, layer) && i < |trib| && trib[i] < 0
    ensures Smallest(trib[i := v], done, bound, layer)
  {
    if layer != bound {
      var j :| j in done && j < |trib| && layer == trib[j];
      assert trib[i := v][j] == layer;
    }
  }

  /** The smallest of the outputs' layers is above the min layer of i. */
  lemma AboveMin(g: Net, level: seq<nat>, bound: int, min: seq<int>, trib: seq<int>, i: nat, layer: int)
    requires Acyclic(g, level) && AllKnown(g, bound, min) && TribLayers(g, bound, min, trib) && i < |g.outs|
             && Smallest(trib, g.outs[i], bound, layer)
    ensures i < |min| && min[i] < layer
  {
    hide MinLayers;
    if layer != bound {
      var j :| j in g.outs[i] && j < |trib| && layer == trib[j];
      Climbs(g, level, bound, min, i, j);
    }
  }

  lemma TribLayered(g: Net, level: seq<nat>, bound: int, min: seq<int>, trib': seq<int>, i: nat, layer: int,
                    trib: seq<int>)
    requires Acyclic(g, level) && AllKnown(g, bound, min) && i < |g.outs| && TribLayers(g, bound, min, trib')
             && trib'[i] < 0
    requires Smallest(trib', g.outs[i], bound, layer) && Sunk(level, trib, trib', level[i] + 1)
    ensures TribLayers(g, bound, min, trib'[i := layer - 1]) && Sunk(level, trib, trib'[i := layer - 1], level[i])
            && 0 <= layer - 1
  {
    hide Smallest, MinLayers;
    var t := trib'[i := layer - 1];
    AboveMin(g, level, bound, min, trib', i, layer);
    SmallestKept(trib', g.outs[i], bound, layer, i, layer - 1);
    forall k | 0 <= k < |t|
      ensures -1 <= t[k] && (0 <= t[k] ==> min[k] <= t[k] && Smallest(t, g.outs[k], bound, t[k] + 1))
    {
      if k != i && 0 <= trib'[k] { SmallestKept(trib', g.outs[k], bound, trib'[k] + 1, i, layer - 1); }
    }
  }

  // ----- all of them -----

  /** TopoStruct::ComputeMaxLayer. */
  method ComputeMaxLayer(outs: set<nat>, min: seq<int>, i: nat, bound: int) returns (max: int)
    requires i < |min| && (forall j :: j in outs ==> j < |min|)
    ensures if outs == {} then max == min[i] else Least(min, outs, bound, max + 1)
  {
    if outs == {} { return min[i]; }
    max := bound;
    var rest := outs;
    ghost var done: set<nat> := {};
    while rest != {}
      invariant rest + done == outs && Least(min, done, bound, max)
      decreases |rest|
    {
      var j :| j in rest;
      rest, done := rest - {j}, done + {j};
      if max > min[j] {
        max := min[j];
        assert j in done;
      }
    }
    max := max - 1;
  }

  ghost predicate Least(min: seq<int>, done: set<nat>, bound: int, layer: int) {
    && layer <= bound && (forall j :: j in done ==> j < |min| && layer <= min[j])
    && (layer == bound || exists j :: j in done && j < |min| && layer == min[j])
  }

  /** ComputeLayer: the layers of every operator. */
  method ComputeLayer(g: Net, ghost level: seq<nat>, ghost top: nat)
    returns (bound: int, min: seq<int>, max: seq<int>, trib: seq<int>)
    requires Acyclic(g, level) && forall k :: 0 <= k < |level| ==> level[k] <= top
    ensures AllKnown(g, bound, min) && TribLayers(g, bound, min, trib) && |max| == |g.ins|
    ensures forall i :: 0 <= i < |g.ins| ==> 0 <= min[i] <= max[i] <= trib[i] < bound
    ensures forall i, j :: 0 <= i < |g.ins| && j in g.outs[i] ==>
            min[i] < min[j] && max[i] < min[j] && trib[i] < trib[j]
  {
    var n := |g.ins|;
    bound, min := EarliestLayers(g, level);
    max := LatestLayers(g, level, bound, min);
    trib := TributaryLayers(g, level, top, bound, min);
    hide AllKnown, TribLayers, Placed, Acyclic;
    forall i | 0 <= i < n
      ensures |min| == |trib| == n && 0 <= min[i] <= max[i] <= trib[i] < bound
    {
      InOrder(g, level, bound, min, max, trib, i);
    }
    forall i, j | 0 <= i < n && j in g.outs[i]
      ensures j < n && min[i] < min[j] && max[i] < min[j] && trib[i] < trib[j]
    {
      Along(g, level, bound, min, max, trib, i, j);
    }
  }

  method EarliestLayers(g: Net, ghost level: seq<nat>) returns (bound: int, min: seq<int>)
    requires Acyclic(g, level)
    ensures AllKnown(g, bound, min)
  {
    hide Largest;
    bound, min := -1, seq(|g.ins|, _ => -1);
    for i := 0 to |g.ins|
      invariant MinLayers(g, min) && |min| == |g.ins| && forall k :: 0 <= k < i ==> 0 <= min[k] <= bound
    {
      min := ComputeMinLayer(g, min, i, level);
      if bound < min[i] { bound := min[i]; }
    }
    bound := bound + 1;
  }

  /** max_layer of every operator. */
  ghost predicate Placed(g: Net, bound: int, min: seq<int>, max: seq<int>, n: nat) {
    && n <= |max| && |min| == |g.outs| && n <= |g.outs|
    && forall i :: 0 <= i < n ==> if g.outs[i] == {} then max[i] == min[i] else Least(min, g.outs[i], bound, max[i] + 1)
  }

  method LatestLayers(g: Net, ghost level: seq<nat>, bound: int, min: seq<int>) returns (max: seq<int>)
    requires Acyclic(g, level) && AllKnown(g, bound, min)
    ensures |max| == |g.ins| && Placed(g, bound, min, max, |g.ins|)
  {
    hide Acyclic, AllKnown, Least;
    max := [];
    Sizes(g, level, bound, min);
    for i := 0 to |g.ins|
      invariant |max| == i && Placed(g, bound, min, max, i)
    {
      OutsIn(g, level, bound, min, i);
      var layer := ComputeMaxLayer(g.outs[i], min, i, bound);
      max := max + [layer];
    }
  }

  lemma Sizes(g: Net, level: seq<nat>, bound: int, min: seq<int>)
    requires Acyclic(g, level) && AllKnown(g, bound, min)
    ensures |min| == |g.ins| == |g.outs| == |level|
  {
    hide Largest;
  }

  lemma OutsIn(g: Net, level: seq<nat>, bound: int, min: seq<int>, i: nat)
    requires Acyclic(g, level) && AllKnown(g, bound, min) && i < |g.ins|
    ensures i < |g.outs| && i < |min| && forall j :: j in g.outs[i] ==> j < |min|
  {
    hide Largest;
    forall j | j in g.outs[i] ensures j < |min| { assert InsHave(g, j, i); }
  }

  method TributaryLayers(g: Net, ghost level: seq<nat>, ghost top: nat, bound: int, min: seq<int>)
    returns (trib: seq<int>)
    requires Acyclic(g, level) && (forall k :: 0 <= k < |level| ==> level[k] <= top) && AllKnown(g, bound, min)
    ensures TribLayers(g, bound, min, trib) && forall i :: 0 <= i < |trib| ==> 0 <= trib[i]
  {
    hide Acyclic, AllKnown, Smallest;
    trib := seq(|g.ins|, _ => -1);
    Sizes(g, level, bound, min);
    for i := 0 to |g.ins|
      invariant TribLayers(g, bound, min, trib) && |trib| == |g.ins| && forall k :: 0 <= k < i ==> 0 <= trib[k]
    {
      trib := ComputeTributaryLayer(g, bound, min, trib, i, level, top);
    }
  }

  lemma InOrder(g: Net, level: seq<nat>, bound: int, min: seq<int>, max: seq<int>, trib: seq<int>, i: nat)
    requires Acyclic(g, level) && AllKnown(g, bound, min) && Placed(g, bound, min, max, |g.ins|)
             && TribLayers(g, bound, min, trib)
    requires i < |g.ins| && forall k :: 0 <= k < |trib| ==> 0 <= trib[k]
    ensures |min| == |trib| == |g.ins| && 0 <= min[i] <= max[i] <= trib[i] < bound
  {
    hide MinLayers;
    forall j | j in g.outs[i] ensures j < |min| && min[i] < min[j] <= trib[j] { Climbs(g, level, bound, min, i, j); }
    assert Smallest(trib, g.outs[i], bound, trib[i] + 1);
  }

  lemma Along(g: Net, level: seq<nat>, bound: int, min: seq<int>, max: seq<int>, trib: seq<int>, i: nat, j: nat)
    requires Acyclic(g, level) && AllKnown(g, bound, min) && Placed(g, bound, min, max, |g.ins|)
             && TribLayers(g, bound, min, trib)
    requires i < |g.ins| && j in g.outs[i] && forall k :: 0 <= k < |trib| ==> 0 <= trib[k]
    ensures j < |g.ins| == |min| == |trib| && min[i] < min[j] && max[i] < min[j] && trib[i] < trib[j]
  {
    Climbs(g, level, bound, min, i, j);
    assert Smallest(trib, g.outs[i], bound, trib[i] + 1);
  }
}
