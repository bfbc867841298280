/** SbpGraph::ComputeLayer: the earliest and the latest layer of every operator, before the trunk is
    looked for. */
module TrunkStart {
  import opened TrunkFind
  import opened TrunkOrder
  import opened TrunkReduce
  import opened TrunkWait

  /** For every node the producers it waits for: along edges, by control edges and by the control
      dependencies of mutable operators. Levels show that the graph has no cycle. */
  ghost predicate Acyclic(before: seq<seq<nat>>, level: seq<nat>) {
    && |level| == |before|
    && forall c, i :: 0 <= c < |before| && 0 <= i < |before[c]| ==>
         before[c][i] < |before| && level[before[c][i]] < level[c]
  }

  /** The layer after the last of the first k producers. */
  ghost predicate AfterLast(ps: seq<nat>, min: seq<int>, k: nat, layer: int)
    requires k <= |ps|
  {
    && -1 <= layer && (forall i :: 0 <= i < k ==> ps[i] < |min| && 0 <= min[ps[i]] <= layer)
    && (layer == -1 || exists i :: 0 <= i < k && min[ps[i]] == layer)
  }

  /** A layer that is known is one after the last of all producers, and 0 without any. */
  ghost predicate Earliest(before: seq<seq<nat>>, min: seq<int>) {
    && |min| == |before|
    && forall n :: 0 <= n < |min| ==>
         -1 <= min[n] && (0 <= min[n] ==> AfterLast(before[n], min, |before[n]|, min[n] - 1))
  }

  /** What was known stays, and nothing at or above the level has become known. */
  ghost predicate Learned(level: seq<nat>, min: seq<int>, min': seq<int>, top: nat) {
    && |min'| == |min| == |level|
    && forall k :: 0 <= k < |min| && (0 <= min[k] || level[k] >= top) ==> min'[k] == min[k]
  }

  lemma LearnedBoth(level: seq<nat>, a: seq<int>, b: seq<int>, c: seq<int>, low: nat, top: nat)
    requires Learned(level, a, b, top) && Learned(level, b, c, low) && low <= top
    ensures Learned(level, a, c, top)
  {
  }

  lemma StillAfter(ps: seq<nat>, level: seq<nat>, min: seq<int>, min': seq<int>, top: nat, k: nat, layer: int)
    requires k <= |ps| && AfterLast(ps, min, k, layer) && Learned(level, min, min', top)
    ensures AfterLast(ps, min', k, layer)
  {
    if layer >= 0 {
      var i :| 0 <= i < k && min[ps[i]] == layer;
      assert min'[ps[i]] == layer;
    }
  }

  lemma OneAfter(ps: seq<nat>, min: seq<int>, k: nat, layer: int)
    requires k < |ps| && AfterLast(ps, min, k, layer) && ps[k] < |min| && 0 <= min[ps[k]]
    ensures AfterLast(ps, min, k + 1, if min[ps[k]] > layer then min[ps[k]] else layer)
  {
    var layer' := if min[ps[k]] > layer then min[ps[k]] else layer;
    if min[ps[k]] > layer {
      assert min[ps[k]] == layer';
    } else if layer >= 0 {
      var i :| 0 <= i < k && min[ps[i]] == layer;
    }
  }

  /** SbpNode::GetMinLayer. */
  method GetMinLayer(before: seq<seq<nat>>, ghost level: seq<nat>, min: seq<int>, n: nat) returns (min': seq<int>)
    requires Acyclic(before, level) && Earliest(before, min) && n < |before|
    ensures Earliest(before, min') && Learned(level, min, min', level[n] + 1) && 0 <= min'[n]
    decreases if n < |level| then level[n] else 0
  {
    hide Earliest, AfterLast, Learned;
    Sizes(before, min);
    min' := min;
    SameLearned(level, min, level[n] + 1);
    if min[n] >= 0 { return; }
    SameLearned(level, min, level[n]);
    var layer := -1;
    FirstAfter(before[n], min);
    for i := 0 to |before[n]|
      invariant |min'| == |before| && Earliest(before, min') && Learned(level, min, min', level[n])
      invariant AfterLast(before[n], min', i, layer)
    {
      var p := before[n][i];
      ghost var known := min';
      min' := GetMinLayer(before, level, min', p);
      LearnedBoth(level, min, known, min', level[p] + 1, level[n]);
      StillAfter(before[n], level, known, min', level[p] + 1, i, layer);
      Sizes(before, min');
      OneAfter(before[n], min', i, layer);
      if min'[p] > layer { layer := min'[p]; }
    }
    AddEarliest(before, level, min, min', n, layer);
    min' := min'[n := layer + 1];
  }

  lemma Sizes(before: seq<seq<nat>>, min: seq<int>)
    requires Earliest(before, min)
    ensures |min| == |before|
  {
  }

  lemma SameLearned(level: seq<nat>, min: seq<int>, top: nat)
    requires |level| == |min|
    ensures Learned(level, min, min, top)
  {
  }

  lemma FirstAfter(ps: seq<nat>, min: seq<int>)
    ensures AfterLast(ps, min, 0, -1)
  {
  }

  lemma AddEarliest(before: seq<seq<nat>>, level: seq<nat>, min: seq<int>, min': seq<int>, n: nat, layer: int)
    requires Acyclic(before, level) && n < |before|
    requires Earliest(before, min') && Learned(level, min, min', level[n])
    requires min[n] < 0 && AfterLast(before[n], min', |before[n]|, layer)
    ensures 0 <= layer + 1
    ensures Earliest(before, min'[n := layer + 1]) && Learned(level, min, min'[n := layer + 1], level[n] + 1)
  {
    var m := min'[n := layer + 1];
    assert min'[n] == min[n] < 0;
    forall k | 0 <= k < |m| ensures -1 <= m[k] && (0 <= m[k] ==> AfterLast(before[k], m, |before[k]|, m[k] - 1)) {
      if 0 <= m[k] { AfterHere(before[k], min', m, n, |before[k]|, m[k] - 1); }
    }
  }

  lemma AfterHere(ps: seq<nat>, min: seq<int>, m: seq<int>, n: nat, k: nat, layer: int)
    requires k <= |ps| && AfterLast(ps, min, k, layer) && n < |min| == |m| && min[n] < 0
    requires forall i :: 0 <= i < |m| && i != n ==> m[i] == min[i]
    ensures AfterLast(ps, m, k, layer)
  {
    if layer >= 0 {
      var i :| 0 <= i < k && min[ps[i]] == layer;
      assert m[ps[i]] == layer;
    }
  }

  // ----- latest layers -----

  /** max is at most one before every consumer among the first k nodes, and one before some of them;
      -1 without any. */
  ghost predicate Dropped(before: seq<seq<nat>>, min: seq<int>, max: seq<int>, at: seq<nat>) {
    && |max| == |min| == |before| == |at| && (forall c :: 0 <= c < |at| ==> at[c] <= |before[c]|)
    && (forall n :: 0 <= n < |max| ==> -1 <= max[n])
    && (forall c, i :: 0 <= c < |before| && 0 <= i < at[c] ==> Below(before, min, max, c, i))
    && forall p :: 0 <= p < |max| && 0 <= max[p] ==> Pinned(before, min, max, at, p)
  }

  ghost predicate Below(before: seq<seq<nat>>, min: seq<int>, max: seq<int>, c: nat, i: nat)
    requires c < |before| && i < |before[c]|
  {
    c < |min| && before[c][i] < |max| && 0 <= max[before[c][i]] <= min[c] - 1
  }

  ghost predicate Pinned(before: seq<seq<nat>>, min: seq<int>, max: seq<int>, at: seq<nat>, p: nat)
    requires |max| == |min| == |before| == |at| && p < |max| && forall c :: 0 <= c < |at| ==> at[c] <= |before[c]|
  {
    exists c, i :: 0 <= c < |before| && 0 <= i < at[c] && before[c][i] == p && max[p] == min[c] - 1
  }

  /** SbpNode::DropMaxLayer for the next producer of c. */
  lemma DropOne(before: seq<seq<nat>>, min: seq<int>, max: seq<int>, at: seq<nat>, c: nat)
    requires Dropped(before, min, max, at)
    requires c < |before| && at[c] < |before[c]| && before[c][at[c]] < |before| && 0 < min[c]
    ensures var p, b := before[c][at[c]], min[c] - 1;
            Dropped(before, min, max[p := if b < max[p] || max[p] < 0 then b else max[p]], at[c := at[c] + 1])
  {
    var p, b := before[c][at[c]], min[c] - 1;
    var max', at' := max[p := if b < max[p] || max[p] < 0 then b else max[p]], at[c := at[c] + 1];
    forall d, i | 0 <= d < |before| && 0 <= i < at'[d] ensures Below(before, min, max', d, i) {
      if i < at[d] { assert Below(before, min, max, d, i); }
    }
    forall q | 0 <= q < |max'| && 0 <= max'[q] ensures Pinned(before, min, max', at', q) {
      if q == p && max'[p] == b {
        assert before[c][at[c]] == p && at[c] < at'[c] && max'[p] == min[c] - 1;
      } else {
        assert max'[q] == max[q] && Pinned(before, min, max, at, q);
        var d, i :| 0 <= d < |before| && 0 <= i < at[d] && before[d][i] == q && max[q] == min[d] - 1;
        assert i < at'[d] && max'[q] == min[d] - 1;
      }
    }
  }

  ghost predicate AllKnown(before: seq<seq<nat>>, min: seq<int>, top: int) {
    Earliest(before, min) && forall n :: 0 <= n < |min| ==> 0 <= min[n] <= top
  }

  /** Producers are on earlier layers. */
  lemma Rising(before: seq<seq<nat>>, min: seq<int>, top: int, c: nat, i: nat)
    requires AllKnown(before, min, top) && c < |before| && i < |before[c]|
    ensures before[c][i] < |min| && min[before[c][i]] < min[c]
  {
    assert AfterLast(before[c], min, |before[c]|, min[c] - 1);
  }

  /** Every operator may run between its min and its max layer: after all its producers, before all its
      consumers, and as early and as late as that allows. */
  ghost predicate Layers(before: seq<seq<nat>>, min: seq<int>, max: seq<int>, top: int) {
    && AllKnown(before, min, top) && |max| == |before|
    && (forall n :: 0 <= n < |max| ==> min[n] <= max[n] <= top)
    && (forall c, i :: 0 <= c < |before| && 0 <= i < |before[c]| ==>
          before[c][i] < |max| && max[before[c][i]] < min[c])
    && forall p :: 0 <= p < |max| ==> max[p] == top || Tight(before, min, max, p)
  }

  ghost predicate Tight(before: seq<seq<nat>>, min: seq<int>, max: seq<int>, p: nat) {
    exists c, i :: 0 <= c < |before| && 0 <= i < |before[c]| && c < |min| && p < |max| && before[c][i] == p
                   && max[p] == min[c] - 1
  }

  method MinLayers(before: seq<seq<nat>>, ghost level: seq<nat>) returns (min: seq<int>)
    requires Acyclic(before, level)
    ensures Earliest(before, min) && forall n :: 0 <= n < |min| ==> 0 <= min[n]
  {
    hide Learned, Acyclic, AfterLast;
    LevelSize(before, level);
    min := seq(|before|, _ => -1);
    for n := 0 to |before|
      invariant |min| == |before| && Earliest(before, min) && forall m :: 0 <= m < n ==> 0 <= min[m]
    {
      hide Earliest;
      ghost var known := min;
      min := GetMinLayer(before, level, min, n);
      StillKnown(level, known, min, level[n] + 1);
    }
  }

  method LargestLayer(min: seq<int>) returns (top: int)
    requires forall n :: 0 <= n < |min| ==> 0 <= min[n]
    ensures (forall n :: 0 <= n < |min| ==> min[n] <= top) && -1 <= top
    ensures top == -1 <==> min == []
    ensures min == [] || exists n :: 0 <= n < |min| && min[n] == top
  {
    top := -1;
    for n := 0 to |min|
      invariant -1 <= top && (forall m :: 0 <= m < n ==> min[m] <= top)
      invariant if n == 0 then top == -1 else exists m :: 0 <= m < n && min[m] == top
    {
      if top < min[n] { top := min[n]; }
    }
  }

  lemma LevelSize(before: seq<seq<nat>>, level: seq<nat>)
    requires Acyclic(before, level)
    ensures |level| == |before|
  {
  }

  lemma StillKnown(level: seq<nat>, min: seq<int>, min': seq<int>, top: nat)
    requires Learned(level, min, min', top)
    ensures |min'| == |min| && forall k :: 0 <= k < |min| && 0 <= min[k] ==> min'[k] == min[k]
  {
  }

  method SpreadMaxLayers(before: seq<seq<nat>>, min: seq<int>, ghost top: int)
    returns (max: seq<int>, ghost at: seq<nat>)
    requires AllKnown(before, min, top)
    ensures Dropped(before, min, max, at) && forall c :: 0 <= c < |before| ==> at[c] == |before[c]|
  {
    hide Dropped, AllKnown;
    KnownSizes(before, min, top);
    max, at := seq(|before|, _ => -1), seq(|before|, _ => 0);
    NothingDropped(before, min, max, at);
    for c := 0 to |before|
      invariant |max| == |at| == |before| && Dropped(before, min, max, at)
      invariant (forall d :: 0 <= d < c ==> at[d] == |before[d]|) && forall d :: c <= d < |before| ==> at[d] == 0
    {
      if min[c] > 0 {
        for i := 0 to |before[c]|
          invariant |max| == |at| == |before| && Dropped(before, min, max, at) && at[c] == i
          invariant forall d :: 0 <= d < c ==> at[d] == |before[d]|
          invariant forall d :: c < d < |before| ==> at[d] == 0
        {
          var p, b := before[c][i], min[c] - 1;
          Rising(before, min, top, c, i);
          DropOne(before, min, max, at, c);
          if b < max[p] || max[p] < 0 { max := max[p := b]; }
          assert max == max[p := max[p]];
          at := at[c := i + 1];
        }
      } else {
        NoProducers(before, min, top, c);
      }
    }
  }

  lemma KnownSizes(before: seq<seq<nat>>, min: seq<int>, top: int)
    requires AllKnown(before, min, top)
    ensures |min| == |before| && forall n :: 0 <= n < |min| ==> 0 <= min[n] <= top
  {
  }

  lemma NothingDropped(before: seq<seq<nat>>, min: seq<int>, max: seq<int>, at: seq<nat>)
    requires |max| == |min| == |before| == |at| && forall n :: 0 <= n < |max| ==> max[n] == -1 && at[n] == 0
    ensures Dropped(before, min, max, at)
  {
  }

  lemma NoProducers(before: seq<seq<nat>>, min: seq<int>, top: int, c: nat)
    requires AllKnown(before, min, top) && c < |before|
    ensures before[c] == [] || 0 < min[c]
  {
    if before[c] != [] { Rising(before, min, top, c, 0); }
  }

  /** SbpGraph::ComputeLayer. */
  method ComputeLayer(before: seq<seq<nat>>, ghost level: seq<nat>) returns (min: seq<int>, max: seq<int>, top: int)
    requires Acyclic(before, level)
    ensures Layers(before, min, max, top)
    ensures if before == [] then top == -1 else exists n :: 0 <= n < |min| && min[n] == top
  {
    hide Layers, Acyclic, AllKnown, Earliest, Dropped;
    min := MinLayers(before, level);
    top := LargestLayer(min);
    AllMin(before, min, top);
    ghost var at;
    max, at := SpreadMaxLayers(before, min, top);
    KnownSizes(before, min, top);
    ghost var spread := max;
    DroppedSize(before, min, max, at);
    for n := 0 to |before|
      invariant |max| == |before| && forall m :: 0 <= m < |max| ==>
                  max[m] == if m < n && spread[m] < min[m] then top else spread[m]
    {
      if max[n] < min[n] { max := max[n := top]; }
    }
    Lifted(before, min, spread, max, at, top);
  }

  lemma AllMin(before: seq<seq<nat>>, min: seq<int>, top: int)
    requires Earliest(before, min) && forall n :: 0 <= n < |min| ==> 0 <= min[n] <= top
    ensures AllKnown(before, min, top)
  {
  }

  lemma DroppedSize(before: seq<seq<nat>>, min: seq<int>, max: seq<int>, at: seq<nat>)
    requires Dropped(before, min, max, at)
    ensures |max| == |before|
  {
  }

  /** A node that some consumer has dropped is not below its min layer, so only nodes without consumers
      are lifted. */
  lemma Lifted(before: seq<seq<nat>>, min: seq<int>, spread: seq<int>, max: seq<int>, at: seq<nat>, top: int)
    requires AllKnown(before, min, top) && Dropped(before, min, spread, at) && |max| == |before|
    requires forall c :: 0 <= c < |before| ==> at[c] == |before[c]|
    requires |min| == |before| && forall m :: 0 <= m < |max| ==> max[m] == if spread[m] < min[m] then top else spread[m]
    ensures Layers(before, min, max, top)
  {
    forall p | 0 <= p < |max| && 0 <= spread[p] ensures min[p] <= spread[p] <= top && Tight(before, min, max, p) {
      DroppedTight(before, min, spread, at, top, p);
    }
    forall c, i | 0 <= c < |before| && 0 <= i < |before[c]|
      ensures before[c][i] < |max| && max[before[c][i]] < min[c]
    {
      assert Below(before, min, spread, c, i);
      DroppedTight(before, min, spread, at, top, before[c][i]);
    }
  }

  lemma DroppedTight(before: seq<seq<nat>>, min: seq<int>, max: seq<int>, at: seq<nat>, top: int, p: nat)
    requires AllKnown(before, min, top) && Dropped(before, min, max, at) && p < |max| && 0 <= max[p]
    ensures p < |min| && min[p] <= max[p] <= top && Tight(before, min, max, p)
  {
    assert Pinned(before, min, max, at, p);
    var c, i :| 0 <= c < |before| && 0 <= i < at[c] && before[c][i] == p && max[p] == min[c] - 1;
    Rising(before, min, top, c, i);
  }

  /** The graph determines the min layers. */
  lemma {:induction false} MinUnique(before: seq<seq<nat>>, a: seq<int>, b: seq<int>, top: int, n: nat)
    requires AllKnown(before, a, top) && AllKnown(before, b, top) && n < |before|
    ensures a[n] == b[n]
    decreases a[n]
  {
    var ps := before[n];
    forall i | 0 <= i < |ps| ensures ps[i] < |before| && a[ps[i]] == b[ps[i]] {
      Rising(before, a, top, n, i);
      MinUnique(before, a, b, top, ps[i]);
    }
    assert AfterLast(ps, a, |ps|, a[n] - 1) && AfterLast(ps, b, |ps|, b[n] - 1);
  }

  /** And with them the max layers. */
  lemma LayersUnique(before: seq<seq<nat>>, min: seq<int>, max: seq<int>, min': seq<int>, max': seq<int>, top: int)
    requires Layers(before, min, max, top) && Layers(before, min', max', top)
    ensures min == min' && max == max'
  {
    forall n | 0 <= n < |before| ensures min[n] == min'[n] { MinUnique(before, min, min', top, n); }
    forall p | 0 <= p < |before| ensures max[p] == max'[p] {
      NotLater(before, min, max, max', top, p);
      NotLater(before, min, max', max, top, p);
    }
  }

  lemma NotLater(before: seq<seq<nat>>, min: seq<int>, max: seq<int>, max': seq<int>, top: int, p: nat)
    requires Layers(before, min, max, top) && Layers(before, min, max', top) && p < |before|
    ensures max[p] <= max'[p]
  {
    if max'[p] != top {
      var c, i :| 0 <= c < |before| && 0 <= i < |before[c]| && before[c][i] == p && max'[p] == min[c] - 1;
      assert max[before[c][i]] < min[c];
    }
  }

  // ----- the whole -----

  function Producers(us: seq<Up>): (ps: seq<nat>)
    ensures |ps| == |us| && forall i :: 0 <= i < |us| ==> ps[i] == us[i].producer
  {
    seq(|us|, i requires 0 <= i < |us| => us[i].producer)
  }

  /** Edges and control edges, then the control dependencies of mutable operators. */
  function Before(ups: seq<seq<Up>>, deps: seq<seq<nat>>): (before: seq<seq<nat>>)
    requires |deps| == |ups|
    ensures |before| == |ups| && forall n :: 0 <= n < |ups| ==> before[n] == Producers(ups[n]) + deps[n]
  {
    seq(|ups|, n requires 0 <= n < |ups| => Producers(ups[n]) + deps[n])
  }

  lemma LayersRise(ups: seq<seq<Up>>, deps: seq<seq<nat>>, min: seq<nat>, top: int)
    requires |deps| == |ups| && AllKnown(Before(ups, deps), min, top)
    ensures Layered(ups, min) && forall n :: 0 <= n < |min| ==> min[n] <= top
  {
    hide AllKnown, Before;
    var before := Before(ups, deps);
    KnownSizes(before, min, top);
    forall c, i | 0 <= c < |ups| && 0 <= i < |ups[c]|
      ensures ups[c][i].producer < |ups| && min[ups[c][i].producer] < min[c]
    {
      assert before[c] == Producers(ups[c]) + deps[c];
      assert before[c][i] == ups[c][i].producer;
      Rising(before, min, top, c, i);
    }
  }

  /** SbpConstructor::ApplyTrunkAlgo on a graph with a node: whatever acyclic graph, the layers found
      are fit for FindTrunk, which finds a wait time for every edge. */
  method ApplyTrunkAlgo(ups: seq<seq<Up>>, deps: seq<seq<nat>>, ghost level: seq<nat>, cost: seq<real>, most: real)
    returns (ok: bool, wait: seq<seq<real>>, ghost min: seq<nat>, ghost max: seq<int>, ghost top: nat, ghost f: Found)
    requires |ups| == |deps| == |cost| > 0 && Acyclic(Before(ups, deps), level)
    requires 0.0 <= most && forall n :: 0 <= n < |cost| ==> 0.0 <= cost[n]
    ensures Layers(Before(ups, deps), min, max, top) && (exists n :: 0 <= n < |min| && min[n] == top)
    ensures ok && Timed(ups, wait, most) && Costs(ups, min, cost, top)
    ensures TrunkFound(ups, min, cost, top, f) && WaitsFound(ups, min, cost, top, most, f, wait)
  {
    hide Layers, Acyclic, AllKnown, Timed, TrunkFound, WaitsFound, EndsAt, InLayer, Layered, Before;
    var earliest, latest, last := ComputeLayer(Before(ups, deps), level);
    HasLayers(Before(ups, deps), earliest, latest, last);
    var layers: seq<nat> := earliest;
    LayersRise(ups, deps, layers, last);
    var byLayer;
    ok, wait, byLayer, f := FindTrunk(ups, layers, cost, last, most);
    min, max, top := layers, latest, last;
  }

  lemma HasLayers(before: seq<seq<nat>>, min: seq<int>, max: seq<int>, top: int)
    requires Layers(before, min, max, top) && |before| > 0
    ensures |min| == |before| && 0 <= top && AllKnown(before, min, top)
    ensures forall n :: 0 <= n < |min| ==> 0 <= min[n]
  {
    assert 0 <= min[0] <= top;
  }
}
