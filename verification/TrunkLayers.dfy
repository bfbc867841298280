/** SpreadTributaryLayer: how late the operators beside the trunk may run. */
module TrunkLayers {
  import opened TrunkOrder

  /** What a node allows its producers: one layer before it on the trunk, its own layer beside it. */
  function Bound(min: seq<nat>, trunk: seq<bool>, trib: seq<int>, c: nat): int
    requires c < |min| == |trunk| == |trib|
  {
    if trunk[c] then min[c] - 1 else trib[c]
  }

  ghost predicate Sizes(ups: seq<seq<Up>>, min: seq<nat>, trunk: seq<bool>, trib: seq<int>) {
    |min| == |trunk| == |trib| == |ups|
  }

  /** Every layer is between the min layer and the top, no later than every consumer that has
      spread allows, and as late as that. */
  ghost predicate Latest(ups: seq<seq<Up>>, min: seq<nat>, trunk: seq<bool>, top: int, trib: seq<int>, at: seq<nat>) {
    && Sizes(ups, min, trunk, trib) && InRange(ups, at)
    && (forall n :: 0 <= n < |trib| ==> min[n] <= trib[n] <= top)
    && (forall c, i :: 0 <= c < |ups| && 0 <= i < at[c] ==> Allowed(min, trunk, trib, ups[c][i].producer, c))
    && (forall p :: 0 <= p < |trib| ==> trib[p] == top || Pinned(ups, min, trunk, trib, at, p))
  }

  ghost predicate Allowed(min: seq<nat>, trunk: seq<bool>, trib: seq<int>, p: nat, c: nat) {
    p < |trib| && c < |min| == |trunk| == |trib| && trib[p] <= Bound(min, trunk, trib, c)
  }

  ghost predicate Pinned(ups: seq<seq<Up>>, min: seq<nat>, trunk: seq<bool>, trib: seq<int>, at: seq<nat>, p: nat)
    requires Sizes(ups, min, trunk, trib) && InRange(ups, at) && p < |ups|
  {
    exists c, i :: 0 <= c < |ups| && 0 <= i < at[c] && ups[c][i].producer == p && trib[p] == Bound(min, trunk, trib, c)
  }

  /** DropTributaryLayer for the next producer of n. */
  lemma Drops(ups: seq<seq<Up>>, min: seq<nat>, trunk: seq<bool>, top: int, trib: seq<int>, at: seq<nat>,
              counter: seq<int>, open: set<nat>, n: nat)
    requires Layered(ups, min) && Spreading(ups, at, counter, open) && Latest(ups, min, trunk, top, trib, at)
    requires n in open && n < |ups| && at[n] < |ups[n]|
    ensures var p, b := ups[n][at[n]].producer, Bound(min, trunk, trib, n);
            && p < |trib| && Latest(ups, min, trunk, top,
               trib[p := if b < trib[p] || trib[p] < 0 then b else trib[p]], at[n := at[n] + 1])
            && p != n && p !in open && Bound(min, trunk, trib, n) == (if trunk[n] then min[n] - 1 else trib[n])
  {
    hide Spreading, Layered, Latest, Allowed, Pinned;
    Spreads(ups, min, at, counter, open, n);
    Fresh(ups, min, at, counter, open, n);
    LatestSizes(ups, min, trunk, top, trib, at);
    var p, b := ups[n][at[n]].producer, Bound(min, trunk, trib, n);
    var trib', at' := trib[p := if b < trib[p] || trib[p] < 0 then b else trib[p]], at[n := at[n] + 1];
    DropsOne(ups, min, trunk, top, trib, at, n, p, trib', at');
  }

  lemma LatestSizes(ups: seq<seq<Up>>, min: seq<nat>, trunk: seq<bool>, top: int, trib: seq<int>, at: seq<nat>)
    requires Latest(ups, min, trunk, top, trib, at)
    ensures Sizes(ups, min, trunk, trib) && InRange(ups, at)
  {
  }

  /** n, which has started, tells p, which has not. */
  ghost predicate Telling(ups: seq<seq<Up>>, min: seq<nat>, trunk: seq<bool>, trib: seq<int>, at: seq<nat>, n: nat,
                          p: nat, trib': seq<int>, at': seq<nat>) {
    && Sizes(ups, min, trunk, trib) && InRange(ups, at) && n < |ups| && at[n] < |ups[n]| && p < |ups|
    && ups[n][at[n]].producer == p && p != n && at[p] == 0 && min[p] < min[n] && at' == at[n := at[n] + 1]
    && trib' == trib[p := if Bound(min, trunk, trib, n) < trib[p] || trib[p] < 0 then Bound(min, trunk, trib, n)
       else trib[p]]
  }

  lemma DropsOne(ups: seq<seq<Up>>, min: seq<nat>, trunk: seq<bool>, top: int, trib: seq<int>, at: seq<nat>, n: nat,
                 p: nat, trib': seq<int>, at': seq<nat>)
    requires Latest(ups, min, trunk, top, trib, at) && Telling(ups, min, trunk, trib, at, n, p, trib', at')
    ensures Latest(ups, min, trunk, top, trib', at')
  {
    hide Allowed, Pinned;
    forall c, i | 0 <= c < |ups| && 0 <= i < at'[c] ensures Allowed(min, trunk, trib', ups[c][i].producer, c) {
      if i < at[c] {
        assert Allowed(min, trunk, trib, ups[c][i].producer, c);
        StaysAllowed(ups, min, trunk, trib, at, n, p, trib', at', ups[c][i].producer, c);
      } else {
        NowAllowed(ups, min, trunk, trib, at, n, p, trib', at');
      }
    }
    forall q | 0 <= q < |trib'| ensures trib'[q] == top || Pinned(ups, min, trunk, trib', at', q) {
      StaysPinned(ups, min, trunk, top, trib, at, n, p, trib', at', q);
    }
  }

  lemma StaysAllowed(ups: seq<seq<Up>>, min: seq<nat>, trunk: seq<bool>, trib: seq<int>, at: seq<nat>, n: nat, p: nat,
                     trib': seq<int>, at': seq<nat>, q: nat, c: nat)
    requires Telling(ups, min, trunk, trib, at, n, p, trib', at') && Allowed(min, trunk, trib, q, c) && at[c] > 0
             && 0 <= trib[p]
    ensures Allowed(min, trunk, trib', q, c)
  {
  }

  lemma NowAllowed(ups: seq<seq<Up>>, min: seq<nat>, trunk: seq<bool>, trib: seq<int>, at: seq<nat>, n: nat, p: nat,
                   trib': seq<int>, at': seq<nat>)
    requires Telling(ups, min, trunk, trib, at, n, p, trib', at')
    ensures Allowed(min, trunk, trib', p, n)
  {
  }

  lemma StaysPinned(ups: seq<seq<Up>>, min: seq<nat>, trunk: seq<bool>, top: int, trib: seq<int>, at: seq<nat>,
                    n: nat, p: nat, trib': seq<int>, at': seq<nat>, q: nat)
    requires Telling(ups, min, trunk, trib, at, n, p, trib', at') && q < |trib|
             && (trib[q] == top || Pinned(ups, min, trunk, trib, at, q))
    ensures trib'[q] == top || Pinned(ups, min, trunk, trib', at', q)
  {
    if trib'[q] != trib[q] {
      assert ups[n][at[n]].producer == q && at[n] < at'[n] && trib'[q] == Bound(min, trunk, trib', n);
    } else if trib[q] != top {
      var c, i :| 0 <= c < |ups| && 0 <= i < at[c] && ups[c][i].producer == q && trib[q] == Bound(min, trunk, trib, c);
      assert c != p && i < at'[c] && trib'[q] == Bound(min, trunk, trib', c);
    }
  }

  /** A producer that is still waited for has not spread to anybody. */
  lemma Fresh(ups: seq<seq<Up>>, min: seq<nat>, at: seq<nat>, counter: seq<int>, open: set<nat>, n: nat)
    requires Layered(ups, min) && Spreading(ups, at, counter, open) && n in open && n < |ups| && at[n] < |ups[n]|
    ensures var p := ups[n][at[n]].producer; p < |ups| && p != n && at[p] == 0
  {
    Spreads(ups, min, at, counter, open, n);
    assert Placed(ups, at, counter, open, ups[n][at[n]].producer);
  }

  method SpreadTributaryLayer(ups: seq<seq<Up>>, min: seq<nat>, trunk: seq<bool>, ghost top: int, trib: seq<int>,
                              counter: seq<int>, n: nat,
                              ghost at: seq<nat>, ghost open: set<nat>)
    returns (trib': seq<int>, counter': seq<int>, ghost at': seq<nat>)
    requires Layered(ups, min) && Spreading(ups, at, counter, open) && Latest(ups, min, trunk, top, trib, at)
             && n < |ups| && n !in open
    ensures Spreading(ups, at', counter', open) && Latest(ups, min, trunk, top, trib', at')
    ensures Goes(min, at, counter, at', counter', open) && !Ready(min, counter', n) && |trib'| == |trib|
            && Same(trib, trib', open)
    decreases if n < |min| then min[n] else 0
  {
    hide Spreading, Layered, Latest, Goes;
    Shapes(ups, min, trunk, top, trib, at, counter, open);
    trib', counter', at' := trib, counter, at;
    Stands(min, at, counter, open);
    if counter[n] != 0 || min[n] <= 0 { return; }
    Starts(ups, at, counter, open, n);
    ghost var inside := open + {n};
    var bound := if trunk[n] then min[n] - 1 else trib[n];
    for i := 0 to |ups[n]|
      invariant Spreading(ups, at', counter', inside) && Latest(ups, min, trunk, top, trib', at')
      invariant |at'| == |counter'| == |trib'| == |ups| && at'[n] == i && Goes(min, at, counter, at', counter', open)
                && Same(trib, trib', inside)
    {
      Drops(ups, min, trunk, top, trib', at', counter', inside, n);
      Spreads(ups, min, at', counter', inside, n);
      OpenZero(ups, at', counter', inside, n);
      ghost var b4, a4 := counter', at';
      var p := ups[n][i].producer;
      trib' := trib'[p := if bound < trib'[p] || trib'[p] < 0 then bound else trib'[p]];
      counter', at' := counter'[p := counter'[p] - 1], at'[n := i + 1];
      if counter'[p] == 0 {
        ghost var b5, a5, t5 := counter', at', trib';
        trib', counter', at' := SpreadTributaryLayer(ups, min, trunk, top, trib', counter', p, at', inside);
        After(min, a4, b4, a5, b5, at', counter', open, n, p);
      } else {
        Counted(min, a4, b4, at', counter', open, n, p);
      }
      GoesOn(min, at, counter, a4, b4, at', counter', open);
      Shapes(ups, min, trunk, top, trib', at', counter', inside);
    }
    Finishes(ups, at', counter', open, n);
    Done(min, at, counter, at', counter', open, n);
    counter' := counter'[n := -1];
  }

  ghost predicate Same(trib: seq<int>, trib': seq<int>, open: set<nat>) {
    |trib'| == |trib| && forall m :: m in open && m < |trib| ==> trib'[m] == trib[m]
  }

  lemma OpenZero(ups: seq<seq<Up>>, at: seq<nat>, counter: seq<int>, open: set<nat>, n: nat)
    requires Spreading(ups, at, counter, open) && n in open && n < |ups|
    ensures |counter| == |ups| && counter[n] == 0
  {
    assert Placed(ups, at, counter, open, n);
  }

  lemma Shapes(ups: seq<seq<Up>>, min: seq<nat>, trunk: seq<bool>, top: int, trib: seq<int>, at: seq<nat>,
               counter: seq<int>, open: set<nat>)
    requires Layered(ups, min) && Spreading(ups, at, counter, open) && Latest(ups, min, trunk, top, trib, at)
    ensures |min| == |trunk| == |trib| == |at| == |counter| == |ups|
  {
  }

  lemma Stands(min: seq<nat>, at: seq<nat>, counter: seq<int>, open: set<nat>)
    requires |at| == |counter|
    ensures Goes(min, at, counter, at, counter, open)
  {
  }

  /** One producer of n has one consumer less to wait for, but still some. */
  lemma Counted(min: seq<nat>, at: seq<nat>, counter: seq<int>, at': seq<nat>, counter': seq<int>, open: set<nat>,
                n: nat, p: nat)
    requires n < |at| == |counter| && p < |counter| && n !in open && counter[n] == 0 && counter[p] > 1 && p != n
    requires at' == at[n := at[n] + 1] && counter' == counter[p := counter[p] - 1]
    ensures Goes(min, at, counter, at', counter', open)
  {
  }

  /** ... or none, and then it has started at once. */
  lemma After(min: seq<nat>, at: seq<nat>, counter: seq<int>, at': seq<nat>, counter': seq<int>, at'': seq<nat>,
              counter'': seq<int>, open: set<nat>, n: nat, p: nat)
    requires n < |at| == |counter| && p < |counter| && n !in open && counter[n] == 0 && counter[p] == 1 && p != n
    requires at' == at[n := at[n] + 1] && counter' == counter[p := 0]
    requires Goes(min, at', counter', at'', counter'', open + {n}) && !Ready(min, counter'', p) && n < |min|
             && min[n] > 0
    ensures Goes(min, at, counter, at'', counter'', open) && |at''| == |at| && at''[n] == at[n] + 1
  {
  }

  lemma Done(min: seq<nat>, at: seq<nat>, counter: seq<int>, at': seq<nat>, counter': seq<int>, open: set<nat>, n: nat)
    requires Goes(min, at, counter, at', counter', open) && n < |counter| && n !in open && counter[n] == 0
    ensures Goes(min, at, counter, at', counter'[n := -1], open) && !Ready(min, counter'[n := -1], n)
  {
  }

  lemma LayeredSizes(ups: seq<seq<Up>>, min: seq<nat>)
    requires Layered(ups, min)
    ensures |min| == |ups|
  {
  }

  lemma NoneNew(min: seq<nat>, at: seq<nat>, counter: seq<int>, at': seq<nat>, counter': seq<int>, open: set<nat>,
                m: nat)
    requires Goes(min, at, counter, at', counter', open) && m !in open && !Ready(min, counter, m)
    ensures !Ready(min, counter', m)
  {
  }

  lemma ReadyIn(min: seq<nat>, counter: seq<int>, m: nat)
    ensures Ready(min, counter, m) ==> m < |min| && m < |counter|
  {
  }

  lemma AllAtTop(ups: seq<seq<Up>>, min: seq<nat>, trunk: seq<bool>, top: int, trib: seq<int>, at: seq<nat>)
    requires Sizes(ups, min, trunk, trib) && InRange(ups, at) && forall n :: 0 <= n < |ups| ==>
             at[n] == 0 && trib[n] == top && min[n] <= top
    ensures Latest(ups, min, trunk, top, trib, at)
  {
  }

  /** The tributary layers of FindTrunk: as late as every consumer allows, and never before the
      min layer. */
  method TributaryLayers(ups: seq<seq<Up>>, min: seq<nat>, trunk: seq<bool>, top: nat) returns (trib: seq<int>)
    requires Layered(ups, min) && |trunk| == |ups| && forall n :: 0 <= n < |min| ==> min[n] <= top
    ensures Latest(ups, min, trunk, top, trib, Links(ups))
  {
    hide Latest, Goes, Layered, Ready;
    var counter := CountConsumers(ups, min);
    ghost var all := NoLinks(ups);
    trib := seq(|ups|, _ => top);
    LayeredSizes(ups, min);
    AllAtTop(ups, min, trunk, top, trib, all);
    Shapes(ups, min, trunk, top, trib, all, counter, {});
    for n := 0 to |ups|
      invariant Spreading(ups, all, counter, {}) && Latest(ups, min, trunk, top, trib, all)
                && forall m :: 0 <= m < n ==> !Ready(min, counter, m)
    {
      hide Spreading;
      ghost var b4, a4 := counter, all;
      trib, counter, all := SpreadTributaryLayer(ups, min, trunk, top, trib, counter, n, all, {});
      forall m | 0 <= m < n ensures !Ready(min, counter, m) { NoneNew(min, a4, b4, all, counter, {}, m); }
    }
    Shapes(ups, min, trunk, top, trib, all, counter, {});
    forall m ensures !Ready(min, counter, m) { ReadyIn(min, counter, m); }
    forall n | 0 <= n < |ups| ensures all[n] == |ups[n]| { AllSpread(ups, min, all, counter, top, n); }
    IsLinks(ups, all);
  }
}
