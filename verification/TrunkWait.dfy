/** The wait times of FindTrunk: spread backwards along the edges, and reduced on the trunk by
    the cost of what runs beside it. */
module TrunkWait {
  import opened TrunkOrder
  import opened TrunkLayers

  // ----- along the edges -----

  /** Costs per layer that are not negative, and for every layer the sum of the later ones. */
  ghost predicate Suffixes(cost: seq<real>, acc: seq<real>) {
    && |acc| == |cost| && (forall l :: 0 <= l < |cost| ==> 0.0 <= cost[l] && 0.0 <= acc[l])
    && forall k, l :: 0 <= k <= l < |acc| ==> acc[l] <= acc[k]
  }

  /** acc_trunk_cost. */
  method AccumulateTrunk(cost: seq<real>) returns (acc: seq<real>)
    requires forall l :: 0 <= l < |cost| ==> 0.0 <= cost[l]
    ensures Suffixes(cost, acc)
    ensures |acc| > 0 ==> acc[|acc| - 1] == 0.0 && forall l :: 0 < l < |acc| ==> acc[l - 1] == acc[l] + cost[l]
  {
    acc := seq(|cost|, _ => 0.0);
    if |cost| == 0 { return; }
    var l := |cost| - 1;
    while l > 0
      invariant 0 <= l < |cost| == |acc| && acc[|cost| - 1] == 0.0
      invariant forall k :: l <= k < |cost| ==> 0.0 <= acc[k]
      invariant forall k :: l < k < |cost| ==> acc[k - 1] == acc[k] + cost[k]
      invariant forall k, m :: l <= k <= m < |cost| ==> acc[m] <= acc[k]
    {
      acc := acc[l - 1 := acc[l] + cost[l]];
      l := l - 1;
    }
  }

  datatype Net = Net(ups: seq<seq<Up>>, min: seq<nat>, trunk: seq<bool>, cost: seq<real>, acc: seq<real>, most: real)

  ghost predicate Set(g: Net) {
    && Layered(g.ups, g.min) && |g.trunk| == |g.ups| && Suffixes(g.cost, g.acc) && 0.0 <= g.most
    && forall n :: 0 <= n < |g.min| ==> g.min[n] < |g.cost|
  }

  /** The trunk cost that can hide the wait time of an edge from p to n. */
  function Remaining(g: Net, own: real, n: nat, p: nat): real
    requires n < |g.min| && p < |g.min| && 0 < g.min[n] <= |g.acc| && g.min[p] < |g.acc|
  {
    own + g.acc[g.min[p]] - g.acc[g.min[n] - 1]
  }

  /** The wait time that is not hidden, and the trunk cost left for the producer. */
  function Exposed(g: Net, left: real): real { if left >= g.most then 0.0 else g.most - left }

  function Passed(g: Net, data: bool, left: real): real {
    if !data then left else if left >= g.most then left - g.most else 0.0
  }

  /** What a node starts with, given the least trunk cost its consumers left (-1.0: none did). */
  function Begin(g: Net, n: nat, got: real): real
    requires n < |g.trunk| && n < |g.min| && 0 < g.min[n] < |g.cost| && |g.acc| == |g.cost|
  {
    if g.trunk[n] then 0.0 else if got < 0.0 then g.acc[g.min[n] - 1] else got + g.cost[g.min[n]]
  }

  lemma RemainingSure(g: Net, own: real, n: nat, p: nat)
    requires Set(g) && n < |g.ups| && p < |g.ups| && g.min[p] < g.min[n] && 0.0 <= own
    ensures g.min[n] < |g.acc| && g.min[p] < |g.acc| && 0.0 <= Remaining(g, own, n, p)
  {
    assert g.acc[g.min[n] - 1] <= g.acc[g.min[p]];
  }

  // ----- what holds while the wait times are spread -----

  /** The wait time of the ith edge into n: exactly what its trunk cost does not hide, once
      spread, and not assigned before. */
  ghost predicate Waited(g: Net, at: nat, own: real, wait: real, n: nat, i: nat)
    requires n < |g.ups| && i < |g.ups[n]|
  {
    var p := g.ups[n][i].producer;
    if g.ups[n][i].data && i < at then
      && n < |g.min| && p < |g.min| && 0 < g.min[n] <= |g.acc| && g.min[p] < |g.acc|
      && wait == Exposed(g, Remaining(g, own, n, p)) && 0.0 <= wait <= g.most
    else wait < 0.0
  }

  ghost predicate Waits(g: Net, at: seq<nat>, own: seq<real>, wait: seq<seq<real>>) {
    && InRange(g.ups, at) && |wait| == |g.ups| == |own| && (forall n :: 0 <= n < |g.ups| ==> |wait[n]| == |g.ups[n]|)
    && forall n, i :: 0 <= n < |g.ups| && 0 <= i < |g.ups[n]| ==> Waited(g, at[n], own[n], wait[n][i], n, i)
  }

  /** Consumer c leaves its ith producer no less than got. */
  ghost predicate Leaves(g: Net, own: seq<real>, got: seq<real>, c: nat, i: nat)
    requires |own| == |got| == |g.ups| && c < |g.ups| && i < |g.ups[c]|
  {
    var up := g.ups[c][i];
    var p := up.producer;
    && c < |g.min| && p < |g.min| == |got| == |g.trunk| && 0 < g.min[c] <= |g.acc| && g.min[p] < |g.acc|
    && (g.trunk[p] || 0.0 <= got[p] <= Passed(g, up.data, Remaining(g, own[c], c, p)))
  }

  /** ... and just that. */
  ghost predicate Exactly(g: Net, own: seq<real>, got: seq<real>, c: nat, i: nat)
    requires |own| == |got| == |g.ups| && c < |g.ups| && i < |g.ups[c]|
  {
    var up := g.ups[c][i];
    var p := up.producer;
    && Leaves(g, own, got, c, i) && !g.trunk[p] && got[p] == Passed(g, up.data, Remaining(g, own[c], c, p))
  }

  ghost predicate Given(g: Net, at: seq<nat>, own: seq<real>, got: seq<real>, p: nat)
    requires InRange(g.ups, at) && |own| == |got| == |g.ups| && p < |g.ups|
  {
    got[p] == -1.0 ||
    exists c, i ::
      && 0 <= c < |g.ups| && 0 <= i < at[c] && g.ups[c][i].producer == p
      && Exactly(g, own, got, c, i)
  }

  /** got is the least that consumers which have spread left to each node beside the trunk. */
  ghost predicate Least(g: Net, at: seq<nat>, own: seq<real>, got: seq<real>) {
    && InRange(g.ups, at) && |own| == |got| == |g.ups|
    && (forall c, i :: 0 <= c < |g.ups| && 0 <= i < at[c] ==> Leaves(g, own, got, c, i))
    && forall p :: 0 <= p < |g.ups| ==> Given(g, at, own, got, p)
  }

  ghost predicate Holds(g: Net, counter: int, open: bool, own: real, got: real, n: nat) {
    && (got == -1.0 || 0.0 <= got)
    && if counter == -1 || open then n < |g.trunk| && n < |g.min| && 0 < g.min[n] < |g.cost| && |g.acc| == |g.cost|
       && own == Begin(g, n, got)
       else own == got
  }

  /** acc_trunk_cost_ is what a node started with, or what it has been left so far. */
  ghost predicate Owned(g: Net, counter: seq<int>, open: set<nat>, own: seq<real>, got: seq<real>) {
    && |counter| == |own| == |got| == |g.ups|
    && forall n :: 0 <= n < |g.ups| ==> Holds(g, counter[n], n in open, own[n], got[n], n)
  }

  ghost predicate Even(g: Net, at: seq<nat>, counter: seq<int>, open: set<nat>, own: seq<real>, got: seq<real>,
                       wait: seq<seq<real>>) {
    Waits(g, at, own, wait) && Least(g, at, own, got) && Owned(g, counter, open, own, got)
  }

  // ----- the steps -----

  /** A node that has not spread to anybody may change what it has. */
  lemma Unspread(g: Net, at: seq<nat>, own: seq<real>, got: seq<real>, wait: seq<seq<real>>, n: nat, v: real)
    requires Waits(g, at, own, wait) && Least(g, at, own, got) && n < |g.ups| && at[n] == 0
    ensures |own| == |g.ups| && Waits(g, at, own[n := v], wait) && Least(g, at, own[n := v], got)
  {
    var own' := own[n := v];
    forall m, i | 0 <= m < |g.ups| && 0 <= i < |g.ups[m]| ensures Waited(g, at[m], own'[m], wait[m][i], m, i) {
      assert Waited(g, at[m], own[m], wait[m][i], m, i);
    }
    forall c, i | 0 <= c < |g.ups| && 0 <= i < at[c]
      ensures Leaves(g, own', got, c, i)
    {
      assert Leaves(g, own, got, c, i);
    }
    forall p | 0 <= p < |g.ups| ensures Given(g, at, own', got, p) {
      assert Given(g, at, own, got, p);
      if got[p] != -1.0 {
        var c, i :| 0 <= c < |g.ups| && 0 <= i < at[c] && g.ups[c][i].producer == p && Exactly(g, own, got, c, i);
        assert Exactly(g, own', got, c, i);
      }
    }
  }

  lemma Begins(g: Net, at: seq<nat>, counter: seq<int>, open: set<nat>, own: seq<real>, got: seq<real>,
               wait: seq<seq<real>>, n: nat)
    requires Set(g) && Even(g, at, counter, open, own, got, wait)
    requires n < |g.ups| && n < |counter| && n < |at| && counter[n] == 0 && n !in open && at[n] == 0 && n < |g.min|
             && g.min[n] > 0
    ensures n < |g.trunk| && n < |own| && g.min[n] < |g.cost| == |g.acc| && 0.0 <= Begin(g, n, own[n])
    ensures Even(g, at, counter, open + {n}, own[n := Begin(g, n, own[n])], got, wait)
  {
    hide Waits, Least, Holds, Begin;
    HeldOne(g, counter, open, own, got, n);
    Unspread(g, at, own, got, wait, n, Begin(g, n, own[n]));
    var own', open' := own[n := Begin(g, n, own[n])], open + {n};
    forall m | 0 <= m < |g.ups| ensures Holds(g, counter[m], m in open', own'[m], got[m], m) {
      assert Holds(g, counter[m], m in open, own[m], got[m], m);
    }
  }

  lemma HeldOne(g: Net, counter: seq<int>, open: set<nat>, own: seq<real>, got: seq<real>, n: nat)
    requires Set(g) && Owned(g, counter, open, own, got) && n < |g.ups| && counter[n] == 0 && n !in open && g.min[n] > 0
    ensures g.min[n] < |g.cost| == |g.acc| && 0.0 <= Begin(g, n, own[n])
            && Holds(g, counter[n], true, Begin(g, n, own[n]), got[n], n)
  {
    assert Holds(g, counter[n], n in open, own[n], got[n], n);
    assert 0.0 <= g.cost[g.min[n]] && 0.0 <= g.acc[g.min[n] - 1];
  }

  /** One edge into n: its wait time, and what is left for its producer. */
  ghost predicate Passing(g: Net, at: seq<nat>, own: seq<real>, got: seq<real>, wait: seq<seq<real>>, n: nat,
                          own': seq<real>, got': seq<real>, wait': seq<seq<real>>) {
    && InRange(g.ups, at) && |own| == |got| == |g.ups| == |g.min| == |g.trunk| == |wait| && n < |g.ups|
       && at[n] < |g.ups[n]| == |wait[n]|
    && var up := g.ups[n][at[n]]; var p := up.producer;
    && p < |g.ups| && p != n && at[p] == 0 && own[p] == got[p] && 0 < g.min[n] <= |g.acc| && g.min[p] < |g.acc|
    && var left := Remaining(g, own[n], n, p); var pass := Passed(g, up.data, left);
    && 0.0 <= left
    && wait' == (if up.data then wait[n := wait[n][at[n] := Exposed(g, left)]] else wait)
    && var drops := !g.trunk[p] && (own[p] < 0.0 || own[p] > pass);
    && own' == (if drops then own[p := pass] else own) && got' == (if drops then got[p := pass] else got)
  }

  lemma PassWaits(g: Net, at: seq<nat>, own: seq<real>, got: seq<real>, wait: seq<seq<real>>, n: nat, own': seq<real>,
                  got': seq<real>, wait': seq<seq<real>>)
    requires Waits(g, at, own, wait) && Passing(g, at, own, got, wait, n, own', got', wait') && 0.0 <= g.most
    ensures Waits(g, at[n := at[n] + 1], own', wait') && wait[n][at[n]] < 0.0
  {
    var at' := at[n := at[n] + 1];
    assert Waited(g, at[n], own[n], wait[n][at[n]], n, at[n]);
    forall m, i | 0 <= m < |g.ups| && 0 <= i < |g.ups[m]| ensures Waited(g, at'[m], own'[m], wait'[m][i], m, i) {
      assert Waited(g, at[m], own[m], wait[m][i], m, i);
    }
  }

  lemma PassLeaves(g: Net, at: seq<nat>, own: seq<real>, got: seq<real>, wait: seq<seq<real>>, n: nat,
                   own': seq<real>, got': seq<real>, wait': seq<seq<real>>, c: nat, i: nat)
    requires Least(g, at, own, got) && Passing(g, at, own, got, wait, n, own', got', wait') && 0.0 <= g.most
    requires c < |g.ups| && i < at[n := at[n] + 1][c]
    ensures Leaves(g, own', got', c, i)
  {
    if i < at[c] { assert Leaves(g, own, got, c, i); }
  }

  lemma PassGiven(g: Net, at: seq<nat>, own: seq<real>, got: seq<real>, wait: seq<seq<real>>, n: nat, own': seq<real>,
                  got': seq<real>, wait': seq<seq<real>>, p: nat)
    requires Least(g, at, own, got) && Passing(g, at, own, got, wait, n, own', got', wait') && 0.0 <= g.most
             && p < |g.ups|
    ensures Given(g, at[n := at[n] + 1], own', got', p)
  {
    var at' := at[n := at[n] + 1];
    if got'[p] != got[p] {
      assert g.ups[n][at[n]].producer == p && at[n] < at'[n] && Exactly(g, own', got', n, at[n]);
    } else if got[p] != -1.0 {
      assert Given(g, at, own, got, p);
      var c, i :| 0 <= c < |g.ups| && 0 <= i < at[c] && g.ups[c][i].producer == p && Exactly(g, own, got, c, i);
      assert c != g.ups[n][at[n]].producer && i < at'[c] && Exactly(g, own', got', c, i);
    }
  }

  lemma PassLeast(g: Net, at: seq<nat>, own: seq<real>, got: seq<real>, wait: seq<seq<real>>, n: nat, own': seq<real>,
                  got': seq<real>, wait': seq<seq<real>>)
    requires Least(g, at, own, got) && Passing(g, at, own, got, wait, n, own', got', wait') && 0.0 <= g.most
    ensures Least(g, at[n := at[n] + 1], own', got')
  {
    hide Leaves, Given;
    var at' := at[n := at[n] + 1];
    forall c, i | 0 <= c < |g.ups| && 0 <= i < at'[c]
      ensures Leaves(g, own', got', c, i)
    {
      PassLeaves(g, at, own, got, wait, n, own', got', wait', c, i);
    }
    forall p | 0 <= p < |g.ups|
      ensures Given(g, at', own', got', p)
    {
      PassGiven(g, at, own, got, wait, n, own', got', wait', p);
    }
  }

  lemma PassOwned(g: Net, at: seq<nat>, counter: seq<int>, open: set<nat>, own: seq<real>, got: seq<real>,
                  wait: seq<seq<real>>, n: nat, own': seq<real>, got': seq<real>, wait': seq<seq<real>>)
    requires Owned(g, counter, open, own, got) && Passing(g, at, own, got, wait, n, own', got', wait') && 0.0 <= g.most
    requires var p := g.ups[n][at[n]].producer; counter[p] > 0 && p !in open
    ensures var p := g.ups[n][at[n]].producer; Owned(g, counter[p := counter[p] - 1], open, own', got')
  {
    var p := g.ups[n][at[n]].producer;
    var counter' := counter[p := counter[p] - 1];
    forall m | 0 <= m < |g.ups| ensures Holds(g, counter'[m], m in open, own'[m], got'[m], m) {
      assert Holds(g, counter[m], m in open, own[m], got[m], m);
    }
  }

  ghost predicate Kept(own: seq<real>, own': seq<real>, open: set<nat>) {
    |own'| == |own| && forall m :: m in open && m < |own| ==> own'[m] == own[m]
  }

  /** n passes the rest of the trunk cost to its next producer. */
  method Pass(g: Net, own: seq<real>, ghost got: seq<real>, counter: seq<int>, wait: seq<seq<real>>, n: nat, i: nat,
              ghost at: seq<nat>, ghost open: set<nat>)
    returns (ok: bool, own': seq<real>, ghost got': seq<real>, counter': seq<int>, wait': seq<seq<real>>,
        ghost at': seq<nat>)
    requires Set(g) && Spreading(g.ups, at, counter, open) && n < |g.ups| && n in open && n < |at|
             && at[n] == i < |g.ups[n]| && n < |own| && 0.0 <= own[n]
    requires Even(g, at, counter, open, own, got, wait)
    ensures ok && Spreading(g.ups, at', counter', open) && Even(g, at', counter', open, own', got', wait')
            && Kept(own, own', open)
    ensures var p := g.ups[n][i].producer;
            && p < |counter| && n < |g.min| && p < |g.min| && |at| == |counter| && n < |counter| && counter[n] == 0
               && counter[p] > 0 && p != n && p !in open
            && g.min[p] < g.min[n] && at' == at[n := i + 1] && counter' == counter[p := counter[p] - 1]
  {
    hide Spreading, Set, Waits, Least, Owned, Remaining, Placed;
    Facts(g, own, got, counter, at, open, wait);
    Spreads(g.ups, g.min, at, counter, open, n);
    Fresh(g.ups, g.min, at, counter, open, n);
    OpenZero(g.ups, at, counter, open, n);
    var up := g.ups[n][i];
    var p := up.producer;
    NotStarted(g, counter, open, own, got, p);
    RemainingSure(g, own[n], n, p);
    ok, own', got', wait' := true, own, got, wait;
    var left := Remaining(g, own[n], n, p);
    if up.data {
      ok := wait[n][i] < 0.0;
      if left >= g.most {
        wait' := wait[n := wait[n][i := 0.0]];
        left := left - g.most;
      } else {
        wait' := wait[n := wait[n][i := g.most - left]];
        left := 0.0;
      }
    }
    if !g.trunk[p] && (own[p] < 0.0 || own[p] > left) { own', got' := own[p := left], got[p := left]; }
    PassWaits(g, at, own, got, wait, n, own', got', wait');
    PassLeast(g, at, own, got, wait, n, own', got', wait');
    PassOwned(g, at, counter, open, own, got, wait, n, own', got', wait');
    counter', at' := counter[p := counter[p] - 1], at[n := i + 1];
  }

  lemma NotStarted(g: Net, counter: seq<int>, open: set<nat>, own: seq<real>, got: seq<real>, p: nat)
    requires Owned(g, counter, open, own, got) && p < |g.ups| && counter[p] > 0 && p !in open
    ensures own[p] == got[p]
  {
    assert Holds(g, counter[p], p in open, own[p], got[p], p);
  }

  lemma Facts(g: Net, own: seq<real>, got: seq<real>, counter: seq<int>, at: seq<nat>, open: set<nat>,
              wait: seq<seq<real>>)
    requires Set(g) && Spreading(g.ups, at, counter, open) && Even(g, at, counter, open, own, got, wait)
    ensures Layered(g.ups, g.min) && |g.min| == |g.trunk| == |g.ups| == |at| == |counter| == |own| == |got| == |wait|
            && 0.0 <= g.most && InRange(g.ups, at)
    ensures (forall n :: 0 <= n < |g.ups| ==> |wait[n]| == |g.ups[n]| && g.min[n] < |g.cost|) && |g.acc| == |g.cost|
  {
  }

  lemma Ends(g: Net, at: seq<nat>, counter: seq<int>, open: set<nat>, own: seq<real>, got: seq<real>,
             wait: seq<seq<real>>, n: nat)
    requires Even(g, at, counter, open + {n}, own, got, wait) && n < |g.ups| && n < |counter|
    ensures Even(g, at, counter[n := -1], open, own, got, wait)
  {
    hide Waits, Least;
    var counter' := counter[n := -1];
    forall m | 0 <= m < |g.ups| ensures Holds(g, counter'[m], m in open, own[m], got[m], m) {
      assert Holds(g, counter[m], m in open + {n}, own[m], got[m], m);
    }
  }

  /** SbpNode::SpreadAvailWaitTime. ok says that no wait time was assigned twice. */
  method SpreadAvailWaitTime(g: Net, own: seq<real>, ghost got: seq<real>, counter: seq<int>, wait: seq<seq<real>>,
                             n: nat, ghost at: seq<nat>, ghost open: set<nat>)
    returns (ok: bool, own': seq<real>, ghost got': seq<real>, counter': seq<int>, wait': seq<seq<real>>,
        ghost at': seq<nat>)
    requires Set(g) && Spreading(g.ups, at, counter, open) && n < |g.ups| && n !in open
             && Even(g, at, counter, open, own, got, wait)
    ensures ok && Spreading(g.ups, at', counter', open) && Even(g, at', counter', open, own', got', wait')
    ensures Goes(g.min, at, counter, at', counter', open) && !Ready(g.min, counter', n) && Kept(own, own', open)
    decreases if n < |g.min| then g.min[n] else 0
  {
    hide Spreading, Set, Even, Goes, Begin;
    Facts(g, own, got, counter, at, open, wait);
    ok, own', got', counter', wait', at' := true, own, got, counter, wait, at;
    Stands(g.min, at, counter, open);
    if g.min[n] <= 0 || counter[n] != 0 { return; }
    Starts(g.ups, at, counter, open, n);
    Begins(g, at, counter, open, own, got, wait, n);
    ghost var inside := open + {n};
    own' := own[n := Begin(g, n, own[n])];
    for i := 0 to |g.ups[n]|
      invariant ok && Spreading(g.ups, at', counter', inside) && Even(g, at', counter', inside, own', got', wait')
      invariant |at'| == |counter'| == |own'| == |g.ups| && at'[n] == i && Goes(g.min, at, counter, at', counter', open)
      invariant Kept(own, own', open) && 0.0 <= own'[n]
    {
      ghost var b4, a4 := counter', at';
      var fine;
      fine, own', got', counter', wait', at' := Pass(g, own', got', counter', wait', n, i, at', inside);
      ok := ok && fine;
      ghost var b5, a5 := counter', at';
      var p := g.ups[n][i].producer;
      fine, own', got', counter', wait', at' := SpreadAvailWaitTime(g, own', got', counter', wait', p, at', inside);
      ok := ok && fine;
      Went(g.min, a4, b4, a5, b5, at', counter', open, n, p);
      GoesOn(g.min, at, counter, a4, b4, at', counter', open);
      Facts(g, own', got', counter', at', inside, wait');
    }
    Finishes(g.ups, at', counter', open, n);
    Done(g.min, at, counter, at', counter', open, n);
    Ends(g, at', counter', open, own', got', wait', n);
    counter' := counter'[n := -1];
  }

  /** The producer has one consumer less to wait for, and has started if that was the last. */
  lemma Went(min: seq<nat>, at: seq<nat>, counter: seq<int>, at': seq<nat>, counter': seq<int>, at'': seq<nat>,
             counter'': seq<int>, open: set<nat>, n: nat, p: nat)
    requires n < |at| == |counter| && p < |counter| && n !in open && counter[n] == 0 && counter[p] > 0 && p != n
    requires at' == at[n := at[n] + 1] && counter' == counter[p := counter[p] - 1]
    requires Goes(min, at', counter', at'', counter'', open + {n}) && !Ready(min, counter'', p) && n < |min|
             && min[n] > 0
    ensures Goes(min, at, counter, at'', counter'', open) && |at''| == |at| && at''[n] == at[n] + 1
  {
  }

  /** Every edge into a node gets its wait time exactly once: what the trunk cost left by all the
      consumers after it does not hide. */
  method SpreadWaitTimes(g: Net, ghost top: nat)
    returns (ok: bool, wait: seq<seq<real>>, own: seq<real>, ghost got: seq<real>)
    requires Set(g) && forall n :: 0 <= n < |g.min| ==> g.min[n] <= top
    ensures ok && Waits(g, Links(g.ups), own, wait) && Least(g, Links(g.ups), own, got)
    ensures forall n :: 0 <= n < |g.ups| && g.ups[n] != [] ==> Holds(g, -1, false, own[n], got[n], n)
  {
    hide Set, Even, Goes, Ready, Waits, Least, Owned, Holds;
    SetSizes(g);
    var counter := CountConsumers(g.ups, g.min);
    ghost var all := NoLinks(g.ups);
    own, wait, got := seq(|g.ups|, _ => -1.0), Unassigned(g.ups), seq(|g.ups|, _ => -1.0);
    NoneAssigned(g, all, counter, own, got, wait);
    ok := true;
    for n := 0 to |g.ups|
      invariant ok && Spreading(g.ups, all, counter, {}) && Even(g, all, counter, {}, own, got, wait)
      invariant forall m :: 0 <= m < n ==> !Ready(g.min, counter, m)
    {
      hide Spreading;
      ghost var b4, a4 := counter, all;
      var fine;
      fine, own, got, counter, wait, all := SpreadAvailWaitTime(g, own, got, counter, wait, n, all, {});
      ok := ok && fine;
      forall m | 0 <= m < n ensures !Ready(g.min, counter, m) { NoneNew(g.min, a4, b4, all, counter, {}, m); }
    }
    forall m ensures !Ready(g.min, counter, m) { ReadyIn(g.min, counter, m); }
    forall n | 0 <= n < |g.ups|
      ensures |all| == |g.ups| && all[n] == |g.ups[n]|
    {
      AllSpread(g.ups, g.min, all, counter, top, n);
    }
    IsLinks(g.ups, all);
    Apart(g, all, counter, own, got, wait);
    forall n | 0 <= n < |g.ups| && g.ups[n] != [] ensures Holds(g, -1, false, own[n], got[n], n) {
      assert Placed(g.ups, all, counter, {}, n);
      assert Holds(g, counter[n], false, own[n], got[n], n);
    }
  }

  lemma Apart(g: Net, at: seq<nat>, counter: seq<int>, own: seq<real>, got: seq<real>, wait: seq<seq<real>>)
    requires Even(g, at, counter, {}, own, got, wait)
    ensures Waits(g, at, own, wait) && Least(g, at, own, got) && |counter| == |own| == |got| == |g.ups|
    ensures forall n :: 0 <= n < |g.ups| ==> Holds(g, counter[n], false, own[n], got[n], n)
  {
    forall n | 0 <= n < |g.ups|
      ensures Holds(g, counter[n], false, own[n], got[n], n)
    {
      assert Holds(g, counter[n], n in {}, own[n], got[n], n);
    }
  }

  lemma SetSizes(g: Net)
    requires Set(g)
    ensures Layered(g.ups, g.min) && |g.min| == |g.ups|
  {
  }

  function Unassigned(ups: seq<seq<Up>>): (wait: seq<seq<real>>)
    ensures |wait| == |ups| && forall n :: 0 <= n < |ups| ==>
            |wait[n]| == |ups[n]| && forall i :: 0 <= i < |ups[n]| ==> wait[n][i] == -1.0
  {
    seq(|ups|, n requires 0 <= n < |ups| => seq(|ups[n]|, _ => -1.0))
  }

  lemma NoneAssigned(g: Net, at: seq<nat>, counter: seq<int>, own: seq<real>, got: seq<real>, wait: seq<seq<real>>)
    requires InRange(g.ups, at) && |counter| == |g.ups|
             && (forall n :: 0 <= n < |g.ups| ==> at[n] == 0 && counter[n] >= 0) && wait == Unassigned(g.ups)
    requires own == got && |own| == |g.ups| && forall n :: 0 <= n < |own| ==> own[n] == -1.0
    ensures Even(g, at, counter, {}, own, got, wait)
  {
    forall n, i | 0 <= n < |g.ups| && 0 <= i < |g.ups[n]| ensures Waited(g, at[n], own[n], wait[n][i], n, i) {}
    forall n | 0 <= n < |g.ups| ensures Given(g, at, own, got, n) && Holds(g, counter[n], n in {}, own[n], got[n], n) {}
  }
}
