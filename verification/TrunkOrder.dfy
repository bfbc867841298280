/** The counters behind the backward spreads of FindTrunk: a node spreads to its producers once
    all its consumers have spread to it. */
module TrunkOrder {

  /** A producer of a node: along an edge of the graph, or a control edge. */
  datatype Up = Up(producer: nat, data: bool)

  /** edges_in_ and control edges of every node, and its min layer; producers come earlier. */
  ghost predicate Layered(ups: seq<seq<Up>>, min: seq<nat>) {
    && |min| == |ups|
    && forall c, i :: 0 <= c < |ups| && 0 <= i < |ups[c]| ==>
       ups[c][i].producer < |ups| && min[ups[c][i].producer] < min[c]
  }

  ghost function CountTo(us: seq<Up>, n: nat): nat {
    if us == [] then 0 else (if us[0].producer == n then 1 else 0) + CountTo(us[1..], n)
  }

  /** at says how many producers each node has spread to; what is pending for n are the links of
      the first k nodes that have not been spread yet. */
  ghost function Pending(ups: seq<seq<Up>>, at: seq<nat>, n: nat, k: nat): nat
    requires k <= |ups| == |at| && forall c :: 0 <= c < |at| ==> at[c] <= |ups[c]|
  {
    if k == 0 then 0 else Pending(ups, at, n, k - 1) + CountTo(ups[k - 1][at[k - 1]..], n)
  }

  lemma {:induction false} PendingStep(ups: seq<seq<Up>>, at: seq<nat>, c: nat, n: nat, k: nat)
    requires k <= |ups| == |at| && (forall c :: 0 <= c < |at| ==> at[c] <= |ups[c]|) && c < |ups| && at[c] < |ups[c]|
    ensures Pending(ups, at, n, k) == Pending(ups, at[c := at[c] + 1], n, k) + if c < k
            && ups[c][at[c]].producer == n then 1 else 0
    decreases k
  {
    if k > 0 {
      PendingStep(ups, at, c, n, k - 1);
      if k - 1 == c { assert ups[c][at[c]..][1..] == ups[c][at[c] + 1..]; }
    }
  }

  lemma {:induction false} CountToIn(us: seq<Up>, n: nat, i: nat)
    requires i < |us| && us[i].producer == n
    ensures CountTo(us, n) > 0
    decreases |us|
  {
    if i > 0 { CountToIn(us[1..], n, i - 1); }
  }

  lemma {:induction false} CountToNone(us: seq<Up>, n: nat)
    requires forall i :: 0 <= i < |us| ==> us[i].producer != n
    ensures CountTo(us, n) == 0
    decreases |us|
  {
    if us != [] { CountToNone(us[1..], n); }
  }

  /** A link that has not been spread is pending. */
  lemma {:induction false} PendingOne(ups: seq<seq<Up>>, at: seq<nat>, c: nat, i: nat, k: nat)
    requires k <= |ups| == |at| && (forall c :: 0 <= c < |at| ==> at[c] <= |ups[c]|) && c < k && at[c] <= i < |ups[c]|
    ensures Pending(ups, at, ups[c][i].producer, k) > 0
    decreases k
  {
    if k - 1 == c {
      assert ups[c][at[c]..][i - at[c]] == ups[c][i];
      CountToIn(ups[c][at[c]..], ups[c][i].producer, i - at[c]);
    } else {
      PendingOne(ups, at, c, i, k - 1);
    }
  }

  /** Nothing is pending for n once everybody above it has spread. */
  lemma {:induction false} PendingNone(ups: seq<seq<Up>>, at: seq<nat>, min: seq<nat>, n: nat, k: nat)
    requires Layered(ups, min) && k <= |ups| == |at| && (forall c :: 0 <= c < |at| ==> at[c] <= |ups[c]|) && n < |ups|
    requires forall c :: 0 <= c < |ups| && min[c] > min[n] ==> at[c] == |ups[c]|
    ensures Pending(ups, at, n, k) == 0
    decreases k
  {
    if k > 0 {
      PendingNone(ups, at, min, n, k - 1);
      var us := ups[k - 1][at[k - 1]..];
      forall i | 0 <= i < |us| ensures us[i].producer != n { assert us[i] == ups[k - 1][at[k - 1] + i]; }
      CountToNone(us, n);
    }
  }

  // ----- the state of a spread -----

  ghost predicate InRange(ups: seq<seq<Up>>, at: seq<nat>) {
    |at| == |ups| && forall c :: 0 <= c < |at| ==> at[c] <= |ups[c]|
  }

  ghost function Left(ups: seq<seq<Up>>, at: seq<nat>, n: nat): nat
    requires InRange(ups, at)
  {
    Pending(ups, at, n, |ups|)
  }

  /** A node is finished, in the middle of spreading, or has not started and counts what is
      pending for it. */
  ghost predicate Placed(ups: seq<seq<Up>>, at: seq<nat>, counter: seq<int>, open: set<nat>, n: nat)
    requires InRange(ups, at) && |counter| == |ups| && n < |ups|
  {
    if counter[n] == -1 then n !in open && at[n] == |ups[n]| && Left(ups, at, n) == 0
    else if n in open then counter[n] == 0 && Left(ups, at, n) == 0
    else at[n] == 0 && counter[n] == Left(ups, at, n)
  }

  ghost predicate Spreading(ups: seq<seq<Up>>, at: seq<nat>, counter: seq<int>, open: set<nat>) {
    && InRange(ups, at) && |counter| == |ups| && forall n :: 0 <= n < |ups| ==> Placed(ups, at, counter, open, n)
  }

  /** It could start now. */
  predicate Ready(min: seq<nat>, counter: seq<int>, n: nat) {
    n < |min| && n < |counter| && min[n] > 0 && counter[n] == 0
  }

  /** Nobody has come to wait; who has finished stays so, and open nodes stand still. */
  ghost predicate Goes(min: seq<nat>, at: seq<nat>, counter: seq<int>, at': seq<nat>, counter': seq<int>,
                       open: set<nat>) {
    && |at'| == |at| == |counter'| == |counter|
    && (forall m :: 0 <= m < |counter| && counter[m] == -1 ==> counter'[m] == -1)
    && (forall m :: 0 <= m < |counter| && (m in open || counter[m] == -1) ==> at'[m] == at[m])
    && (forall m :: Ready(min, counter', m) && m !in open ==> Ready(min, counter, m))
  }

  lemma GoesOn(min: seq<nat>, a: seq<nat>, c: seq<int>, a': seq<nat>, c': seq<int>, a'': seq<nat>, c'': seq<int>,
               open: set<nat>)
    requires Goes(min, a, c, a', c', open) && Goes(min, a', c', a'', c'', open)
    ensures Goes(min, a, c, a'', c'', open)
  {
  }

  /** n starts. */
  lemma Starts(ups: seq<seq<Up>>, at: seq<nat>, counter: seq<int>, open: set<nat>, n: nat)
    requires Spreading(ups, at, counter, open) && n < |ups| && counter[n] == 0 && n !in open
    ensures Spreading(ups, at, counter, open + {n}) && at[n] == 0
  {
    assert Placed(ups, at, counter, open, n);
    forall m | 0 <= m < |ups|
      ensures Placed(ups, at, counter, open + {n}, m)
    {
      assert Placed(ups, at, counter, open, m);
    }
  }

  /** n spreads to its next producer, which was waiting for it. */
  lemma Spreads(ups: seq<seq<Up>>, min: seq<nat>, at: seq<nat>, counter: seq<int>, open: set<nat>, n: nat)
    requires Layered(ups, min) && Spreading(ups, at, counter, open) && n in open && n < |ups| && at[n] < |ups[n]|
    ensures var p := ups[n][at[n]].producer;
            && p < |ups| && p !in open && counter[p] > 0 && min[p] < min[n]
            && Spreading(ups, at[n := at[n] + 1], counter[p := counter[p] - 1], open)
  {
    var p := ups[n][at[n]].producer;
    PendingOne(ups, at, n, at[n], |ups|);
    assert Placed(ups, at, counter, open, p);
    var at', counter' := at[n := at[n] + 1], counter[p := counter[p] - 1];
    forall m | 0 <= m < |ups| ensures Placed(ups, at', counter', open, m) {
      assert Placed(ups, at, counter, open, m);
      PendingStep(ups, at, n, m, |ups|);
      assert Placed(ups, at, counter, open, n);
    }
  }

  /** n is done. */
  lemma Finishes(ups: seq<seq<Up>>, at: seq<nat>, counter: seq<int>, open: set<nat>, n: nat)
    requires Spreading(ups, at, counter, open + {n}) && n !in open && n < |ups| && at[n] == |ups[n]|
    ensures counter[n] == 0 && Spreading(ups, at, counter[n := -1], open)
  {
    assert Placed(ups, at, counter, open + {n}, n);
    var counter' := counter[n := -1];
    forall m | 0 <= m < |ups|
      ensures Placed(ups, at, counter', open, m)
    {
      assert Placed(ups, at, counter, open + {n}, m);
    }
  }

  /** When nobody can start, everybody has finished: every link has been spread. */
  lemma {:induction false} AllSpread(ups: seq<seq<Up>>, min: seq<nat>, at: seq<nat>, counter: seq<int>, top: nat,
                                     n: nat)
    requires Layered(ups, min) && Spreading(ups, at, counter, {}) && n < |ups|
             && (forall m :: 0 <= m < |min| ==> min[m] <= top)
    requires forall m :: !Ready(min, counter, m)
    ensures at[n] == |ups[n]|
    decreases top - min[n]
  {
    forall c | 0 <= c < |ups| && min[c] > min[n] ensures at[c] == |ups[c]| { AllSpread(ups, min, at, counter, top, c); }
    PendingNone(ups, at, min, n, |ups|);
    assert Placed(ups, at, counter, {}, n) && !Ready(min, counter, n);
    NoProducers(ups, min, n);
  }

  lemma NoProducers(ups: seq<seq<Up>>, min: seq<nat>, n: nat)
    requires Layered(ups, min) && n < |ups|
    ensures min[n] > 0 || ups[n] == []
  {
    if ups[n] != [] { assert min[ups[n][0].producer] < min[n]; }
  }

  /** Nothing has been spread yet. */
  ghost function NoLinks(ups: seq<seq<Up>>): (at: seq<nat>)
    ensures |at| == |ups| && forall n :: 0 <= n < |ups| ==> at[n] == 0
  {
    seq(|ups|, _ => 0)
  }

  /** Everything has been spread. */
  ghost function Links(ups: seq<seq<Up>>): (at: seq<nat>)
    ensures |at| == |ups| && forall n :: 0 <= n < |ups| ==> at[n] == |ups[n]|
  {
    seq(|ups|, n requires 0 <= n < |ups| => |ups[n]|)
  }

  lemma IsLinks(ups: seq<seq<Up>>, at: seq<nat>)
    requires |at| == |ups| && forall n :: 0 <= n < |ups| ==> at[n] == |ups[n]|
    ensures at == Links(ups)
  {
  }

  /** RaiseConsumerNum over all nodes: the counters before the spread. */
  method CountConsumers(ups: seq<seq<Up>>, min: seq<nat>) returns (counter: seq<int>)
    requires Layered(ups, min)
    ensures Spreading(ups, NoLinks(ups), counter, {}) && forall n :: 0 <= n < |ups| ==> counter[n] >= 0
  {
    counter := seq(|ups|, _ => 0);
    ghost var at := NoLinks(ups);
    for c := 0 to |ups|
      invariant |counter| == |ups| && forall n :: 0 <= n < |ups| ==> counter[n] == Pending(ups, at, n, c)
    {
      ghost var before := counter;
      if min[c] > 0 {
        var us := ups[c];
        for i := 0 to |us|
          invariant |counter| == |ups| && forall n :: 0 <= n < |ups| ==>
                    counter[n] + CountTo(us[i..], n) == before[n] + CountTo(us, n)
        {
          hide Layered, Pending;
          ProducerIn(ups, min, c, i);
          assert us[i..][1..] == us[i + 1..];
          counter := counter[us[i].producer := counter[us[i].producer] + 1];
        }
      } else {
        NoProducers(ups, min, c);
      }
      assert ups[c][0..] == ups[c];
    }
  }

  lemma ProducerIn(ups: seq<seq<Up>>, min: seq<nat>, c: nat, i: nat)
    requires Layered(ups, min) && c < |ups| && i < |ups[c]|
    ensures ups[c][i].producer < |ups|
  {
  }
}
