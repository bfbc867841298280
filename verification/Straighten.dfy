/** StraightenOpNodes: the order of execution. At every moment the first ready operator in the
    deciding order goes next, so the order does not depend on how the hash sets are walked. */
module Straighten {
  import opened Sums
  import opened OpLayers
  import opened OpMemory

  // ----- the deciding order -----

  datatype Topo = Topo(name: string, tributaryLayer: int, minLayer: int, memoryIncrement: int, exceedTime: int)

  const DIFF_ASCEND_DESCEND := 100

  /** TopoStruct::GetDecidingParameter. */
  function DecidingParameter(t: Topo, so: int): int {
    var sign, kind := if so >= DIFF_ASCEND_DESCEND then -1 else 1, if so >= DIFF_ASCEND_DESCEND
        then so - DIFF_ASCEND_DESCEND else so;
    if kind == 0 then sign * t.tributaryLayer
    else if kind == 2 then sign * t.minLayer
    else if kind == 3 then sign * t.memoryIncrement
    else if kind == 4 then sign * t.exceedTime
    else 0
  }

  /** std::string's order. */
  predicate NameLess(a: string, b: string) {
    b != [] && (a == [] || a[0] < b[0] || (a[0] == b[0] && NameLess(a[1..], b[1..])))
  }

  /** comp: the first parameter that differs decides, and the name if none does. */
  predicate Comp(params: seq<int>, a: Topo, b: Topo) {
    if params == [] then NameLess(a.name, b.name)
    else if DecidingParameter(a, params[0]) != DecidingParameter(b, params[0])
        then DecidingParameter(a, params[0]) < DecidingParameter(b, params[0])
    else Comp(params[1..], a, b)
  }

  lemma {:induction false} NamesOrdered(a: string, b: string)
    ensures !(NameLess(a, b) && NameLess(b, a)) && (a == b || NameLess(a, b) || NameLess(b, a))
    decreases |a|
  {
    if a != [] && b != [] {
      NamesOrdered(a[1..], b[1..]);
      assert a == [a[0]] + a[1..] && b == [b[0]] + b[1..];
    }
  }

  lemma {:induction false} NamesTransitive(a: string, b: string, c: string)
    requires NameLess(a, b) && NameLess(b, c)
    ensures NameLess(a, c)
    decreases |a|
  {
    if a != [] && a[0] == b[0] && b[0] == c[0] { NamesTransitive(a[1..], b[1..], c[1..]); }
  }

  /** With distinct names the deciding order is total: nobody is lost in the waiting set. */
  lemma {:induction false} CompOrdered(params: seq<int>, a: Topo, b: Topo)
    ensures !(Comp(params, a, b) && Comp(params, b, a))
            && (a.name == b.name || Comp(params, a, b) || Comp(params, b, a))
    decreases |params|
  {
    hide DecidingParameter;
    if params == [] { NamesOrdered(a.name, b.name); } else { CompOrdered(params[1..], a, b); }
  }

  lemma {:induction false} CompTransitive(params: seq<int>, a: Topo, b: Topo, c: Topo)
    requires Comp(params, a, b) && Comp(params, b, c)
    ensures Comp(params, a, c)
    decreases |params|
  {
    hide DecidingParameter;
    if params == [] {
      NamesTransitive(a.name, b.name, c.name);
    } else if Comp(params[1..], a, b) && Comp(params[1..], b, c) {
      CompTransitive(params[1..], a, b, c);
    }
  }

  // ----- what the order means -----

  /** The operators with their names, layers and so on. */
  datatype Job = Job(g: Net, topo: seq<Topo>, params: seq<int>)

  ghost predicate Set(j: Job, level: seq<nat>) {
    && Acyclic(j.g, level) && |j.topo| == |j.g.ins|
    && forall a, b :: 0 <= a < b < |j.topo| ==> j.topo[a].name != j.topo[b].name
  }

  predicate Less(j: Job, a: nat, b: nat) { a < |j.topo| && b < |j.topo| && Comp(j.params, j.topo[a], j.topo[b]) }

  ghost predicate Operator(j: Job, i: nat) { i < |j.g.ins| }

  /** Everything i waits for has run. */
  ghost predicate Ready(j: Job, done: set<nat>, i: nat) { i < |j.g.ins| && i !in done && j.g.ins[i] <= done }

  /** At every position the least of the ready operators runs. */
  ghost predicate Straight(j: Job, order: seq<nat>) {
    forall k :: 0 <= k < |order| ==> Next(j, Elems(order[..k]), order[k])
  }

  ghost predicate Next(j: Job, done: set<nat>, i: nat) {
    Ready(j, done, i) && forall m :: Ready(j, done, m) && m != i ==> Less(j, i, m)
  }

  /** There is only one such order of a given length. */
  lemma {:induction false} StraightUnique(j: Job, p: seq<nat>, q: seq<nat>, k: nat)
    requires Straight(j, p) && Straight(j, q) && k <= |p| && k <= |q|
    ensures p[..k] == q[..k]
    decreases k
  {
    hide Comp;
    if k > 0 {
      StraightUnique(j, p, q, k - 1);
      var a, b := p[k - 1], q[k - 1];
      assert Next(j, Elems(p[..k - 1]), a) && Next(j, Elems(q[..k - 1]), b);
      if a != b { CompOrdered(j.params, j.topo[a], j.topo[b]); }
      assert p[..k] == p[..k - 1] + [a] && q[..k] == q[..k - 1] + [b];
    }
  }

  /** Every operator once, and after all it waits for. */
  lemma StraightRespects(j: Job, order: seq<nat>)
    requires Straight(j, order)
    ensures Distinct(order)
    ensures forall k, i :: 0 <= k < |order| && order[k] < |j.g.ins| && i in j.g.ins[order[k]] ==> i in order[..k]
  {
    hide Less;
    forall k | 0 <= k < |order|
      ensures Ready(j, Elems(order[..k]), order[k])
    {
      assert Next(j, Elems(order[..k]), order[k]);
    }
    forall p, q | 0 <= p < q < |order|
      ensures order[p] != order[q]
    {
      assert order[p] == order[..q][p] && order[p] in Elems(order[..q]);
    }
  }

  // ----- the waiting set -----

  ghost predicate Sorted(j: Job, w: seq<nat>) {
    (forall p :: 0 <= p < |w| ==> w[p] < |j.topo|) && forall p, q :: 0 <= p < q < |w| ==> Less(j, w[p], w[q])
  }

  /** wait: into its place in the deciding order. */
  method Insert(j: Job, w: seq<nat>, i: nat, ghost level: seq<nat>) returns (w': seq<nat>)
    requires Set(j, level) && Sorted(j, w) && i < |j.topo| && i !in w
    ensures Sorted(j, w') && Elems(w') == Elems(w) + {i}
  {
    hide Less, Acyclic;
    var p := 0;
    while p < |w| && Less(j, w[p], i)
      invariant p <= |w| && forall q :: 0 <= q < p ==> Less(j, w[q], i)
    {
      p := p + 1;
    }
    w' := w[..p] + [i] + w[p..];
    InsertedAt(j, w, i, p, w', level);
    assert w == w[..p] + w[p..];
  }

  lemma LessTotal(j: Job, a: nat, b: nat, level: seq<nat>)
    requires Set(j, level) && a < |j.topo| && b < |j.topo| && a != b
    ensures Less(j, a, b) != Less(j, b, a)
  {
    hide Comp, Acyclic;
    CompOrdered(j.params, j.topo[a], j.topo[b]);
    assert j.topo[a].name != j.topo[b].name;
  }

  lemma LessTransitive(j: Job, a: nat, b: nat, c: nat)
    requires Less(j, a, b) && Less(j, b, c)
    ensures Less(j, a, c)
  {
    hide Comp;
    CompTransitive(j.params, j.topo[a], j.topo[b], j.topo[c]);
  }

  lemma InsertedAt(j: Job, w: seq<nat>, i: nat, p: nat, w': seq<nat>, level: seq<nat>)
    requires Set(j, level) && Sorted(j, w) && i < |j.topo| && i !in w && p <= |w| && w' == w[..p] + [i] + w[p..]
    requires (forall q :: 0 <= q < p ==> Less(j, w[q], i)) && (p < |w| ==> !Less(j, w[p], i))
    ensures Sorted(j, w')
  {
    hide Less, Set;
    forall q | p <= q < |w| ensures Less(j, i, w[q]) {
      assert w[p] in w;
      LessTotal(j, i, w[p], level);
      if p < q { LessTransitive(j, i, w[p], w[q]); }
    }
  }

  // ----- running -----

  /** w holds the ready operators, and counter what the others still wait for. */
  ghost predicate Waiting(j: Job, done: set<nat>, counter: seq<int>, w: seq<nat>) {
    && Sorted(j, w) && |counter| == |j.g.ins| && (forall i :: i in w <==> Ready(j, done, i))
    && forall i :: 0 <= i < |counter| && i !in done ==> counter[i] == |j.g.ins[i] - done|
  }

  method Initialize(j: Job, ghost level: seq<nat>) returns (counter: seq<int>, w: seq<nat>)
    requires Set(j, level)
    ensures Waiting(j, {}, counter, w)
  {
    counter, w := [], [];
    for i := 0 to |j.g.ins|
      invariant |counter| == i && Sorted(j, w) && (forall k :: 0 <= k < i ==> counter[k] == |j.g.ins[k]|)
      invariant forall k :: k in w <==> 0 <= k < i && j.g.ins[k] == {}
    {
      hide Set, Sorted;
      SetSizes(j, level);
      var c := |j.g.ins[i]|;
      counter := counter + [c];
      if c == 0 {
        var w' := Insert(j, w, i, level);
        SameMembers(w, w', i);
        w := w';
      }
    }
    forall i: nat | i < |j.g.ins| ensures j.g.ins[i] - {} == j.g.ins[i] {}
  }

  lemma SetSizes(j: Job, level: seq<nat>)
    requires Set(j, level)
    ensures |j.topo| == |j.g.ins| == |j.g.outs| == |level|
  {
    hide Less;
  }

  lemma SameMembers(w: seq<nat>, w': seq<nat>, i: nat)
    requires Elems(w') == Elems(w) + {i}
    ensures forall k :: k in w' <==> k in w || k == i
  {
    forall k
      ensures k in w' <==> k in w || k == i
    {
      assert k in w' <==> k in Elems(w');
      assert k in w <==> k in Elems(w);
    }
  }

  /** While the outputs of f are being told: p are those told already. */
  ghost predicate Telling(j: Job, done: set<nat>, f: nat, p: set<nat>, counter: seq<int>, w: seq<nat>) {
    && Sorted(j, w) && |counter| == |j.g.ins|
    && (forall i :: i in w <==> (Ready(j, done, i) && i != f) || (i in p && Ready(j, done + {f}, i)))
    && forall i :: 0 <= i < |counter| && i !in done && i != f ==>
       counter[i] == if i in p then |j.g.ins[i] - (done + {f})| else |j.g.ins[i] - done|
  }

  /** finish_execution. */
  method Finish(j: Job, ghost done: set<nat>, f: nat, counter: seq<int>, w: seq<nat>, ghost level: seq<nat>)
    returns (counter': seq<int>, w': seq<nat>)
    requires Set(j, level) && Ready(j, done, f) && f < |j.g.outs| && Telling(j, done, f, {}, counter, w)
             && Closed(j, done)
    ensures Waiting(j, done + {f}, counter', w')
  {
    hide Set, Telling, Waiting, Ready;
    counter', w' := counter, w;
    var rest := j.g.outs[f];
    ghost var p: set<nat> := {};
    while rest != {}
      invariant rest + p == j.g.outs[f] && rest !! p && Telling(j, done, f, p, counter', w')
      decreases |rest|
    {
      var out :| out in rest;
      NotYet(j, done, f, out, level);
      Tell(j, done, f, p, counter', w', out, level);
      counter' := counter'[out := counter'[out] - 1];
      if counter'[out] == 0 {
        var more := Insert(j, w', out, level);
        SameMembers(w', more, out);
        Told(j, done, f, p, counter', w', more, out);
        w' := more;
      } else {
        Told(j, done, f, p, counter', w', w', out);
      }
      rest, p := rest - {out}, p + {out};
    }
    AllTold(j, done, f, counter', w', level);
  }

  /** What has run, ran after all it waited for. */
  ghost predicate Closed(j: Job, done: set<nat>) { forall i :: i in done ==> i < |j.g.ins| && j.g.ins[i] <= done }

  lemma NotYet(j: Job, done: set<nat>, f: nat, out: nat, level: seq<nat>)
    requires Set(j, level) && Ready(j, done, f) && f < |j.g.outs| && Closed(j, done) && out in j.g.outs[f]
    ensures out !in done
  {
    hide Less;
    NotBefore(j, done, f, out, level);
    assert InsHave(j.g, out, f);
  }

  /** What running f means for another operator. */
  lemma After(j: Job, done: set<nat>, f: nat, i: nat, level: seq<nat>)
    requires Set(j, level) && Ready(j, done, f) && i < |j.g.ins| && i !in done && i != f
    ensures f < |j.g.outs| && (|j.g.ins[i] - (done + {f})| == 0 <==> Ready(j, done + {f}, i))
    ensures if i in j.g.outs[f] then |j.g.ins[i] - done| == |j.g.ins[i] - (done + {f})| + 1 && !Ready(j, done, i)
            else j.g.ins[i] - done == j.g.ins[i] - (done + {f}) && (Ready(j, done + {f}, i) <==> Ready(j, done, i))
  {
    hide Less;
    var left := j.g.ins[i] - (done + {f});
    assert left == {} <==> j.g.ins[i] <= done + {f};
    assert (i in j.g.outs[f] ==> InsHave(j.g, i, f)) && (f in j.g.ins[i] ==> i in j.g.outs[f]);
    if i in j.g.outs[f] { assert j.g.ins[i] - done == left + {f}; }
  }

  lemma NotBefore(j: Job, done: set<nat>, f: nat, out: nat, level: seq<nat>)
    requires Set(j, level) && Ready(j, done, f) && f < |j.g.outs| && out in j.g.outs[f]
    ensures out < |j.g.ins| == |j.topo| && out != f
  {
    hide Less;
    assert InsHave(j.g, out, f);
  }

  /** One more output of f: it no longer waits for f. */
  lemma Tell(j: Job, done: set<nat>, f: nat, p: set<nat>, counter: seq<int>, w: seq<nat>, out: nat, level: seq<nat>)
    requires Set(j, level) && Ready(j, done, f) && f < |j.g.outs| && Telling(j, done, f, p, counter, w)
             && out in j.g.outs[f] && out !in p && out !in done
    ensures out < |counter| && out < |j.topo| && Sorted(j, w) && out !in w && out != f
    ensures counter[out] - 1 == 0 <==> Ready(j, done + {f}, out)
    ensures TellingExcept(j, done, f, p, counter[out := counter[out] - 1], w, out)
  {
    hide Ready, Sorted, Set;
    NotBefore(j, done, f, out, level);
    After(j, done, f, out, level);
  }

  /** Telling, with only the membership of out still to be settled. */
  ghost predicate TellingExcept(j: Job, done: set<nat>, f: nat, p: set<nat>, counter: seq<int>, w: seq<nat>, out: nat) {
    && Sorted(j, w) && |counter| == |j.g.ins| && out !in w && !Ready(j, done, out)
    && (forall i :: i in w <==> (Ready(j, done, i) && i != f) || (i in p && Ready(j, done + {f}, i)))
    && forall i :: 0 <= i < |counter| && i !in done && i != f ==>
         counter[i] == if i in p + {out} then |j.g.ins[i] - (done + {f})| else |j.g.ins[i] - done|
  }

  lemma Told(j: Job, done: set<nat>, f: nat, p: set<nat>, counter: seq<int>, w: seq<nat>, w': seq<nat>, out: nat)
    requires TellingExcept(j, done, f, p, counter, w, out) && Sorted(j, w') && out !in p
    requires if Ready(j, done + {f}, out) then forall k :: k in w' <==> k in w || k == out else w' == w
    ensures Telling(j, done, f, p + {out}, counter, w')
  {
    hide Ready, Sorted;
  }

  lemma AllTold(j: Job, done: set<nat>, f: nat, counter: seq<int>, w: seq<nat>, level: seq<nat>)
    requires Set(j, level) && Ready(j, done, f) && f < |j.g.outs| && Telling(j, done, f, j.g.outs[f], counter, w)
    ensures Waiting(j, done + {f}, counter, w)
  {
    hide Ready, Sorted, Set;
    forall i: nat | i < |j.g.ins| && i !in done && i != f
      ensures i in w <==> Ready(j, done + {f}, i)
      ensures counter[i] == |j.g.ins[i] - (done + {f})|
    {
      After(j, done, f, i, level);
    }
    forall i: nat ensures i in w <==> Ready(j, done + {f}, i) { ReadyRange(j, done, f, i, level); }
  }

  lemma ReadyRange(j: Job, done: set<nat>, f: nat, i: nat, level: seq<nat>)
    ensures Ready(j, done, i) || Ready(j, done + {f}, i) ==> i < |j.g.ins| && i !in done
    ensures Ready(j, done + {f}, i) ==> i != f
  {
  }

  /** The head of the waiting set is next. */
  lemma HeadNext(j: Job, done: set<nat>, counter: seq<int>, w: seq<nat>, level: seq<nat>)
    requires Set(j, level) && Waiting(j, done, counter, w) && w != [] && Closed(j, done)
    ensures var f := w[0];
            && Next(j, done, f) && Ready(j, done, f) && f < |j.g.outs| && Telling(j, done, f, {}, counter, w[1..])
               && Closed(j, done + {f})
  {
    hide Less;
    var f := w[0];
    assert f in w && w == [f] + w[1..];
    SetSizes(j, level);
    forall m | Ready(j, done, m) && m != f ensures Less(j, f, m) {
      assert m in w;
      var q :| 0 <= q < |w| && w[q] == m;
    }
    LessNotSelf(j, w);
  }

  lemma LessNotSelf(j: Job, w: seq<nat>)
    requires Sorted(j, w) && w != []
    ensures w[0] !in w[1..]
  {
    if w[0] in w[1..] {
      var q :| 0 <= q < |w| - 1 && w[1..][q] == w[0];
      assert Less(j, w[0], w[q + 1]);
      hide Comp;
      CompOrdered(j.params, j.topo[w[0]], j.topo[w[0]]);
    }
  }

  /** When nobody is ready everybody has run. */
  lemma {:induction false} AllRun(j: Job, done: set<nat>, level: seq<nat>, i: nat)
    requires Set(j, level) && i < |level| && forall m :: !Ready(j, done, m)
    ensures i in done
    decreases level[i]
  {
    hide Less;
    SetSizes(j, level);
    forall k | k in j.g.ins[i] ensures k in done { AllRun(j, done, level, k); }
    assert !Ready(j, done, i);
  }

  /** The order holds every operator once, and it is the straight one. */
  method StraightenOpNodes(j: Job, ghost level: seq<nat>) returns (order: seq<nat>)
    requires Set(j, level)
    ensures Straight(j, order) && Distinct(order) && forall i :: i in order <==> 0 <= i < |j.g.ins|
  {
    hide Waiting, Set, Straight, Telling, Next, Closed;
    order := [];
    var counter, w := Initialize(j, level);
    NothingRun(j);
    ghost var all := set i | 0 <= i < |j.g.ins| && Operator(j, i);
    while w != []
      invariant Straight(j, order) && Closed(j, Elems(order)) && Waiting(j, Elems(order), counter, w)
                && Elems(order) <= all
      decreases all - Elems(order)
    {
      var f := w[0];
      HeadNext(j, Elems(order), counter, w, level);
      StraightMore(j, order, f);
      counter, w := Finish(j, Elems(order), f, counter, w[1..], level);
      assert Elems(order + [f]) == Elems(order) + {f};
      order := order + [f];
    }
    StraightRespects(j, order);
    Finished(j, order, counter, level);
    forall i: nat | i in order ensures i < |j.g.ins| { assert i in Elems(order) && i in all; }
  }

  lemma NothingRun(j: Job)
    ensures Straight(j, []) && Closed(j, {}) && Elems<nat>([]) == {}
  {
  }

  lemma StraightMore(j: Job, order: seq<nat>, f: nat)
    requires Straight(j, order) && Next(j, Elems(order), f)
    ensures Straight(j, order + [f]) && f !in Elems(order) && f < |j.g.ins|
  {
    hide Less;
    var more := order + [f];
    forall k | 0 <= k < |more| ensures Next(j, Elems(more[..k]), more[k]) {
      if k < |order| { assert more[..k] == order[..k]; } else { assert more[..k] == order; }
    }
  }

  lemma Finished(j: Job, order: seq<nat>, counter: seq<int>, level: seq<nat>)
    requires Set(j, level) && Waiting(j, Elems(order), counter, [])
    ensures forall i: nat :: i < |j.g.ins| ==> i in order
  {
    SetSizes(j, level);
    hide Set, Ready;
    forall i: nat | i < |j.g.ins| ensures i in order {
      AllRun(j, Elems(order), level, i);
      assert i in Elems(order);
    }
  }

  // ----- the memory along this order -----

  /** Data edges: whoever consumes a blob waits for the operator that produces it. */
  ghost predicate DataEdges(j: Job, ops: seq<Op>, n: nat) {
    && |ops| == |j.g.ins|
    && (forall a, b :: 0 <= a < |ops| && (b in ops[a].outs || b in ops[a].ins) ==> b < n)
    && (forall a :: 0 <= a < |ops| ==> Distinct(ops[a].outs))
    && (forall a, c, b :: 0 <= a < |ops| && 0 <= c < |ops| && b in ops[a].outs && b in ops[c].outs ==> a == c)
    && (forall a, c, b :: 0 <= a < |ops| && 0 <= c < |ops| && b in ops[a].ins && b in ops[c].outs ==> c in j.g.ins[a])
  }

  function Along(ops: seq<Op>, order: seq<nat>): (r: seq<Op>)
    requires forall i :: i in order ==> i < |ops|
    ensures |r| == |order| && forall p :: 0 <= p < |order| ==> order[p] in order && r[p] == ops[order[p]]
  {
    seq(|order|, p requires 0 <= p < |order| => assert order[p] in order; ops[order[p]])
  }

  /** A straight order is one the memory passes can follow. */
  lemma StraightOrdered(j: Job, order: seq<nat>, ops: seq<Op>, n: nat)
    requires Straight(j, order) && DataEdges(j, ops, n) && forall i :: i in order ==> i < |ops|
    ensures Ordered(Along(ops, order), n)
  {
    hide Straight;
    StraightRespects(j, order);
    var r := Along(ops, order);
    forall p, q, b | 0 <= p <= q < |r| && b in r[q].outs ensures b !in r[p].ins {
      NotInPrefix(order, p, q);
      assert order[p] < |ops| && order[q] < |ops|;
    }
  }

  lemma NotInPrefix(order: seq<nat>, p: nat, q: nat)
    requires Distinct(order) && p <= q < |order|
    ensures order[q] !in order[..p]
  {
  }

  /** InitMemory up to the marking of the memory support. */
  method InitMemory(j: Job, ops: seq<Op>, sizes: seq<nat>, ghost level: seq<nat>)
    returns (order: seq<nat>, max: int, count: seq<int>, ghost at: nat)
    requires Set(j, level) && DataEdges(j, ops, |sizes|) && ops != []
    ensures Straight(j, order) && Distinct(order) && (forall i :: i in order <==> 0 <= i < |ops|)
    ensures var run := Along(ops, order);
            && run != [] && Highest(run, sizes, |run|, max) && FirstPeak(run, sizes, max, at) && |count| == |sizes|
            && forall b :: 0 <= b < |count| ==> (count[b] > 0 <==> b in Peak(run, |sizes|, at))
  {
    hide Set, Straight, DataEdges, Ordered, Highest, FirstPeak, Peak, Memory;
    OpsSize(j, ops, |sizes|);
    order := StraightenOpNodes(j, level);
    assert 0 in order;
    StraightOrdered(j, order, ops, |sizes|);
    max, count, at := MemorySupport(Along(ops, order), sizes);
  }

  lemma OpsSize(j: Job, ops: seq<Op>, n: nat)
    requires DataEdges(j, ops, n)
    ensures |ops| == |j.g.ins|
  {
  }
}
