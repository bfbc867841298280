/** The two ways to run a backward pass: over everything, and pruned to the captured inputs. */
module TapeEngine {
  import opened Wrappers
  import opened Sums
  import opened Tape
  import opened TapeDeps
  import opened TapePrune
  import opened TapeApply
  import opened TapeRun

  /** A recorded graph with its roots and the gradients already pushed to their outputs. */
  datatype Start = Start(t: Tape, roots: seq<nat>, grads: seq<seq<real>>, filled: seq<bool>)

  ghost predicate Fit(b: Start, level: seq<nat>, seed: (nat, nat) -> real) {
    && Acyclic(b.t, level) && (forall n :: n in b.roots ==> n < |b.t.next|)
    && |b.grads| == |b.filled| == |b.t.next|
    && (forall n :: 0 <= n < |b.grads| ==> |b.grads[n]| == b.t.slots[n])
    && (forall n, k :: 0 <= n < |b.grads| && 0 <= k < b.t.slots[n] ==> b.grads[n][k] == seed(n, k))
    && (forall n :: n in b.roots ==> b.filled[n])
    && (forall c, grads :: 0 <= c < |b.t.next| ==> |b.t.backward(c, grads)| == |b.t.next[c]|)
  }

  ghost function TopOf(level: seq<nat>): (top: nat)
    ensures forall n :: 0 <= n < |level| ==> level[n] <= top
  {
    if level == [] then 0 else
      var t, l := TopOf(level[..|level| - 1]), level[|level| - 1];
      if l > t then l else t
  }

  /** Every input names an output of some node. */
  ghost predicate InputsOk(t: Tape, inputs: seq<Input>) {
    |t.slots| == |t.next| && forall i :: i in inputs && i.Of? ==> i.node < |t.next| && i.slot < t.slots[i.node]
  }

  lemma CapturesSet(j: Job, inputs: seq<Input>)
    requires InputsOk(j.t, inputs) && |j.captures| == |j.t.next| && CapturesOf(inputs, j.captures, |inputs|)
    ensures forall n: nat, k: nat, idx: nat :: n < |j.captures| && (k, idx) in j.captures[n] ==> k < Slots(j, n)
    ensures forall n: nat, k: nat, m: nat, l: nat, idx: nat ::
              n < |j.captures| && m < |j.captures| && (k, idx) in j.captures[n] && (l, idx) in j.captures[m] ==>
                  n == m && k == l
  {
    forall n: nat, k: nat, idx: nat | n < |j.captures| && (k, idx) in j.captures[n] ensures k < Slots(j, n) {
      assert inputs[idx] == Of(n, k) && inputs[idx] in inputs;
    }
    forall n: nat, k: nat, m: nat, l: nat, idx: nat | n < |j.captures| && m < |j.captures|
                                                      && (k, idx) in j.captures[n] && (l, idx) in j.captures[m]
      ensures n == m && k == l
    {
      assert inputs[idx] == Of(n, k) && inputs[idx] == Of(m, l);
    }
  }

  lemma WantedUp(t: Tape, level: seq<nat>, captured: set<nat>, c: nat, n: nat)
    requires Acyclic(t, level) && c < |t.next| && n < |t.next| && Feeds(t, c, n) && Wanted(t, level, captured, n)
    ensures Wanted(t, level, captured, c)
  {
    var i :| 0 <= i < |t.next[c]| && t.next[c][i].to == n;
    assert Wanted(t, level, captured, t.next[c][i].to);
  }

  /** The pass runs as the caller asked. */
  ghost predicate Asked(j: Job, retain: bool, releasable: seq<bool>, size: nat) {
    j.retain == retain && j.releasable == releasable && |j.need| == size
  }

  /** Needed are the captured nodes and what leads to them. */
  ghost predicate PrunedTo(j: Job, f: Ground, inputs: seq<Input>)
    requires Acyclic(j.t, f.level)
  {
    |j.need| == |j.t.next| && forall n :: 0 <= n < |j.need| ==>
      (j.need[n] <==> if n in f.reach then Wanted(j.t, f.level, CapturedNodes(inputs), n)
          else n in CapturedNodes(inputs))
  }

  /** autograd.grad: the gradients of the inputs, None for those the roots do not reach. */
  method ReturnInputsGrad(b: Start, inputs: seq<Input>, allowUnused: bool, retain: bool, releasable: seq<bool>,
                          ghost level: seq<nat>, ghost seed: (nat, nat) -> real)
    returns (used: bool, ok: bool, s: State, ghost f: Ground, ghost j: Job)
    requires Fit(b, level, seed) && InputsOk(b.t, inputs) && |releasable| == |b.t.next|
    ensures used <==> allowUnused || Unused !in inputs
    ensures used ==>
              && j.t == b.t && j.roots == b.roots && f.level == level && f.seed == seed && f.top == TopOf(level)
                 && IsReach(b.t, b.roots, f.reach)
              && Asked(j, retain, releasable, |b.t.next|) && PrunedTo(j, f, inputs)
                 && (ok <==> forall n :: !Repeats(j, f, n))
              && (ok ==>
                 && |s.captured| == |inputs| && Completed(j, f, s) && GradsOf(b.t, inputs, f, s.captured)
                 && RanWanted(b.t, level, inputs, f, s))
  {
    hide IsReach, Counts, Completed, Repeats, Set, Wanted, CapturesOf, CapturedNodes;
    var info, captures;
    ghost var reach;
    used, info, captures, reach := ComputeDependenciesAndPruneNode(b.t, b.roots, inputs, allowUnused, level);
    f, ok := Ground(level, TopOf(level), reach, seed), false;
    s := State([], info.dep, b.grads, b.filled, seq(|b.t.next|, _ => false), seq(|inputs|, _ => None), []);
    var job := Job(b.t, b.roots, info.need, captures, retain, releasable);
    j := job;
    if !used { return; }
    PrunedSet(j, f, b, inputs);
    ok, s := Apply(job, s, f);
    if ok { GradsFound(b, inputs, j, f, s, |inputs|); }
  }

  lemma PrunedSet(j: Job, f: Ground, b: Start, inputs: seq<Input>)
    requires Fit(b, f.level, f.seed) && InputsOk(b.t, inputs) && j.t == b.t && j.roots == b.roots
             && f.top == TopOf(f.level)
    requires |j.need| == |j.t.next| == |j.captures| == |j.releasable| && CapturesOf(inputs, j.captures, |inputs|)
    requires IsReach(j.t, j.roots, f.reach) && (forall n :: n in f.reach ==> n < |j.t.next|)
    requires forall n :: 0 <= n < |j.need| ==>
               (j.need[n] <==> if n in f.reach then Wanted(j.t, f.level, CapturedNodes(inputs), n)
                   else n in CapturedNodes(inputs))
    ensures Set(j, f)
  {
    hide IsReach, CapturedNodes, Wanted;
    CapturesSet(j, inputs);
    forall c, n | c in f.reach && n in f.reach && Feeds(j.t, c, n) && j.need[n] ensures j.need[c] {
      WantedUp(j.t, f.level, CapturedNodes(inputs), c, n);
    }
  }

  /** Each used input gets the adjoint of its output, or nothing if the roots do not reach it;
      each unused one gets nothing. */
  ghost predicate GradsOf(t: Tape, inputs: seq<Input>, f: Ground, captured: seq<Option<real>>) {
    forall idx :: 0 <= idx < |inputs| && idx < |captured| ==>
      captured[idx] == if inputs[idx].Of? && inputs[idx].node in f.reach
                       then Some(Adjoint(t, f.level, f.top, f.reach, f.seed, inputs[idx].node, inputs[idx].slot))
                           else None
  }

  /** The nodes that ran are the reachable ones on a way to a captured input. */
  ghost predicate RanWanted(t: Tape, level: seq<nat>, inputs: seq<Input>, f: Ground, s: State)
    requires Acyclic(t, level)
  {
    forall n :: 0 <= n < |t.next| ==> (n in Applied(s) <==> n in f.reach && Wanted(t, level, CapturedNodes(inputs), n))
  }

  lemma GradsFound(b: Start, inputs: seq<Input>, j: Job, f: Ground, s: State, size: nat)
    requires Completed(j, f, s) && j.t == b.t && Fit(b, f.level, f.seed) && InputsOk(b.t, inputs) && |inputs| == size
    requires |j.captures| == |j.need| == |j.t.next| && CapturesOf(inputs, j.captures, size)
    requires forall n :: 0 <= n < |j.need| ==>
               (j.need[n] <==> if n in f.reach then Wanted(j.t, f.level, CapturedNodes(inputs), n)
                   else n in CapturedNodes(inputs))
    ensures GradsOf(b.t, inputs, f, s.captured) && RanWanted(b.t, f.level, inputs, f, s)
  {
    hide Adjoint, Row, Applied;
    forall idx | 0 <= idx < size && idx < |s.captured|
      ensures s.captured[idx] == if inputs[idx].Of? && inputs[idx].node in f.reach
                                 then Some(Adjoint(b.t, f.level, f.top, f.reach, f.seed, inputs[idx].node,
                                     inputs[idx].slot)) else None
    {
      if inputs[idx].Of? {
        var n, k := inputs[idx].node, inputs[idx].slot;
        assert inputs[idx] in inputs && (k, idx) in j.captures[n];
        assert n in CapturedNodes(inputs);
      } else {
        assert Nowhere(j, idx);
      }
    }
  }

  // ----- accumulating into leaf tensors -----

  /** CopyOrAccGrad: the first gradient is copied, later ones are added. */
  function Plus(was: Option<real>, x: real): (now: Option<real>)
    ensures now.Some? && now.value - x == if was.Some? then was.value else 0.0
  {
    match was case None => Some(x) case Some(y) => Some(y + x)
  }

  /** What output 0 of n has accumulated after the given runs. */
  ghost function Gained(log: seq<(nat, seq<real>)>, n: nat, was: Option<real>): Option<real> {
    if log == [] then was else
      var last, before := log[|log| - 1], Gained(log[..|log| - 1], n, was);
      if last.0 == n && last.1 != [] then Plus(before, last.1[0]) else before
  }

  /** AccGrad4LeafTensor for every node that ran, in that order. */
  method AccGrad4LeafTensors(log: seq<(nat, seq<real>)>, leaf: seq<bool>, acc: seq<Option<real>>)
    returns (acc': seq<Option<real>>)
    requires |leaf| == |acc|
    ensures |acc'| == |acc|
    ensures forall n :: 0 <= n < |acc| ==> acc'[n] == if leaf[n] then Gained(log, n, acc[n]) else acc[n]
  {
    acc' := acc;
    for i := 0 to |log|
      invariant |acc'| == |acc|
      invariant forall n :: 0 <= n < |acc| ==> acc'[n] == if leaf[n] then Gained(log[..i], n, acc[n]) else acc[n]
    {
      assert log[..i + 1][..i] == log[..i];
      var (n, row) := log[i];
      if Flag(leaf, n) && row != [] { acc' := acc'[n := Plus(acc'[n], row[0])]; }
    }
    assert log[..|log|] == log;
  }

  lemma {:induction false} GainsNothing(log: seq<(nat, seq<real>)>, n: nat, was: Option<real>)
    requires forall p :: 0 <= p < |log| ==> log[p].0 != n
    ensures Gained(log, n, was) == was
    decreases |log|
  {
    if log != [] { GainsNothing(log[..|log| - 1], n, was); }
  }

  lemma {:induction false} GainsOnce(log: seq<(nat, seq<real>)>, p: nat, was: Option<real>)
    requires p < |log| && log[p].1 != [] && forall q :: 0 <= q < |log| && q != p ==> log[q].0 != log[p].0
    ensures Gained(log, log[p].0, was) == Plus(was, log[p].1[0])
    decreases |log|
  {
    var k := |log| - 1;
    if p < k { GainsOnce(log[..k], p, was); } else { GainsNothing(log[..k], log[p].0, was); }
  }

  /** Exactly the leaves that the roots reach have gained their adjoint, once, on top of what they had. */
  ghost predicate LeavesGained(t: Tape, f: Ground, leaf: seq<bool>, acc: seq<Option<real>>, acc': seq<Option<real>>) {
    && |leaf| == |acc| == |acc'|
    && forall n :: 0 <= n < |acc| ==>
         acc'[n] == if leaf[n] && n in f.reach
                    then Plus(acc[n], Adjoint(t, f.level, f.top, f.reach, f.seed, n, 0)) else acc[n]
  }

  /** Every leaf has a node of its own, with the leaf as its only output. */
  ghost predicate LeafNodes(t: Tape, leaf: seq<bool>) {
    |leaf| == |t.slots| == |t.next| && forall n :: 0 <= n < |leaf| && leaf[n] ==> t.slots[n] == 1
  }

  lemma OneLeaf(j: Job, f: Ground, s: State, leaf: seq<bool>, n: nat, was: Option<real>)
    requires Completed(j, f, s) && LeafNodes(j.t, leaf) && n < |leaf| && leaf[n]
    requires n in f.reach <==> n in Applied(s)
    ensures Gained(s.log, n, was) == if n in f.reach
                                     then Plus(was, Adjoint(j.t, f.level, f.top, f.reach, f.seed, n, 0)) else was
  {
    hide Adjoint, Caught;
    if n in Applied(s) {
      var run :| run in s.log && run.0 == n;
      var p :| 0 <= p < |s.log| && s.log[p] == run;
      GainsOnce(s.log, p, was);
    } else {
      forall p | 0 <= p < |s.log| ensures s.log[p].0 != n { assert s.log[p] in s.log; }
      GainsNothing(s.log, n, was);
    }
  }

  lemma AllLeaves(j: Job, f: Ground, s: State, leaf: seq<bool>, acc: seq<Option<real>>, acc': seq<Option<real>>)
    requires Completed(j, f, s) && LeafNodes(j.t, leaf) && |leaf| == |acc| == |acc'|
    requires forall n :: n in f.reach <==> n in Applied(s)
    requires forall n :: 0 <= n < |acc| ==> acc'[n] == if leaf[n] then Gained(s.log, n, acc[n]) else acc[n]
    ensures LeavesGained(j.t, f, leaf, acc, acc')
  {
    hide Completed, Adjoint, Applied, LeafNodes;
    forall n | 0 <= n < |acc| && leaf[n]
      ensures acc'[n] == if n in f.reach then Plus(acc[n], Adjoint(j.t, f.level, f.top, f.reach, f.seed, n, 0))
                         else acc[n]
    {
      OneLeaf(j, f, s, leaf, n, acc[n]);
    }
  }

  /** backward(): every reachable node runs, and every reachable leaf gains its gradient. */
  method SaveLeafGrads(b: Start, retain: bool, releasable: seq<bool>, leaf: seq<bool>, acc: seq<Option<real>>,
                       ghost level: seq<nat>, ghost seed: (nat, nat) -> real)
    returns (ok: bool, s: State, acc': seq<Option<real>>, ghost f: Ground, ghost j: Job)
    requires Fit(b, level, seed) && |releasable| == |b.t.next| && LeafNodes(b.t, leaf) && |acc| == |leaf|
    ensures j.t == b.t && j.roots == b.roots && f.level == level && f.seed == seed && f.top == TopOf(level)
            && IsReach(b.t, b.roots, f.reach)
    ensures Asked(j, retain, releasable, |b.t.next|)
            && (forall n :: 0 <= n < |j.need| ==> (j.need[n] <==> n in f.reach))
    ensures ok <==> forall n :: !Repeats(j, f, n)
    ensures ok ==> Completed(j, f, s) && forall n :: n in f.reach <==> n in Applied(s)
    ensures ok ==> LeavesGained(b.t, f, leaf, acc, acc')
    ensures |acc'| == |acc| && forall n :: 0 <= n < |acc| ==>
              acc'[n] == if leaf[n] then Gained(s.log, n, acc[n]) else acc[n]
  {
    hide IsReach, Counts, Completed, Repeats, Set, Applied, Gained, LeavesGained;
    var info;
    ghost var reach;
    info, reach := ComputeDependencies(b.t, b.roots, level);
    f := Ground(level, TopOf(level), reach, seed);
    var job := Job(b.t, b.roots, info.need, seq(|b.t.next|, _ => []), retain, releasable);
    j := job;
    s := State([], info.dep, b.grads, b.filled, seq(|b.t.next|, _ => false), [], []);
    PlainSet(j, f, b);
    ok, s := Apply(job, s, f);
    acc' := AccGrad4LeafTensors(s.log, leaf, acc);
    if ok {
      AllRanPlain(j, f, s);
      AllLeaves(j, f, s, leaf, acc, acc');
    }
  }

  lemma PlainSet(j: Job, f: Ground, b: Start)
    requires Fit(b, f.level, f.seed) && j.t == b.t && j.roots == b.roots && f.top == TopOf(f.level)
    requires |j.need| == |j.t.next| == |j.captures| == |j.releasable|
             && (forall n :: 0 <= n < |j.captures| ==> j.captures[n] == [])
    requires IsReach(j.t, j.roots, f.reach) && forall n :: 0 <= n < |j.need| ==> (j.need[n] <==> n in f.reach)
    ensures Set(j, f)
  {
    ReachBound(j.t, j.roots, f.reach, f.level);
  }

  lemma AllRanPlain(j: Job, f: Ground, s: State)
    requires Completed(j, f, s) && Set(j, f) && forall n :: 0 <= n < |j.need| ==> (j.need[n] <==> n in f.reach)
    ensures forall n :: n in f.reach <==> n in Applied(s)
  {
    hide Row, Adjoint, Applied;
  }

  /** Pruning keeps the meaning: a node that runs in both passes sees the same gradients. */
  lemma PruningKeepsGradients(j1: Job, f1: Ground, s1: State, j2: Job, f2: Ground, s2: State, p: nat, q: nat)
    requires Completed(j1, f1, s1) && Completed(j2, f2, s2)
    requires j1.t == j2.t && j1.roots == j2.roots && f1.level == f2.level && f1.top == f2.top && f1.seed == f2.seed
    requires IsReach(j1.t, j1.roots, f1.reach) && IsReach(j2.t, j2.roots, f2.reach)
    requires p < |s1.log| && q < |s2.log| && s1.log[p].0 == s2.log[q].0
    ensures s1.log[p].1 == s2.log[q].1 && f1.reach == f2.reach
  {
    hide Adjoint, AdjointRow, Completed, Row;
    assert f1.reach == f2.reach;
    SameRow(j1, f1, j2, f2, s1.log[p].0);
    OnAdjoint(j1, f1, s1, p);
    OnAdjoint(j2, f2, s2, q);
  }

  lemma SameRow(j1: Job, f1: Ground, j2: Job, f2: Ground, n: nat)
    requires j1.t == j2.t && f1.level == f2.level && f1.top == f2.top && f1.seed == f2.seed && f1.reach == f2.reach
    ensures Row(j1, f1, n) == Row(j2, f2, n)
  {
  }

  lemma OnAdjoint(j: Job, f: Ground, s: State, p: nat)
    requires Completed(j, f, s) && p < |s.log|
    ensures s.log[p].1 == Row(j, f, s.log[p].0)
  {
    hide Row, Adjoint, Caught;
  }
}
