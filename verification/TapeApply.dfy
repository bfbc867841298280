/** GraphTask::Apply: the queue that runs every needed function node once its consumers have
    run, and the gradients it sees. */
module TapeApply {
  import opened Wrappers
  import opened Sums
  import opened Tape

  /** Everything that stays fixed during a run. */
  datatype Job = Job(
    t: Tape, roots: seq<nat>, need: seq<bool>, captures: seq<seq<(nat, nat)>>, retain: bool,
    releasable: seq<bool>)

  /** The ground the proofs stand on: levels, a bound on them, the reachable nodes, seeds. */
  datatype Ground = Ground(level: seq<nat>, top: nat, reach: set<nat>, seed: (nat, nat) -> real)

  ghost function Row(j: Job, f: Ground, c: nat): seq<real> {
    AdjointRow(j.t, f.level, f.top, f.reach, f.seed, c)
  }

  ghost predicate Set(j: Job, f: Ground) {
    && Acyclic(j.t, f.level) && (forall n :: 0 <= n < |f.level| ==> f.level[n] <= f.top)
    && IsReach(j.t, j.roots, f.reach) && (forall n :: n in f.reach ==> n < |j.t.next|)
    && |j.need| == |j.captures| == |j.releasable| == |j.t.next|
    // what a needed node waits for is needed too
    && (forall c, n :: c in f.reach && n in f.reach && Feeds(j.t, c, n) && j.need[n] ==> j.need[c])
    && (forall c, grads :: 0 <= c < |j.t.next| ==> |j.t.backward(c, grads)| == |j.t.next[c]|)
    // every capture names an output, and every input is captured from one place
    && (forall n: nat, k: nat, idx: nat :: n < |j.captures| && (k, idx) in j.captures[n] ==> k < Slots(j, n))
    && (forall n: nat, k: nat, m: nat, l: nat, idx: nat ::
          n < |j.captures| && m < |j.captures| && (k, idx) in j.captures[n] && (l, idx) in j.captures[m] ==>
              n == m && k == l)
  }

  /** What c sends to slot k of n once it has run. */
  ghost function SentTo(j: Job, f: Ground, n: nat, k: nat): nat -> real {
    (c: nat) => if c < |j.t.next| then Sent(j.t.next[c], j.t.backward(c, Row(j, f, c)), n, k) else 0.0
  }

  lemma {:induction false} SentNothing(links: seq<Link>, grads: seq<real>, n: nat, k: nat)
    requires forall i :: 0 <= i < |links| ==> links[i].to != n
    ensures Sent(links, grads, n, k) == 0.0
    decreases |links|
  {
    if links != [] { SentNothing(links[..|links| - 1], grads, n, k); }
  }

  /** A consumer is on a higher level, so the guard leaves it in; the others send nothing. */
  lemma ShareIs(j: Job, f: Ground, n: nat, k: nat, c: nat)
    requires Set(j, f) && n in f.reach && c in f.reach
    ensures Shares(j.t, f.level, f.top, f.reach, f.seed, n, k)(c) == SentTo(j, f, n, k)(c)
  {
    hide IsReach;
    var row := AdjointRow(j.t, f.level, f.top, f.reach, f.seed, c);
    assert Row(j, f, c) == row;
    assert SentTo(j, f, n, k)(c) == Sent(j.t.next[c], j.t.backward(c, row), n, k);
    if f.level[n] < f.level[c] {
      assert Shares(j.t, f.level, f.top, f.reach, f.seed, n, k)(c) == Sent(j.t.next[c], j.t.backward(c, row), n, k);
    } else {
      SentNothing(j.t.next[c], j.t.backward(c, row), n, k);
    }
  }

  /** The adjoint, without the guards of its recursion. */
  lemma AdjointIs(j: Job, f: Ground, n: nat, k: nat)
    requires Set(j, f) && n in f.reach
    ensures Adjoint(j.t, f.level, f.top, f.reach, f.seed, n, k) == f.seed(n, k) + Sum(f.reach, SentTo(j, f, n, k))
  {
    hide SentTo, Shares, Set, Sum;
    var g := Shares(j.t, f.level, f.top, f.reach, f.seed, n, k);
    forall c | c in f.reach ensures g(c) == SentTo(j, f, n, k)(c) { ShareIs(j, f, n, k, c); }
    SumSame(f.reach, g, SentTo(j, f, n, k));
  }

  // ----- the state of a run -----

  datatype State = State(
    queue: seq<nat>, dep: seq<int>, grads: seq<seq<real>>, filled: seq<bool>, released: seq<bool>,
    captured: seq<Option<real>>, log: seq<(nat, seq<real>)>)

  ghost function Applied(s: State): set<nat> { set p | p in s.log :: p.0 }

  predicate Flag(flags: seq<bool>, n: nat) { n < |flags| && flags[n] }

  function Slots(j: Job, n: nat): nat { if n < |j.t.slots| then j.t.slots[n] else 0 }

  function DepOf(s: State, n: nat): int { if n < |s.dep| then s.dep[n] else 0 }

  function GradOf(s: State, n: nat, k: nat): real { if n < |s.grads| && k < |s.grads[n]| then s.grads[n][k] else 0.0 }

  /** How often n is put on the queue: as often as it is a root nobody feeds, or once. */
  ghost function Copies(j: Job, f: Ground, n: nat): nat {
    if Sum(f.reach, LinksTo(j.t, n)) == 0.0 then multiset(j.roots)[n] else 1
  }

  /** The counters count what has not run yet, and the queue holds what waits for nobody. */
  ghost predicate Queued(j: Job, f: Ground, s: State, pops: multiset<nat>) {
    && |s.dep| == |j.t.next|
    && (forall n :: 0 <= n < |s.dep| ==> s.dep[n] as real == Sum(f.reach - Applied(s), LinksTo(j.t, n)))
    && (forall n :: n in s.queue || n in pops ==> n in f.reach)
    && (forall n :: n in f.reach ==> multiset(s.queue)[n] + pops[n] == if DepOf(s, n) == 0 then Copies(j, f, n) else 0)
  }

  /** Each node ran once, after all its consumers, and saw its adjoint. */
  ghost predicate Logged(j: Job, f: Ground, s: State, pops: multiset<nat>) {
    && (forall p :: 0 <= p < |s.log| ==> s.log[p].0 in f.reach && s.log[p].0 in pops && Flag(j.need, s.log[p].0))
    && (forall p, q :: 0 <= p < q < |s.log| ==> s.log[p].0 != s.log[q].0)
    && (forall p, c :: 0 <= p < |s.log| && c in f.reach && Feeds(j.t, c, s.log[p].0) ==>
       exists q :: 0 <= q < p && s.log[q].0 == c)
    && (forall p :: 0 <= p < |s.log| ==> s.log[p].1 == Row(j, f, s.log[p].0))
    && (forall n :: n in pops && Flag(j.need, n) ==> n in Applied(s))
  }

  /** The gradient buffers of nodes that have not left the queue. */
  ghost predicate Buffered(j: Job, f: Ground, s: State, pops: multiset<nat>) {
    && |s.grads| == |s.filled| == |j.t.next|
    && (forall n :: 0 <= n < |s.grads| ==> |s.grads[n]| == Slots(j, n))
    && (forall n, k :: n in f.reach && n !in pops && 0 <= k < Slots(j, n) ==>
       GradOf(s, n, k) == f.seed(n, k) + Sum(Applied(s), SentTo(j, f, n, k)))
    && (forall n ::
          && n in f.reach && n !in pops
          && (n in j.roots || exists c :: c in Applied(s) && Feeds(j.t, c, n)) ==>
            Flag(s.filled, n))
    && (forall n :: n in pops && Flag(j.need, n) ==> !Flag(s.filled, n))
  }

  ghost predicate Freed(j: Job, s: State, pops: multiset<nat>) {
    && |s.released| == |j.t.next|
    && (forall n :: 0 <= n < |s.released| ==>
       (s.released[n] <==> n in Applied(s) && !j.retain && Flag(j.releasable, n)))
    // a node that came twice and could not be run twice would have ended the run
    && forall n :: pops[n] >= 2 ==> !(Flag(j.need, n) && !j.retain && Flag(j.releasable, n))
  }

  /** Nobody captures anything for this input. */
  ghost predicate Nowhere(j: Job, idx: nat) {
    forall n: nat, k: nat :: n < |j.captures| ==> (k, idx) !in j.captures[n]
  }

  ghost predicate Caught(j: Job, f: Ground, s: State) {
    && (forall n: nat, k: nat, idx: nat :: n < |j.captures| && (k, idx) in j.captures[n] && idx < |s.captured| ==>
          s.captured[idx] == if n in Applied(s) then Some(Adjoint(j.t, f.level, f.top, f.reach, f.seed, n, k))
              else None)
    && forall idx: nat :: idx < |s.captured| && Nowhere(j, idx) ==> s.captured[idx] == None
  }

  // Function values, so that the conditions stay whole.
  ghost function Running(j: Job, f: Ground): (State, multiset<nat>) -> bool {
    (s, pops) => Queued(j, f, s, pops) && Logged(j, f, s, pops) && Buffered(j, f, s, pops) && Freed(j, s, pops)
        && Caught(j, f, s)
  }

  // ----- the loops of one application -----

  /** PushPartialTensor along every link. */
  method PushGrads(links: seq<Link>, g: seq<real>, grads: seq<seq<real>>, filled: seq<bool>)
    returns (grads': seq<seq<real>>, filled': seq<bool>)
    requires |g| == |links| && |filled| == |grads|
    requires forall i :: 0 <= i < |links| ==> links[i].to < |grads| && links[i].slot < |grads[links[i].to]|
    ensures |grads'| == |grads| == |filled'| && forall m :: 0 <= m < |grads| ==> |grads'[m]| == |grads[m]|
    ensures forall m, k :: 0 <= m < |grads| && 0 <= k < |grads[m]| ==>
            grads'[m][k] == grads[m][k] + Sent(links, g, m, k)
    ensures forall m :: 0 <= m < |grads| ==>
            (filled'[m] <==> filled[m] || exists i :: 0 <= i < |links| && links[i].to == m)
  {
    grads', filled' := grads, filled;
    for i := 0 to |links|
      invariant |grads'| == |grads| == |filled'| && forall m :: 0 <= m < |grads| ==> |grads'[m]| == |grads[m]|
      invariant forall m, k :: 0 <= m < |grads| && 0 <= k < |grads[m]| ==>
                grads'[m][k] == grads[m][k] + Sent(links[..i], g, m, k)
      invariant forall m :: 0 <= m < |grads| ==>
                (filled'[m] <==> filled[m] || exists p :: 0 <= p < i && links[p].to == m)
    {
      var to, slot := links[i].to, links[i].slot;
      assert links[..i + 1][..i] == links[..i] && links[i] == Link(to, slot);
      grads' := grads'[to := grads'[to][slot := grads'[to][slot] + g[i]]];
      filled' := filled'[to := true];
    }
    assert links[..|links|] == links;
  }

  /** Count one link down; who has no consumer left joins the queue. */
  method CountDown(links: seq<Link>, dep: seq<int>, queue: seq<nat>) returns (dep': seq<int>, more: seq<nat>)
    requires forall i :: 0 <= i < |links| ==> links[i].to < |dep|
    requires forall m :: 0 <= m < |dep| ==> dep[m] >= Links(links, m)
    ensures |dep'| == |dep| && forall m :: 0 <= m < |dep| ==> dep'[m] == dep[m] - Links(links, m)
    ensures forall m :: 0 <= m < |dep| ==> multiset(more)[m] == if Links(links, m) > 0 && dep[m] == Links(links, m)
            then 1 else 0
    ensures forall m :: m in more ==> m < |dep|
  {
    dep', more := dep, [];
    for i := 0 to |links|
      invariant |dep'| == |dep| && (forall m :: 0 <= m < |dep| ==> dep'[m] == dep[m] - Links(links[..i], m))
      invariant forall m :: 0 <= m < |dep| ==>
                multiset(more)[m] == if Links(links[..i], m) > 0 && dep[m] == Links(links[..i], m) then 1 else 0
      invariant forall m :: m in more ==> m < |dep|
    {
      var n := links[i].to;
      assert links[..i + 1][..i] == links[..i];
      forall m | 0 <= m < |dep| ensures Links(links[..i + 1], m) <= dep[m] { LinksPrefix(links, i + 1, m); }
      dep' := dep'[n := dep'[n] - 1];
      if dep'[n] == 0 { more := more + [n]; }
    }
    assert links[..|links|] == links;
  }

  lemma {:induction false} LinksPrefix(links: seq<Link>, i: nat, m: nat)
    requires i <= |links|
    ensures Links(links[..i], m) <= Links(links, m)
    decreases |links| - i
  {
    if i < |links| {
      assert links[..i + 1][..i] == links[..i];
      LinksPrefix(links, i + 1, m);
    } else {
      assert links[..i] == links;
    }
  }

  /** Hand the gradients of the captured outputs to their inputs. */
  method Capture(captures: seq<(nat, nat)>, row: seq<real>, captured: seq<Option<real>>)
    returns (captured': seq<Option<real>>)
    requires forall p :: p in captures ==> p.0 < |row|
    requires forall k: nat, l: nat, idx: nat :: (k, idx) in captures && (l, idx) in captures ==> k == l
    ensures |captured'| == |captured|
    ensures forall k: nat, idx: nat :: (k, idx) in captures && idx < |captured| ==> captured'[idx] == Some(row[k])
    ensures forall idx: nat :: idx < |captured| && (forall k: nat :: (k, idx) !in captures) ==>
            captured'[idx] == captured[idx]
  {
    captured' := captured;
    for i := 0 to |captures|
      invariant |captured'| == |captured|
      invariant forall p :: 0 <= p < i && captures[p].1 < |captured| ==>
                captured'[captures[p].1] == Some(row[captures[p].0])
      invariant forall idx: nat :: idx < |captured| && (forall k: nat :: (k, idx) !in captures) ==>
                captured'[idx] == captured[idx]
    {
      var (k, idx) := captures[i];
      assert (k, idx) in captures;
      forall p | 0 <= p < i && captures[p].1 == idx
        ensures captures[p].0 == k
      {
        assert (captures[p].0, idx) in captures;
      }
      if idx < |captured| { captured' := captured'[idx := Some(row[k])]; }
    }
    forall k: nat, idx: nat | (k, idx) in captures && idx < |captured| ensures captured'[idx] == Some(row[k]) {
      var p :| 0 <= p < |captures| && captures[p] == (k, idx);
    }
  }
}
