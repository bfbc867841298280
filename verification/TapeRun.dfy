/** Whole runs of GraphTask::Apply. */
module TapeRun {
  import opened Wrappers
  import opened Sums
  import opened Tape
  import opened TapeDeps
  import opened TapeApply

  lemma AppliedMore(s: State, s': State, n: nat, row: seq<real>)
    requires s'.log == s.log + [(n, row)]
    ensures Applied(s') == Applied(s) + {n}
  {
    forall c | c in Applied(s) + {n} ensures c in Applied(s') {
      if c == n { assert (n, row) in s'.log; } else {
        var p :| p in s.log && p.0 == c;
        assert p in s'.log;
      }
    }
  }

  /** Who waits for nobody: all its reachable consumers have run. */
  lemma NobodyLeft(j: Job, f: Ground, s: State, pops: multiset<nat>, n: nat)
    requires Queued(j, f, s, pops) && n < |s.dep| && s.dep[n] == 0
    ensures forall c :: c in f.reach && Feeds(j.t, c, n) ==> c in Applied(s)
  {
    NoLinks(j.t, f.reach - Applied(s), n);
  }

  lemma Head(j: Job, f: Ground, s: State, pops: multiset<nat>)
    requires Set(j, f) && Queued(j, f, s, pops) && s.queue != []
    ensures s.queue[0] in f.reach && s.queue[0] < |j.t.next| == |s.dep| && s.dep[s.queue[0]] == 0
    ensures multiset(s.queue) == multiset(s.queue[1..]) + multiset{s.queue[0]}
  {
    assert s.queue == [s.queue[0]] + s.queue[1..] && s.queue[0] in s.queue;
  }

  /** A node that leaves the queue for the first time has received something. */
  lemma HasGradient(j: Job, f: Ground, s: State, pops: multiset<nat>)
    requires Set(j, f) && Queued(j, f, s, pops) && Buffered(j, f, s, pops) && s.queue != [] && s.queue[0] !in pops
    ensures Flag(s.filled, s.queue[0])
  {
    var n := s.queue[0];
    Head(j, f, s, pops);
    NobodyLeft(j, f, s, pops, n);
    Fed(j.t, j.roots, f.reach, n);
  }

  /** What it has received is its adjoint. */
  lemma SeesAdjoint(j: Job, f: Ground, s: State, pops: multiset<nat>)
    requires Set(j, f) && Queued(j, f, s, pops) && Logged(j, f, s, pops) && Buffered(j, f, s, pops) && s.queue != []
             && s.queue[0] !in pops
    ensures s.queue[0] < |s.grads| && s.grads[s.queue[0]] == Row(j, f, s.queue[0])
  {
    hide Queued, Logged, Buffered, Set, Sum, SentTo, Adjoint, Applied;
    var n := s.queue[0];
    Head(j, f, s, pops);
    NobodyLeft(j, f, s, pops, n);
    AppliedInside(j, f, s, pops);
    forall k | 0 <= k < Slots(j, n) ensures GradOf(s, n, k) == Adjoint(j.t, f.level, f.top, f.reach, f.seed, n, k) {
      AllSent(j, f, Applied(s), n, k);
      AdjointIs(j, f, n, k);
      GradIs(j, f, s, pops, n, k);
    }
    RowIs(j, f, s, pops, n);
  }

  lemma GradIs(j: Job, f: Ground, s: State, pops: multiset<nat>, n: nat, k: nat)
    requires Buffered(j, f, s, pops) && n in f.reach && n !in pops && k < Slots(j, n)
    ensures GradOf(s, n, k) == f.seed(n, k) + Sum(Applied(s), SentTo(j, f, n, k))
  {
  }

  lemma RowIs(j: Job, f: Ground, s: State, pops: multiset<nat>, n: nat)
    requires Buffered(j, f, s, pops) && n < |j.t.next|
    requires forall k :: 0 <= k < Slots(j, n) ==> GradOf(s, n, k) == Adjoint(j.t, f.level, f.top, f.reach, f.seed, n, k)
    ensures n < |s.grads| && s.grads[n] == Row(j, f, n)
  {
    hide Adjoint;
    assert |s.grads[n]| == |Row(j, f, n)|;
    forall k | 0 <= k < |s.grads[n]|
      ensures s.grads[n][k] == Row(j, f, n)[k]
    {
      assert GradOf(s, n, k) == s.grads[n][k];
    }
  }

  lemma AllSent(j: Job, f: Ground, done: set<nat>, n: nat, k: nat)
    requires Set(j, f) && done <= f.reach && forall c :: c in f.reach && Feeds(j.t, c, n) ==> c in done
    ensures Sum(f.reach, SentTo(j, f, n, k)) == Sum(done, SentTo(j, f, n, k))
  {
    var rest := f.reach - done;
    assert done + rest == f.reach;
    SumUnion(done, rest, SentTo(j, f, n, k));
    forall c | c in rest ensures SentTo(j, f, n, k)(c) == 0.0 {
      assert !Feeds(j.t, c, n);
      SentNothing(j.t.next[c], j.t.backward(c, Row(j, f, c)), n, k);
    }
    SumSame(rest, SentTo(j, f, n, k), (c: nat) => 0.0);
    SumZero(rest);
  }

  lemma AppliedInside(j: Job, f: Ground, s: State, pops: multiset<nat>)
    requires Logged(j, f, s, pops)
    ensures Applied(s) <= f.reach && forall n :: n in Applied(s) ==> n in pops && Flag(j.need, n)
  {
    forall n | n in Applied(s) ensures n in f.reach && n in pops && Flag(j.need, n) {
      var p :| p in s.log && p.0 == n;
      var q :| 0 <= q < |s.log| && s.log[q] == p;
    }
  }

  // ----- the ways to leave the queue without running -----

  /** A node that is not needed only drops its gradients. */
  function Dropped(j: Job, s: State): State
    requires s.queue != []
  {
    var n := s.queue[0];
    s.(queue := s.queue[1..],
       grads := if n < |s.grads| then s.grads[n := seq(|s.grads[n]|, _ => 0.0)] else s.grads,
       filled := if n < |s.filled| then s.filled[n := false] else s.filled)
  }

  /** The head leaves; only its own buffers may change. */
  ghost predicate Leaves(s: State, s': State) {
    && s.queue != [] && s'.queue == s.queue[1..]
    && s'.dep == s.dep && s'.log == s.log && s'.released == s.released && s'.captured == s.captured
    && |s'.grads| == |s.grads| && |s'.filled| == |s.filled|
    && (forall m :: 0 <= m < |s.grads| ==>
       && |s'.grads[m]| == |s.grads[m]|
       && (m != s.queue[0] ==> s'.grads[m] == s.grads[m]))
    && (forall m :: 0 <= m < |s.filled| && m != s.queue[0] ==> s'.filled[m] == s.filled[m])
    && !Flag(s'.filled, s.queue[0])
  }

  lemma LeaveQueued(j: Job, f: Ground, s: State, s': State, pops: multiset<nat>)
    requires Set(j, f) && Queued(j, f, s, pops) && Leaves(s, s')
    ensures Queued(j, f, s', pops + multiset{s.queue[0]})
  {
    Head(j, f, s, pops);
    hide Sum, Copies, Set;
  }

  lemma LeaveLogged(j: Job, f: Ground, s: State, s': State, pops: multiset<nat>)
    requires Logged(j, f, s, pops) && Leaves(s, s') && (Flag(j.need, s.queue[0]) ==> s.queue[0] in Applied(s))
    ensures Logged(j, f, s', pops + multiset{s.queue[0]})
  {
    hide Row;
  }

  lemma LeaveBuffered(j: Job, f: Ground, s: State, s': State, pops: multiset<nat>)
    requires Buffered(j, f, s, pops) && Leaves(s, s')
    ensures Buffered(j, f, s', pops + multiset{s.queue[0]})
  {
    hide Sum, SentTo;
  }

  lemma Leave(j: Job, f: Ground, s: State, s': State, pops: multiset<nat>)
    requires Set(j, f) && Running(j, f)(s, pops) && Leaves(s, s')
             && (Flag(j.need, s.queue[0]) ==> s.queue[0] in Applied(s))
    requires Flag(j.need, s.queue[0]) ==> j.retain || !Flag(j.releasable, s.queue[0])
    ensures Running(j, f)(s', pops + multiset{s.queue[0]})
  {
    hide Queued, Logged, Buffered, Freed, Caught, Set, Leaves, Applied;
    LeaveQueued(j, f, s, s', pops);
    LeaveLogged(j, f, s, s', pops);
    LeaveBuffered(j, f, s, s', pops);
    LeaveFreed(j, f, s, s', pops);
  }

  lemma LeaveFreed(j: Job, f: Ground, s: State, s': State, pops: multiset<nat>)
    requires Freed(j, s, pops) && Caught(j, f, s) && Leaves(s, s')
    requires Flag(j.need, s.queue[0]) ==> j.retain || !Flag(j.releasable, s.queue[0])
    ensures Freed(j, s', pops + multiset{s.queue[0]}) && Caught(j, f, s')
  {
    hide Adjoint;
  }

  lemma Drop(j: Job, f: Ground, s: State, pops: multiset<nat>)
    requires Set(j, f) && Running(j, f)(s, pops) && s.queue != [] && !Flag(j.need, s.queue[0])
    ensures Running(j, f)(Dropped(j, s), pops + multiset{s.queue[0]})
  {
    hide Set, Running;
    Leave(j, f, s, Dropped(j, s), pops);
  }

  /** A second copy of a root that has run and kept its data finds no gradient. */
  lemma Again(j: Job, f: Ground, s: State, pops: multiset<nat>)
    requires Set(j, f) && Running(j, f)(s, pops) && s.queue != []
    requires Flag(j.need, s.queue[0]) && !Flag(s.released, s.queue[0]) && !Flag(s.filled, s.queue[0])
    ensures Running(j, f)(s.(queue := s.queue[1..]), pops + multiset{s.queue[0]})
  {
    hide Set, Running, Applied;
    RanBefore(j, f, s, pops);
    Leave(j, f, s, s.(queue := s.queue[1..]), pops);
  }

  lemma RanBefore(j: Job, f: Ground, s: State, pops: multiset<nat>)
    requires Set(j, f) && Running(j, f)(s, pops) && s.queue != []
    requires Flag(j.need, s.queue[0]) && !Flag(s.released, s.queue[0]) && !Flag(s.filled, s.queue[0])
    ensures s.queue[0] in Applied(s) && (j.retain || !Flag(j.releasable, s.queue[0]))
  {
    var n := s.queue[0];
    Head(j, f, s, pops);
    if n !in pops { HasGradient(j, f, s, pops); }
  }

  /** Some root that nobody feeds is listed twice, is needed, and loses its data when it runs. */
  ghost predicate Repeats(j: Job, f: Ground, n: nat) {
    && multiset(j.roots)[n] >= 2 && Sum(f.reach, LinksTo(j.t, n)) == 0.0
    && Flag(j.need, n) && !j.retain && Flag(j.releasable, n)
  }

  lemma Aborts(j: Job, f: Ground, s: State, pops: multiset<nat>)
    requires Set(j, f) && Running(j, f)(s, pops) && s.queue != [] && Flag(s.released, s.queue[0])
    ensures Repeats(j, f, s.queue[0])
  {
    Head(j, f, s, pops);
    AppliedInside(j, f, s, pops);
  }

  /** If the queue runs empty without an abort, there was no such root. */
  lemma NoRepeat(j: Job, f: Ground, s: State, pops: multiset<nat>, n: nat)
    requires Set(j, f) && Running(j, f)(s, pops) && s.queue == []
    ensures !Repeats(j, f, n)
  {
    if multiset(j.roots)[n] >= 2 && Sum(f.reach, LinksTo(j.t, n)) == 0.0 {
      assert n in j.roots;
      NoLinks(j.t, f.reach, n);
      NoLinks(j.t, f.reach - Applied(s), n);
      assert DepOf(s, n) == 0 && Copies(j, f, n) >= 2 && pops[n] >= 2;
    }
  }

  // ----- running a node -----

  /** What running the head n does: row is what it saw, more is who joins the queue. */
  ghost predicate Runs(j: Job, s: State, s': State, n: nat, row: seq<real>, more: seq<nat>) {
    && s.queue != [] && n == s.queue[0] && n < |j.t.next| && s'.queue == s.queue[1..] + more
       && s'.log == s.log + [(n, row)]
    && |s'.dep| == |s.dep| && (forall m :: 0 <= m < |s.dep| ==> s'.dep[m] == s.dep[m] - Links(j.t.next[n], m))
    && (forall m :: 0 <= m < |s.dep| ==>
          multiset(more)[m] == if Links(j.t.next[n], m) > 0 && s.dep[m] == Links(j.t.next[n], m) then 1 else 0)
    && (forall m :: m in more ==> m < |s.dep|)
  }

  lemma RunQueued(j: Job, f: Ground, s: State, s': State, pops: multiset<nat>, n: nat, row: seq<real>, more: seq<nat>)
    requires Set(j, f) && Queued(j, f, s, pops) && Runs(j, s, s', n, row, more) && n !in Applied(s)
    ensures Queued(j, f, s', pops + multiset{n})
  {
    hide Set;
    RunCounts(j, f, s, s', pops, n, row, more);
    Head(j, f, s, pops);
    forall m | m in f.reach ensures multiset(s'.queue)[m] + (pops + multiset{n})[m] == if DepOf(s', m) == 0
        then Copies(j, f, m) else 0 {
      RunCopies(j, f, s, s', pops, n, row, more, m);
    }
    forall m | m in more ensures m in f.reach { NewInside(j, f, s, s', n, row, more, m); }
  }

  lemma RunCounts(j: Job, f: Ground, s: State, s': State, pops: multiset<nat>, n: nat, row: seq<real>, more: seq<nat>)
    requires Set(j, f) && Queued(j, f, s, pops) && Runs(j, s, s', n, row, more) && n !in Applied(s)
    ensures |s'.dep| == |j.t.next| && forall m :: 0 <= m < |s'.dep| ==>
            s'.dep[m] as real == Sum(f.reach - Applied(s'), LinksTo(j.t, m))
  {
    hide Set, Copies;
    Head(j, f, s, pops);
    AppliedMore(s, s', n, row);
    forall m | 0 <= m < |s'.dep| ensures s'.dep[m] as real == Sum(f.reach - Applied(s'), LinksTo(j.t, m)) {
      SumTake(f.reach - Applied(s), n, LinksTo(j.t, m));
      assert f.reach - Applied(s) - {n} == f.reach - Applied(s');
    }
  }

  lemma RunCopies(j: Job, f: Ground, s: State, s': State, pops: multiset<nat>, n: nat, row: seq<real>, more: seq<nat>,
                  m: nat)
    requires Set(j, f) && Queued(j, f, s, pops) && Runs(j, s, s', n, row, more) && n !in Applied(s) && m in f.reach
    requires |s'.dep| == |j.t.next| && forall i :: 0 <= i < |s'.dep| ==>
             s'.dep[i] as real == Sum(f.reach - Applied(s'), LinksTo(j.t, i))
    ensures multiset(s'.queue)[m] + (pops + multiset{n})[m] == if DepOf(s', m) == 0 then Copies(j, f, m) else 0
  {
    Head(j, f, s, pops);
    assert m < |s.dep|;
    NoLinks(j.t, f.reach - Applied(s), m);
    NoLinks(j.t, f.reach - Applied(s'), m);
    NoLinks(j.t, f.reach, m);
    LinksPositive(j.t.next[n], m);
    assert Links(j.t.next[n], m) > 0 ==> Feeds(j.t, n, m);
    hide Set, Sum;
    assert multiset(s'.queue) == multiset(s.queue[1..]) + multiset(more);
  }

  lemma NewInside(j: Job, f: Ground, s: State, s': State, n: nat, row: seq<real>, more: seq<nat>, m: nat)
    requires Set(j, f) && Runs(j, s, s', n, row, more) && m in more && n in f.reach
    ensures m in f.reach
  {
    LinksPositive(j.t.next[n], m);
    assert multiset(more)[m] > 0;
  }

  lemma RunLogged(j: Job, f: Ground, s: State, s': State, pops: multiset<nat>, n: nat, row: seq<real>)
    requires Logged(j, f, s, pops) && s'.log == s.log + [(n, row)] && n in f.reach && n !in pops && Flag(j.need, n)
             && row == Row(j, f, n)
    requires forall c :: c in f.reach && Feeds(j.t, c, n) ==> c in Applied(s)
    ensures Logged(j, f, s', pops + multiset{n})
  {
    hide Row, Feeds, Applied, Flag;
    AppliedMore(s, s', n, row);
    forall p, c | 0 <= p < |s'.log| && c in f.reach && Feeds(j.t, c, s'.log[p].0)
      ensures exists q :: 0 <= q < p && s'.log[q].0 == c
    {
      Earlier(j, f, s, s', pops, n, row, p, c);
    }
    forall p | 0 <= p < |s.log| ensures s.log[p].0 != n { assert s.log[p].0 in pops; }
  }

  lemma Earlier(j: Job, f: Ground, s: State, s': State, pops: multiset<nat>, n: nat, row: seq<real>, p: nat, c: nat)
    requires Logged(j, f, s, pops) && s'.log == s.log + [(n, row)] && p < |s'.log| && c in f.reach
             && Feeds(j.t, c, s'.log[p].0)
    requires Feeds(j.t, c, n) ==> c in Applied(s)
    ensures exists q :: 0 <= q < p && s'.log[q].0 == c
  {
    hide Row, Feeds;
    if p == |s.log| {
      var e :| e in s.log && e.0 == c;
      var q :| 0 <= q < |s.log| && s.log[q] == e;
      assert s'.log[q].0 == c;
    } else {
      assert Feeds(j.t, c, s.log[p].0);
      var q :| 0 <= q < p && s.log[q].0 == c;
      assert s'.log[q].0 == c;
    }
  }

  /** What running n does to the buffers. */
  ghost predicate Pours(j: Job, s: State, s': State, n: nat, g: seq<real>) {
    && n < |j.t.next| == |s.grads| == |s'.grads| == |s.filled| == |s'.filled|
    && (forall m :: 0 <= m < |s.grads| ==> |s'.grads[m]| == |s.grads[m]|)
    && (forall m, k :: 0 <= m < |s.grads| && m != n && 0 <= k < |s.grads[m]| ==>
       s'.grads[m][k] == s.grads[m][k] + Sent(j.t.next[n], g, m, k))
    && (forall m :: 0 <= m < |s.filled| && m != n ==> (s'.filled[m] <==> s.filled[m] || Feeds(j.t, n, m)))
    && !s'.filled[n]
  }

  lemma RunBuffered(j: Job, f: Ground, s: State, s': State, pops: multiset<nat>, n: nat, row: seq<real>, more: seq<nat>)
    requires Set(j, f) && Queued(j, f, s, pops) && Buffered(j, f, s, pops) && Runs(j, s, s', n, row, more)
             && n !in Applied(s) && row == Row(j, f, n)
    requires Pours(j, s, s', n, j.t.backward(n, row))
    ensures Buffered(j, f, s', pops + multiset{n})
  {
    AppliedMore(s, s', n, row);
    forall m, k | m in f.reach && m !in pops + multiset{n} && 0 <= k < Slots(j, m)
      ensures GradOf(s', m, k) == f.seed(m, k) + Sum(Applied(s'), SentTo(j, f, m, k))
    {
      assert m != n && m !in pops && m < |s.grads| && k < |s.grads[m]|;
      GradIs(j, f, s, pops, m, k);
      SumAdd(Applied(s), n, SentTo(j, f, m, k));
    }
    RunFilled(j, f, s, s', pops, n, row, more);
  }

  lemma RunFilled(j: Job, f: Ground, s: State, s': State, pops: multiset<nat>, n: nat, row: seq<real>, more: seq<nat>)
    requires Set(j, f) && Queued(j, f, s, pops) && Buffered(j, f, s, pops) && Runs(j, s, s', n, row, more)
             && n !in Applied(s)
    requires Pours(j, s, s', n, j.t.backward(n, row)) && Applied(s') == Applied(s) + {n}
    ensures forall m ::
              && m in f.reach && m !in pops + multiset{n}
              && (m in j.roots || exists c :: c in Applied(s') && Feeds(j.t, c, m)) ==>
                Flag(s'.filled, m)
    ensures forall m :: m in pops + multiset{n} && Flag(j.need, m) ==> !Flag(s'.filled, m)
  {
    hide Sum, SentTo, Sent, Applied, Feeds, Links, Queued, GradOf, Slots, Set, Buffered, Flag;
    Head(j, f, s, pops);
    assert !Flag(s'.filled, n) by { Emptied(s'.filled, n); }
    forall m | m in f.reach && m !in pops + multiset{n}
        && (m in j.roots || exists c :: c in Applied(s') && Feeds(j.t, c, m))
      ensures Flag(s'.filled, m)
    {
      assert m != n && m !in pops;
      if m !in j.roots && !(exists c :: c in Applied(s) && Feeds(j.t, c, m)) { assert Feeds(j.t, n, m); }
      RunFills(j, f, s, s', pops, n, row, m);
    }
    forall m | m in pops && m != n && Flag(j.need, m)
      ensures !Flag(s'.filled, m)
    {
      RunEmpties(j, f, s, s', pops, n, row, m);
    }
  }

  lemma Emptied(filled: seq<bool>, n: nat)
    requires n < |filled| && !filled[n]
    ensures !Flag(filled, n)
  {
  }

  lemma RunFills(j: Job, f: Ground, s: State, s': State, pops: multiset<nat>, n: nat, row: seq<real>, m: nat)
    requires Set(j, f) && Buffered(j, f, s, pops) && Pours(j, s, s', n, j.t.backward(n, row)) && m in f.reach
             && m != n && m !in pops
    requires m in j.roots || (exists c :: c in Applied(s) && Feeds(j.t, c, m)) || Feeds(j.t, n, m)
    ensures Flag(s'.filled, m)
  {
    hide Sum, SentTo, Sent, Applied, Feeds, GradOf, Slots;
  }

  /** A buffer that has been emptied gets nothing more. */
  lemma RunEmpties(j: Job, f: Ground, s: State, s': State, pops: multiset<nat>, n: nat, row: seq<real>, m: nat)
    requires Set(j, f) && Queued(j, f, s, pops) && Buffered(j, f, s, pops) && n !in Applied(s) && n in f.reach
    requires Pours(j, s, s', n, j.t.backward(n, row)) && m in pops && m != n && Flag(j.need, m)
    ensures !Flag(s'.filled, m)
  {
    hide Sum, SentTo, Sent, Applied, Feeds, GradOf, Slots;
    assert DepOf(s, m) == 0 && m < |s.dep|;
    NobodyLeft(j, f, s, pops, m);
  }

  lemma RunFreed(j: Job, f: Ground, s: State, s': State, pops: multiset<nat>, n: nat, row: seq<real>)
    requires Freed(j, s, pops) && s'.log == s.log + [(n, row)] && n < |s.released| && n !in pops
    requires s'.released == if !j.retain && Flag(j.releasable, n) then s.released[n := true] else s.released
    requires n !in Applied(s)
    ensures Freed(j, s', pops + multiset{n})
  {
    AppliedMore(s, s', n, row);
  }

  lemma RunCaught(j: Job, f: Ground, s: State, s': State, n: nat, row: seq<real>)
    requires Set(j, f) && Caught(j, f, s) && s'.log == s.log + [(n, row)] && n < |j.captures| && row == Row(j, f, n)
             && |s'.captured| == |s.captured|
    requires forall k: nat, idx: nat :: (k, idx) in j.captures[n] && idx < |s.captured| ==>
             k < |row| && s'.captured[idx] == Some(row[k])
    requires forall idx: nat :: idx < |s.captured| && (forall k: nat :: (k, idx) !in j.captures[n]) ==>
             s'.captured[idx] == s.captured[idx]
    ensures Caught(j, f, s')
  {
    AppliedMore(s, s', n, row);
    hide Adjoint, Applied;
    forall m: nat, k: nat, idx: nat | m < |j.captures| && (k, idx) in j.captures[m] && idx < |s'.captured|
      ensures s'.captured[idx] == if m in Applied(s') then Some(Adjoint(j.t, f.level, f.top, f.reach, f.seed, m, k))
              else None
    {
      if m == n {
        assert row[k] == Adjoint(j.t, f.level, f.top, f.reach, f.seed, n, k);
      } else {
        assert forall l: nat :: (l, idx) !in j.captures[n];
      }
    }
  }

  /** FunctionNode::Apply and what GraphTask does after it. */
  method Execute(j: Job, s: State, ghost f: Ground, ghost pops: multiset<nat>) returns (s': State)
    requires s.queue != [] && s.queue[0] !in pops && Flag(j.need, s.queue[0]) && Set(j, f) && Running(j, f)(s, pops)
    ensures Running(j, f)(s', pops + multiset{s.queue[0]}) && |s'.captured| == |s.captured|
  {
    hide Set, Running, Row;
    var n := s.queue[0];
    Ready(j, f, s, pops);
    var row := s.grads[n];
    var g := j.t.backward(n, row);
    var grads, filled := PushGrads(j.t.next[n], g, s.grads, s.filled);
    var captured := Capture(j.captures[n], row, s.captured);
    grads, filled := grads[n := seq(|grads[n]|, _ => 0.0)], filled[n := false];
    var released := if !j.retain && Flag(j.releasable, n) then s.released[n := true] else s.released;
    var dep, more := CountDown(j.t.next[n], s.dep, s.queue);
    s' := State(s.queue[1..] + more, dep, grads, filled, released, captured, s.log + [(n, row)]);
    assert Pours(j, s, s', n, g);
    Ran(j, f, s, s', pops, n, row, more);
  }

  /** Everything the application needs holds at the head of the queue. */
  lemma Ready(j: Job, f: Ground, s: State, pops: multiset<nat>)
    requires s.queue != [] && s.queue[0] !in pops && Flag(j.need, s.queue[0]) && Set(j, f) && Running(j, f)(s, pops)
    ensures var n := s.queue[0];
            && n < |j.t.next| == |s.dep| == |s.grads| == |s.filled| == |s.released| == |j.captures| && n in f.reach
               && n !in Applied(s)
            && s.grads[n] == Row(j, f, n)
            && |j.t.backward(n, s.grads[n])| == |j.t.next[n]|
            && (forall i :: 0 <= i < |j.t.next[n]| ==>
               j.t.next[n][i].to < |s.grads| && j.t.next[n][i].slot < |s.grads[j.t.next[n][i].to]|
                   && j.t.next[n][i].to != n)
            && (forall m :: 0 <= m < |s.dep| ==> s.dep[m] >= Links(j.t.next[n], m))
            && (forall p :: p in j.captures[n] ==> p.0 < |s.grads[n]|)
            && (forall k: nat, l: nat, idx: nat :: (k, idx) in j.captures[n] && (l, idx) in j.captures[n] ==> k == l)
  {
    var n := s.queue[0];
    Head(j, f, s, pops);
    SeesAdjoint(j, f, s, pops);
    AppliedInside(j, f, s, pops);
    hide Logged, Freed, Caught, Adjoint, Row, Copies;
    forall m | 0 <= m < |s.dep| ensures s.dep[m] >= Links(j.t.next[n], m) {
      NoLinks(j.t, f.reach - Applied(s) - {n}, m);
      SumTake(f.reach - Applied(s), n, LinksTo(j.t, m));
    }
    forall p | p in j.captures[n] ensures p.0 < |s.grads[n]| { assert (p.0, p.1) in j.captures[n]; }
  }

  lemma Ran(j: Job, f: Ground, s: State, s': State, pops: multiset<nat>, n: nat, row: seq<real>, more: seq<nat>)
    requires Runs(j, s, s', n, row, more) && Pours(j, s, s', n, j.t.backward(n, row)) && row == Row(j, f, n)
    requires n !in pops && n in f.reach && n !in Applied(s) && Flag(j.need, n) && n < |j.captures| && n < |s.released|
    requires s'.released == (if !j.retain && Flag(j.releasable, n) then s.released[n := true] else s.released)
             && |s'.captured| == |s.captured|
    requires forall k: nat, idx: nat :: (k, idx) in j.captures[n] && idx < |s.captured| ==>
             k < |row| && s'.captured[idx] == Some(row[k])
    requires forall idx: nat :: idx < |s.captured| && (forall k: nat :: (k, idx) !in j.captures[n]) ==>
             s'.captured[idx] == s.captured[idx]
    requires Set(j, f) && Running(j, f)(s, pops)
    ensures Running(j, f)(s', pops + multiset{n})
  {
    hide Set, Queued, Logged, Buffered, Freed, Caught, Pours, Row, Applied;
    HeadDone(j, f, s, pops);
    RunQueued(j, f, s, s', pops, n, row, more);
    RunLogged(j, f, s, s', pops, n, row);
    RunBuffered(j, f, s, s', pops, n, row, more);
    RunFreed(j, f, s, s', pops, n, row);
    RunCaught(j, f, s, s', n, row);
  }

  lemma HeadDone(j: Job, f: Ground, s: State, pops: multiset<nat>)
    requires Set(j, f) && Queued(j, f, s, pops) && s.queue != []
    ensures forall c :: c in f.reach && Feeds(j.t, c, s.queue[0]) ==> c in Applied(s)
  {
    Head(j, f, s, pops);
    NobodyLeft(j, f, s, pops, s.queue[0]);
  }

  // ----- the whole run -----

  /** The roots nobody feeds, in order, as often as they are listed. */
  method StartQueue(roots: seq<nat>, dep: seq<int>) returns (queue: seq<nat>)
    requires forall n :: n in roots ==> n < |dep|
    ensures forall n: nat :: multiset(queue)[n] == if n < |dep| && dep[n] == 0 then multiset(roots)[n] else 0
  {
    queue := [];
    for i := 0 to |roots|
      invariant forall n: nat :: multiset(queue)[n] == if n < |dep| && dep[n] == 0 then multiset(roots[..i])[n] else 0
    {
      assert roots[i] in roots && roots[..i + 1] == roots[..i] + [roots[i]];
      if dep[roots[i]] == 0 { queue := queue + [roots[i]]; }
    }
    assert roots[..|roots|] == roots;
  }

  /** The buffers before the run: the seeds, at the roots. */
  ghost predicate Seeded(j: Job, f: Ground, s: State) {
    && s.log == [] && |s.grads| == |s.filled| == |s.released| == |j.t.next|
    && (forall n :: 0 <= n < |s.grads| ==> |s.grads[n]| == Slots(j, n))
    && (forall n, k :: 0 <= n < |s.grads| && 0 <= k < Slots(j, n) ==> s.grads[n][k] == f.seed(n, k))
    && (forall n :: n in j.roots ==> Flag(s.filled, n))
    && (forall n :: 0 <= n < |s.released| ==> !s.released[n])
    && (forall idx :: 0 <= idx < |s.captured| ==> s.captured[idx] == None)
  }

  lemma Starts(j: Job, f: Ground, s: State)
    requires Set(j, f) && Seeded(j, f, s) && Counts(j.t, f.reach, s.dep)
    requires forall n: nat :: multiset(s.queue)[n] == if n < |s.dep| && s.dep[n] == 0 then multiset(j.roots)[n] else 0
    ensures Running(j, f)(s, multiset{})
  {
    hide Set, Queued, Logged, Buffered, Freed, Caught;
    assert Applied(s) == {};
    StartsQueued(j, f, s);
    StartsBuffered(j, f, s);
    StartsRest(j, f, s);
  }

  lemma StartsQueued(j: Job, f: Ground, s: State)
    requires Set(j, f) && s.log == [] && Counts(j.t, f.reach, s.dep) && Applied(s) == {}
    requires forall n: nat :: multiset(s.queue)[n] == if n < |s.dep| && s.dep[n] == 0 then multiset(j.roots)[n] else 0
    ensures Queued(j, f, s, multiset{})
  {
    hide Sum;
    assert f.reach - {} == f.reach;
    forall n | n in s.queue ensures n in f.reach { assert multiset(s.queue)[n] > 0 && n in j.roots; }
    forall n | n in f.reach ensures multiset(s.queue)[n] == if DepOf(s, n) == 0 then Copies(j, f, n) else 0 {
      assert n < |s.dep| && s.dep[n] as real == Sum(f.reach, LinksTo(j.t, n));
    }
  }

  lemma StartsBuffered(j: Job, f: Ground, s: State)
    requires Set(j, f) && Seeded(j, f, s) && Applied(s) == {}
    ensures Buffered(j, f, s, multiset{})
  {
    hide SentTo;
  }

  lemma StartsRest(j: Job, f: Ground, s: State)
    requires Seeded(j, f, s) && Applied(s) == {}
    ensures Logged(j, f, s, multiset{}) && Freed(j, s, multiset{}) && Caught(j, f, s)
  {
    hide Adjoint, Row;
  }

  /** What a finished run has done. */
  ghost predicate Completed(j: Job, f: Ground, s: State) {
    // every reachable node that is needed ran, and nothing else did
    && (forall n :: n in Applied(s) <==> n in f.reach && Flag(j.need, n))
    // once
    && (forall p, q :: 0 <= p < q < |s.log| ==> s.log[p].0 != s.log[q].0)
    // after all its reachable consumers
    && (forall p, c :: 0 <= p < |s.log| && c in f.reach && Feeds(j.t, c, s.log[p].0) ==>
       exists q :: 0 <= q < p && s.log[q].0 == c)
    // on its adjoint
    && (forall p :: 0 <= p < |s.log| ==> s.log[p].1 == Row(j, f, s.log[p].0))
    // and the captured gradients are the adjoints of what was captured
    && Caught(j, f, s)
  }

  /** Nobody is left waiting: a needed node that has not run waits for another one, of a higher
      level, and so on without end. */
  lemma {:induction false} AllRan(j: Job, f: Ground, s: State, pops: multiset<nat>, n: nat)
    requires Set(j, f) && Queued(j, f, s, pops) && Logged(j, f, s, pops) && s.queue == [] && n in f.reach
             && Flag(j.need, n)
    ensures n in Applied(s)
    decreases f.top - LevelOf(f.level, n)
  {
    if n !in Applied(s) {
      assert n !in pops && DepOf(s, n) != 0 by { WaitsNot(j, f, s, pops, n); }
      NoLinks(j.t, f.reach - Applied(s), n);
      var c :| c in f.reach - Applied(s) && Feeds(j.t, c, n);
      assert f.level[n] < f.level[c] && Flag(j.need, c);
      AllRan(j, f, s, pops, c);
    }
  }

  lemma WaitsNot(j: Job, f: Ground, s: State, pops: multiset<nat>, n: nat)
    requires Set(j, f) && Queued(j, f, s, pops) && Logged(j, f, s, pops) && s.queue == [] && n in f.reach
             && Flag(j.need, n) && n !in Applied(s)
    ensures n !in pops && DepOf(s, n) != 0
  {
    Fed(j.t, j.roots, f.reach, n);
    NoLinks(j.t, f.reach, n);
    assert n in j.roots ==> multiset(j.roots)[n] > 0;
    assert Copies(j, f, n) > 0;
  }

  lemma Completes(j: Job, f: Ground, s: State, pops: multiset<nat>)
    requires Set(j, f) && Running(j, f)(s, pops) && s.queue == []
    ensures Completed(j, f, s)
  {
    AppliedInside(j, f, s, pops);
    forall n | n in f.reach && Flag(j.need, n) ensures n in Applied(s) { AllRan(j, f, s, pops, n); }
    hide Set, Queued, Buffered, Freed, Row, Adjoint;
  }

  /** GraphTask::Apply; it fails exactly when a root that nobody feeds is listed twice and has
      lost its data before its second turn. */
  method Apply(j: Job, s0: State, ghost f: Ground) returns (ok: bool, s: State)
    requires Set(j, f) && Seeded(j, f, s0) && Counts(j.t, f.reach, s0.dep)
    ensures ok <==> forall n :: !Repeats(j, f, n)
    ensures ok ==> Completed(j, f, s) && |s.captured| == |s0.captured|
  {
    hide Set, Running, Completed, Repeats, Counts;
    RootsIn(j, f, s0);
    var queue := StartQueue(j.roots, s0.dep);
    s := s0.(queue := queue);
    Starts(j, f, s);
    ghost var pops: multiset<nat>, gone: set<nat> := multiset{}, {};
    while s.queue != []
      invariant |s.captured| == |s0.captured| && Running(j, f)(s, pops) && gone <= f.reach
                && forall n :: n in gone <==> n in pops
      decreases f.reach - gone, |s.queue|
    {
      var n := s.queue[0];
      HeadIn(j, f, s, pops);
      ghost var was := pops;
      if !Flag(j.need, n) {
        Drop(j, f, s, pops);
        s := Dropped(j, s);
      } else if Flag(s.released, n) {
        Aborts(j, f, s, pops);
        ok := false;
        return;
      } else if !Flag(s.filled, n) {
        Again(j, f, s, pops);
        s := s.(queue := s.queue[1..]);
      } else {
        FirstTime(j, f, s, pops);
        s := Execute(j, s, f, pops);
      }
      pops, gone := pops + multiset{n}, gone + {n};
    }
    ok := true;
    forall n ensures !Repeats(j, f, n) { NoRepeat(j, f, s, pops, n); }
    Completes(j, f, s, pops);
  }

  lemma RootsIn(j: Job, f: Ground, s: State)
    requires Set(j, f) && Counts(j.t, f.reach, s.dep)
    ensures forall n :: n in j.roots ==> n < |s.dep|
  {
  }

  lemma HeadIn(j: Job, f: Ground, s: State, pops: multiset<nat>)
    requires Set(j, f) && Running(j, f)(s, pops) && s.queue != []
    ensures s.queue[0] in f.reach
  {
    Head(j, f, s, pops);
  }

  lemma FirstTime(j: Job, f: Ground, s: State, pops: multiset<nat>)
    requires Running(j, f)(s, pops) && s.queue != [] && Flag(j.need, s.queue[0]) && Flag(s.filled, s.queue[0])
    ensures s.queue[0] !in pops
  {
  }

  // ----- a run that fails -----

  /** One function node without next functions, whose data is released once it has run. */
  ghost function OneNode(): Job { Job(Tape([[]], [1], (c, grads) => []), [0, 0], [true], [[]], false, [true]) }

  ghost function OneGround(): Ground { Ground([0], 0, {0}, (n, k) => 0.0) }

  ghost function OneState(): State { State([], [0], [[0.0]], [true], [false], [], []) }

  /** Listed as a root twice, it is queued twice, and the second time its data is gone. */
  lemma RootListedTwice()
    ensures Set(OneNode(), OneGround()) && Seeded(OneNode(), OneGround(), OneState())
            && Counts(OneNode().t, OneGround().reach, OneState().dep)
    ensures Repeats(OneNode(), OneGround(), 0)
  {
    hide Set, Seeded, Counts, Repeats;
    OneSet();
    OneSeeded();
    OneCounts();
  }

  lemma OneSet()
    ensures Set(OneNode(), OneGround())
  {
    OneReach();
    hide IsReach;
    assert !Feeds(OneNode().t, 0, 0);
  }

  lemma OneSeeded()
    ensures Seeded(OneNode(), OneGround(), OneState())
  {
  }

  lemma OneCounts()
    ensures Counts(OneNode().t, {0}, [0]) && Repeats(OneNode(), OneGround(), 0)
  {
    NoLinks(OneNode().t, {0}, 0);
    hide Sum, LinksTo;
    assert !Feeds(OneNode().t, 0, 0);
    assert multiset(OneNode().roots)[0] == 2;
  }

  lemma OneReach()
    ensures IsReach(OneNode().t, [0, 0], {0})
  {
    forall u | Closed(OneNode().t, [0, 0], u) ensures {0} <= u { assert 0 in [0, 0]; }
  }
}
