/** The recorded graph a backward pass walks: function nodes, their next functions, and the
    gradients that flow along them. */
module Tape {
  import opened Sums

  /** One entry of next_functions: it feeds output slot of node to. */
  datatype Link = Link(to: nat, slot: nat)

  /** next_functions of every node, the number of its outputs, and its backward function, which
      turns the gradients of its outputs into one gradient for each next function.  Gradients are
      reals: only their sums matter. */
  datatype Tape = Tape(next: seq<seq<Link>>, slots: seq<nat>, backward: (nat, seq<real>) -> seq<real>)

  /** Links stay inside, and every link leads to a lower level: there is no cycle. */
  ghost predicate Acyclic(t: Tape, level: seq<nat>) {
    && |t.slots| == |t.next| == |level|
    && forall c, i :: 0 <= c < |t.next| && 0 <= i < |t.next[c]| ==>
         t.next[c][i].to < |t.next| && t.next[c][i].slot < t.slots[t.next[c][i].to] && level[t.next[c][i].to] < level[c]
  }

  /** Contains the roots and everything next to its members. */
  ghost predicate Closed(t: Tape, roots: seq<nat>, s: set<nat>) {
    && (forall n :: n in roots ==> n in s)
    && forall c, i :: c in s && c < |t.next| && 0 <= i < |t.next[c]| ==> t.next[c][i].to in s
  }

  /** The nodes reachable from the roots: the least such set. */
  ghost predicate IsReach(t: Tape, roots: seq<nat>, s: set<nat>) {
    Closed(t, roots, s) && forall u :: Closed(t, roots, u) ==> s <= u
  }

  ghost predicate Feeds(t: Tape, c: nat, n: nat) {
    c < |t.next| && exists i :: 0 <= i < |t.next[c]| && t.next[c][i].to == n
  }

  /** A reachable node is a root or next to a reachable node. */
  lemma Fed(t: Tape, roots: seq<nat>, s: set<nat>, n: nat)
    requires IsReach(t, roots, s) && n in s
    ensures n in roots || exists c :: c in s && Feeds(t, c, n)
  {
    if n !in roots && forall c :: c in s ==> !Feeds(t, c, n) {
      forall c, i | c in s - {n} && c < |t.next| && 0 <= i < |t.next[c]| ensures t.next[c][i].to in s - {n} {
        assert !Feeds(t, c, n);
      }
      assert Closed(t, roots, s - {n});
    }
  }

  lemma ReachBound(t: Tape, roots: seq<nat>, s: set<nat>, level: seq<nat>)
    requires IsReach(t, roots, s) && Acyclic(t, level) && forall n :: n in roots ==> n < |t.next|
    ensures forall n :: n in s ==> n < |t.next|
  {
    assert Closed(t, roots, FirstN(|t.next|));
  }

  // ----- counting links -----

  /** How many of the links lead to n. */
  ghost function Links(links: seq<Link>, n: nat): nat {
    if links == [] then 0 else Links(links[..|links| - 1], n) + (if links[|links| - 1].to == n then 1 else 0)
  }

  /** The number of links from c to n. */
  ghost function LinksTo(t: Tape, n: nat): nat -> real {
    (c: nat) => if c < |t.next| then Links(t.next[c], n) as real else 0.0
  }

  lemma {:induction false} LinksPositive(links: seq<Link>, n: nat)
    ensures Links(links, n) > 0 <==> exists i :: 0 <= i < |links| && links[i].to == n
    decreases |links|
  {
    if links != [] {
      var k := |links| - 1;
      LinksPositive(links[..k], n);
      if exists i :: 0 <= i < |links| && links[i].to == n {
        var i :| 0 <= i < |links| && links[i].to == n;
        if i < k { assert links[..k][i].to == n; }
      }
    }
  }

  /** Nothing in s feeds n exactly when the links from s to n add up to nothing. */
  lemma NoLinks(t: Tape, s: set<nat>, n: nat)
    ensures 0.0 <= Sum(s, LinksTo(t, n))
    ensures Sum(s, LinksTo(t, n)) == 0.0 <==> forall c :: c in s ==> !Feeds(t, c, n)
  {
    var f := LinksTo(t, n);
    SumNonNegative(s, f);
    forall c | c in s && Feeds(t, c, n) ensures Sum(s, f) > 0.0 {
      LinksPositive(t.next[c], n);
      SumTermLeq(s, c, f);
    }
    if forall c :: c in s ==> !Feeds(t, c, n) {
      forall c | c in s ensures f(c) == 0.0 { if c < |t.next| { LinksPositive(t.next[c], n); } }
      SumSame(s, f, (c: nat) => 0.0);
      SumZero(s);
    }
  }

  lemma {:induction false} SumZero(s: set<nat>)
    ensures Sum(s, (c: nat) => 0.0) == 0.0
    decreases s
  {
    if s != {} {
      var i :| i in s;
      SumTake(s, i, (c: nat) => 0.0);
      SumZero(s - {i});
    }
  }

  // ----- the adjoint -----

  /** What the links of one node send to slot k of n, given the gradients of its inputs. */
  ghost function Sent(links: seq<Link>, grads: seq<real>, n: nat, k: nat): real {
    if links == [] then 0.0 else
      var i := |links| - 1;
      Sent(links[..i], grads, n, k) + (if links[i] == Link(n, k) && i < |grads| then grads[i] else 0.0)
  }

  ghost function LevelOf(level: seq<nat>, n: nat): nat { if n < |level| then level[n] else 0 }

  /** The gradient of output k of n: its seed, and what every reachable consumer sends. */
  ghost function Adjoint(t: Tape, level: seq<nat>, top: nat, reach: set<nat>, seed: (nat, nat) -> real, n: nat,
                         k: nat): real
    decreases top - LevelOf(level, n), 1
  {
    seed(n, k) + Sum(reach, Shares(t, level, top, reach, seed, n, k))
  }

  ghost function Shares(t: Tape, level: seq<nat>, top: nat, reach: set<nat>, seed: (nat, nat) -> real, n: nat,
                        k: nat): nat -> real
    decreases top - LevelOf(level, n), 0
  {
    (c: nat) =>
      if c < |t.next| && LevelOf(level, n) < LevelOf(level, c) <= top
      then Sent(t.next[c], t.backward(c, AdjointRow(t, level, top, reach, seed, c)), n, k) else 0.0
  }

  ghost function AdjointRow(t: Tape, level: seq<nat>, top: nat, reach: set<nat>, seed: (nat, nat) -> real,
                            c: nat): seq<real>
    decreases top - LevelOf(level, c), 2
  {
    seq(if c < |t.slots| then t.slots[c] else 0, k requires 0 <= k => Adjoint(t, level, top, reach, seed, c, k))
  }
}
