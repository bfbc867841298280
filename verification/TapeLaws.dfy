/** What the adjoint is, said of the links alone. */
module TapeLaws {
  import opened Sums
  import opened Tape
  import opened TapeApply

  /** The positions of the links that lead to slot k of n. */
  ghost function Places(links: seq<Link>, n: nat, k: nat): set<nat> {
    set i: nat | i < |links| && links[i] == Link(n, k)
  }

  ghost function Given(grads: seq<real>): nat -> real { (i: nat) => if i < |grads| then grads[i] else 0.0 }

  /** What a node sends to an output is the sum of its gradients along all links to that output. */
  lemma {:induction false} SentIs(links: seq<Link>, grads: seq<real>, n: nat, k: nat)
    ensures Sent(links, grads, n, k) == Sum(Places(links, n, k), Given(grads))
    decreases |links|
  {
    var all := Places(links, n, k);
    if links == [] {
      assert all == {};
    } else {
      var i := |links| - 1;
      SentIs(links[..i], grads, n, k);
      var less := Places(links[..i], n, k);
      if links[i] == Link(n, k) {
        assert all == less + {i};
        SumAdd(less, i, Given(grads));
      } else {
        assert all == less;
      }
    }
  }

  /** The positions of the links that lead to n. */
  ghost function PlacesTo(links: seq<Link>, n: nat): set<nat> { set i: nat | i < |links| && links[i].to == n }

  /** How many links lead to a node. */
  lemma {:induction false} LinksIs(links: seq<Link>, n: nat)
    ensures Links(links, n) == |PlacesTo(links, n)|
    decreases |links|
  {
    if links == [] {
      assert PlacesTo(links, n) == {};
    } else {
      var k := |links| - 1;
      LinksIs(links[..k], n);
      if links[k].to == n {
        assert PlacesTo(links, n) == PlacesTo(links[..k], n) + {k};
      } else {
        assert PlacesTo(links, n) == PlacesTo(links[..k], n);
      }
    }
  }

  /** The gradient that c has for its ith next function. */
  ghost function Gradient(j: Job, f: Ground, c: nat, i: nat): real {
    Given(j.t.backward(c, Row(j, f, c)))(i)
  }

  lemma {:induction false} SumOfOne(s: set<nat>, c: nat, f: nat -> real)
    requires c in s && forall d :: d in s && d != c ==> f(d) == 0.0
    ensures Sum(s, f) == f(c)
  {
    SumTake(s, c, f);
    SumSame(s - {c}, f, (d: nat) => 0.0);
    SumZero(s - {c});
  }

  lemma {:induction false} SumOfEqual(s: set<nat>, f: nat -> real, x: real)
    requires forall i :: i in s ==> f(i) == x
    ensures Sum(s, f) == |s| as real * x
    decreases s
  {
    if s != {} {
      var i :| i in s;
      SumTake(s, i, f);
      SumOfEqual(s - {i}, f, x);
      assert |s - {i}| == |s| - 1;
    }
  }

  /** What every node sends along its links to slot k of n. */
  ghost function AlongLinks(j: Job, f: Ground, n: nat, k: nat): nat -> real {
    (c: nat) =>
      if c < |j.t.next| then Sum(Places(j.t.next[c], n, k), Given(j.t.backward(c, Row(j, f, c)))) else 0.0
  }

  /** The adjoint is the seed plus one gradient for every link from a reachable node; each node has
      turned the adjoints of its own outputs into these gradients. */
  lemma AdjointOfLinks(j: Job, f: Ground, n: nat, k: nat)
    requires Set(j, f) && n in f.reach && k < Slots(j, n)
    ensures |Row(j, f, n)| == Slots(j, n) && Row(j, f, n)[k] == f.seed(n, k) + Sum(f.reach, AlongLinks(j, f, n, k))
  {
    hide SentTo, Sent, Adjoint, IsReach;
    AdjointIs(j, f, n, k);
    forall c | c in f.reach ensures SentTo(j, f, n, k)(c) == AlongLinks(j, f, n, k)(c) { SentToIs(j, f, n, k, c); }
    SumSame(f.reach, SentTo(j, f, n, k), AlongLinks(j, f, n, k));
  }

  /** Nobody but c, among the reachable nodes, has a link to slot k of n. */
  ghost predicate OnlyFrom(j: Job, f: Ground, c: nat, n: nat, k: nat) {
    forall d, i :: d in f.reach && d < |j.t.next| && 0 <= i < |j.t.next[d]| && j.t.next[d][i] == Link(n, k) ==> d == c
  }

  lemma NothingFrom(j: Job, f: Ground, d: nat, c: nat, n: nat, k: nat)
    requires Set(j, f) && d in f.reach && d != c && OnlyFrom(j, f, c, n, k)
    ensures SentTo(j, f, n, k)(d) == 0.0
  {
    hide IsReach, Sent;
    var links := j.t.next[d];
    SentIs(links, j.t.backward(d, Row(j, f, d)), n, k);
    assert Places(links, n, k) == {};
  }

  /** With one consumer, the adjoint is the seed plus that consumer's gradients along its links. */
  lemma OneConsumer(j: Job, f: Ground, c: nat, n: nat, k: nat)
    requires Set(j, f) && n in f.reach && c in f.reach && OnlyFrom(j, f, c, n, k)
    ensures c < |j.t.next|
    ensures Adjoint(j.t, f.level, f.top, f.reach, f.seed, n, k)
            == f.seed(n, k) + Sum(Places(j.t.next[c], n, k), Given(j.t.backward(c, Row(j, f, c))))
  {
    hide Adjoint, SentTo, Sent, OnlyFrom;
    AdjointIs(j, f, n, k);
    forall d | d in f.reach && d != c ensures SentTo(j, f, n, k)(d) == 0.0 { NothingFrom(j, f, d, c, n, k); }
    SumOfOne(f.reach, c, SentTo(j, f, n, k));
    SentToIs(j, f, n, k, c);
  }

  lemma SentToIs(j: Job, f: Ground, n: nat, k: nat, c: nat)
    requires c < |j.t.next|
    ensures SentTo(j, f, n, k)(c) == Sum(Places(j.t.next[c], n, k), Given(j.t.backward(c, Row(j, f, c))))
  {
    SentIs(j.t.next[c], j.t.backward(c, Row(j, f, c)), n, k);
  }

  /** With one link, the adjoint is the seed plus the gradient along it. */
  lemma OneLink(j: Job, f: Ground, c: nat, i: nat, n: nat, k: nat)
    requires Set(j, f) && n in f.reach && c in f.reach && c < |j.t.next| && OnlyFrom(j, f, c, n, k)
    requires i < |j.t.next[c]| && forall p :: 0 <= p < |j.t.next[c]| ==> (j.t.next[c][p] == Link(n, k) <==> p == i)
    ensures Adjoint(j.t, f.level, f.top, f.reach, f.seed, n, k) == f.seed(n, k) + j.t.backward(c, Row(j, f, c))[i]
  {
    hide Adjoint, OnlyFrom, Row;
    OneConsumer(j, f, c, n, k);
    assert Places(j.t.next[c], n, k) == {i};
    SumOfOne({i}, i, Given(j.t.backward(c, Row(j, f, c))));
  }

  /** m links with the same gradient add it m times. */
  lemma ManyLinks(j: Job, f: Ground, c: nat, n: nat, k: nat, x: real)
    requires Set(j, f) && n in f.reach && c in f.reach && c < |j.t.next| && OnlyFrom(j, f, c, n, k)
    requires forall i :: i in Places(j.t.next[c], n, k) ==> j.t.backward(c, Row(j, f, c))[i] == x
    ensures Adjoint(j.t, f.level, f.top, f.reach, f.seed, n, k)
            == f.seed(n, k) + |Places(j.t.next[c], n, k)| as real * x
  {
    hide Adjoint, OnlyFrom, Row;
    OneConsumer(j, f, c, n, k);
    SumOfEqual(Places(j.t.next[c], n, k), Given(j.t.backward(c, Row(j, f, c))), x);
  }

  /** Nobody leads to it: the adjoint is the seed. */
  lemma NoLink(j: Job, f: Ground, n: nat, k: nat)
    requires Set(j, f) && n in f.reach
    requires forall d, i :: d in f.reach && d < |j.t.next| && 0 <= i < |j.t.next[d]| ==> j.t.next[d][i] != Link(n, k)
    ensures Adjoint(j.t, f.level, f.top, f.reach, f.seed, n, k) == f.seed(n, k)
  {
    hide Adjoint, IsReach, Sent;
    AdjointIs(j, f, n, k);
    var g := SentTo(j, f, n, k);
    forall d | d in f.reach ensures g(d) == 0.0 {
      SentIs(j.t.next[d], j.t.backward(d, Row(j, f, d)), n, k);
      assert Places(j.t.next[d], n, k) == {};
    }
    SumSame(f.reach, g, (d: nat) => 0.0);
    SumZero(f.reach);
  }
}
