/** Finite sums of real costs over sets of ids and over sequences of ids. */
module Sums {

  /** The sum of f over a finite set. */
  ghost function Sum(s: set<nat>, f: nat -> real): real
  {
    if s == {} then 0.0 else
      var i :| i in s;
      f(i) + Sum(s - {i}, f)
  }

  /** The sum does not depend on the element taken first. */
  lemma {:induction false} SumTake(s: set<nat>, i: nat, f: nat -> real)
    requires i in s
    ensures Sum(s, f) == f(i) + Sum(s - {i}, f)
    decreases s
  {
    var j :| j in s && Sum(s, f) == f(j) + Sum(s - {j}, f);
    if j != i {
      SumTake(s - {j}, i, f);
      SumTake(s - {i}, j, f);
      assert s - {i} - {j} == s - {j} - {i};
    }
  }

  lemma SumAdd(s: set<nat>, i: nat, f: nat -> real)
    requires i !in s
    ensures Sum(s + {i}, f) == f(i) + Sum(s, f)
  {
    SumTake(s + {i}, i, f);
    assert s + {i} - {i} == s;
  }

  lemma {:induction false} SumSame(s: set<nat>, f: nat -> real, g: nat -> real)
    requires forall i :: i in s ==> f(i) == g(i)
    ensures Sum(s, f) == Sum(s, g)
    decreases s
  {
    if s != {} {
      var i :| i in s;
      SumTake(s, i, f);
      SumTake(s, i, g);
      SumSame(s - {i}, f, g);
    }
  }

  lemma {:induction false} SumLeq(s: set<nat>, f: nat -> real, g: nat -> real)
    requires forall i :: i in s ==> f(i) <= g(i)
    ensures Sum(s, f) <= Sum(s, g)
    decreases s
  {
    if s != {} {
      var i :| i in s;
      SumTake(s, i, f);
      SumTake(s, i, g);
      SumLeq(s - {i}, f, g);
    }
  }

  lemma {:induction false} SumNonNegative(s: set<nat>, f: nat -> real)
    requires forall i :: i in s ==> 0.0 <= f(i)
    ensures 0.0 <= Sum(s, f)
    decreases s
  {
    if s != {} {
      var i :| i in s;
      SumTake(s, i, f);
      SumNonNegative(s - {i}, f);
    }
  }

  /** One non-negative term never exceeds the whole sum. */
  lemma SumTermLeq(s: set<nat>, i: nat, f: nat -> real)
    requires i in s
    requires forall j :: j in s ==> 0.0 <= f(j)
    ensures f(i) <= Sum(s, f)
  {
    SumTake(s, i, f);
    SumNonNegative(s - {i}, f);
  }

  /** Changing the value at one element changes the sum by the difference. */
  lemma SumChange(s: set<nat>, i: nat, f: nat -> real, g: nat -> real)
    requires i in s
    requires forall j :: j in s && j != i ==> f(j) == g(j)
    ensures Sum(s, g) == Sum(s, f) - f(i) + g(i)
  {
    SumTake(s, i, f);
    SumTake(s, i, g);
    SumSame(s - {i}, f, g);
  }

  /** Two terms make way for a third. */
  lemma SumSwap(s: set<nat>, a: nat, b: nat, c: nat, f: nat -> real, g: nat -> real)
    requires a in s && b in s && a != b && c !in s
    requires forall j :: j in s && j != a && j != b ==> f(j) == g(j)
    ensures Sum(s - {a} - {b} + {c}, g) == Sum(s, f) - f(a) - f(b) + g(c)
  {
    SumTake(s, a, f);
    SumTake(s - {a}, b, f);
    SumAdd(s - {a} - {b}, c, g);
    SumSame(s - {a} - {b}, f, g);
  }

  lemma {:induction false} SumUnion(s: set<nat>, t: set<nat>, f: nat -> real)
    requires s !! t
    ensures Sum(s + t, f) == Sum(s, f) + Sum(t, f)
    decreases t
  {
    if t == {} {
      assert s + t == s;
    } else {
      var i :| i in t;
      SumTake(t, i, f);
      SumTake(s + t, i, f);
      assert s + t - {i} == s + (t - {i});
      SumUnion(s, t - {i}, f);
    }
  }

  ghost function Scaled(c: real, f: nat -> real): nat -> real { (i: nat) => Times(c, f(i)) }

  ghost function Times(c: real, x: real): real { c * x }

  lemma TimesSum(c: real, x: real, y: real)
    ensures Times(c, x + y) == Times(c, x) + Times(c, y)
  {
  }

  lemma {:induction false} SumScaled(s: set<nat>, c: real, f: nat -> real)
    ensures Sum(s, Scaled(c, f)) == Times(c, Sum(s, f))
    decreases s
  {
    if s != {} {
      hide Times;
      var i :| i in s;
      SumTake(s, i, f);
      SumTake(s, i, Scaled(c, f));
      SumScaled(s - {i}, c, f);
      TimesSum(c, f(i), Sum(s - {i}, f));
    }
  }

  /** The elements of a sequence of ids. */
  function Elems<T(==)>(q: seq<T>): set<T> { set i | i in q }

  /** The first n numbers. */
  ghost function FirstN(n: nat): (s: set<nat>)
    ensures |s| == n && forall i :: i in s <==> 0 <= i < n
  {
    if n == 0 then {} else FirstN(n - 1) + {n - 1}
  }

  lemma NoLarger<T>(b: set<T>, a: set<T>)
    requires b <= a
    ensures |b| <= |a|
  {
    assert a == b + (a - b);
  }

  ghost predicate Distinct<T>(q: seq<T>) {
    forall i, j :: 0 <= i < j < |q| ==> q[i] != q[j]
  }

  /** The sum of f along a sequence of ids, accumulated from the front. */
  ghost function SeqSum(q: seq<nat>, f: nat -> real): real
  {
    if q == [] then 0.0 else SeqSum(q[..|q| - 1], f) + f(q[|q| - 1])
  }

  lemma {:induction false} SeqSumIsSum(q: seq<nat>, f: nat -> real)
    requires Distinct(q)
    ensures SeqSum(q, f) == Sum(Elems(q), f)
    decreases |q|
  {
    if q != [] {
      var p, l := q[..|q| - 1], q[|q| - 1];
      SeqSumIsSum(p, f);
      assert q == p + [l];
      assert Elems(q) == Elems(p) + {l};
      assert l !in Elems(p);
      SumAdd(Elems(p), l, f);
    } else {
      assert Elems(q) == {};
    }
  }
}
