/** BinarySet: a set of the numbers below a size, packed into words of 32 bits. */
module BinarySet {
  import opened BinaryWords

  type Words = seq<bv32>

  predicate Has(s: Words, i: nat) { i / 32 < |s| && Bit(s[i / 32], i % 32) }

  /** The set that the words stand for. */
  ghost function Members(s: Words): set<nat> { set i: nat | i < 32 * |s| && Has(s, i) }

  /** One word for nothing at all: the division of the constructor truncates. */
  function WordsFor(size: nat): nat { if size == 0 then 1 else (size - 1) / 32 + 1 }

  ghost predicate Fits(s: Words, size: nat) { |s| == WordsFor(size) && forall i: nat :: Has(s, i) ==> i < size }

  // ----- sequences in ascending order -----

  ghost predicate Ascending(q: seq<nat>) { forall i, j :: 0 <= i < j < |q| ==> q[i] < q[j] }

  /** q lists the numbers of s in ascending order. */
  ghost predicate Lists(q: seq<nat>, s: set<nat>) { Ascending(q) && forall i :: i in q <==> i in s }

  lemma {:induction false} ListsUnique(p: seq<nat>, q: seq<nat>, s: set<nat>)
    requires Lists(p, s) && Lists(q, s)
    ensures p == q && |p| == |s|
    decreases |p|
  {
    if p == [] {
      assert forall i :: i in s ==> i in p;
      assert s == {};
      EmptyList(q);
    } else {
      assert p[|p| - 1] in p && q != [];
      LastOfBoth(p, q, s);
      ButLast(p, s);
      ButLast(q, s);
      ListsUnique(p[..|p| - 1], q[..|q| - 1], s - {p[|p| - 1]});
    }
  }

  lemma EmptyList(q: seq<nat>)
    ensures q == [] || exists i :: i in q
  {
    if q != [] { assert q[0] in q; }
  }

  lemma AppendAscending(q: seq<nat>, e: nat)
    requires Ascending(q) && forall i :: i in q ==> i < e
    ensures Ascending(q + [e])
  {
    forall k | 0 <= k < |q| ensures q[k] < e { assert q[k] in q; }
  }

  lemma LastOfBoth(p: seq<nat>, q: seq<nat>, s: set<nat>)
    requires Lists(p, s) && Lists(q, s) && p != [] && q != []
    ensures p[|p| - 1] == q[|q| - 1]
  {
    assert p[|p| - 1] in p && q[|q| - 1] in q;
    var i :| 0 <= i < |q| && q[i] == p[|p| - 1];
    var j :| 0 <= j < |p| && p[j] == q[|q| - 1];
  }

  lemma ButLast(p: seq<nat>, s: set<nat>)
    requires Lists(p, s) && p != []
    ensures Lists(p[..|p| - 1], s - {p[|p| - 1]}) && p[|p| - 1] in s && p == p[..|p| - 1] + [p[|p| - 1]]
  {
    var front, last := p[..|p| - 1], p[|p| - 1];
    assert p == front + [last] && last in p;
    forall i | i in front ensures i != last { var k :| 0 <= k < |front| && front[k] == i; }
  }

  // ----- what changing a word does to the set -----

  lemma AddIs(s: Words, i: nat)
    requires i / 32 < |s|
    ensures Members(s[i / 32 := Either(s[i / 32], Mask(i % 32))]) == Members(s) + {i}
    ensures Members(s[i / 32 := Without(s[i / 32], Mask(i % 32))]) == Members(s) - {i}
  {
    hide Bit, Mask, Either, Without;
    forall n: nat | n / 32 == i / 32
      ensures Bit(Either(s[i / 32], Mask(i % 32)), n % 32) <==> n == i || Has(s, n)
      ensures Bit(Without(s[i / 32], Mask(i % 32)), n % 32) <==> n != i && Has(s, n)
    {
      SetBit(s[i / 32], i % 32, n % 32);
    }
  }

  lemma NoneIn(s: Words)
    requires forall k :: 0 <= k < |s| ==> s[k] == 0
    ensures Members(s) == {} && forall i: nat :: !Has(s, i)
  {
    hide Bit;
    forall i: nat | i / 32 < |s| ensures !Has(s, i) { NoBit(i % 32); }
  }

  lemma MembersHas(s: Words, i: nat)
    ensures i in Members(s) <==> Has(s, i)
  {
    hide Bit;
  }

  class BinarySet {
    var values: Words
    var size: nat

    ghost predicate Valid()
      reads this
    {
      Fits(values, size)
    }

    ghost function View(): set<nat>
      reads this
    {
      Members(values)
    }

    constructor (n: nat)
      ensures Valid() && size == n && View() == {}
    {
      values, size := seq(WordsFor(n), _ => 0), n;
      new;
      NoneIn(values);
    }

    method Clear()
      requires Valid()
      modifies this`values
      ensures Valid() && View() == {}
    {
      values := seq(|values|, _ => 0);
      NoneIn(values);
    }

    method CheckExistence(i: nat) returns (b: bool)
      requires Valid() && i < size
      ensures b <==> i in View()
    {
      hide Bit, Members;
      b := One(values[i / 32], i % 32) == 1;
      CheckBit(values[i / 32], i % 32);
      MembersHas(values, i);
    }

    method AddEntry(i: nat)
      requires Valid() && i < size
      modifies this`values
      ensures Valid() && View() == old(View()) + {i}
    {
      hide Bit, Mask, Either;
      AddIs(values, i);
      values := values[i / 32 := Either(values[i / 32], Mask(i % 32))];
      FitsMembers(old(values), values, size, {i});
    }

    method DeleteEntry(i: nat)
      requires Valid() && i < size
      modifies this`values
      ensures Valid() && View() == old(View()) - {i}
    {
      hide Bit, Mask, Without;
      AddIs(values, i);
      values := values[i / 32 := Without(values[i / 32], Mask(i % 32))];
      FitsMembers(old(values), values, size, {});
    }

    // the second operand is given by its words; u or i may be this very set

    method UnionTo(bs: Words, u: BinarySet)
      requires Valid() && u.Valid() && size == u.size && Fits(bs, size)
      modifies u`values
      ensures u.Valid() && u.View() == old(View()) + Members(bs)
    {
      hide Bit, Either, Fits;
      ghost var s := values;
      SameLength(s, bs, u.values, size);
      for k := 0 to |bs|
        invariant |values| == |bs| == |u.values|
        invariant forall l :: 0 <= l < k ==> u.values[l] == Either(s[l], bs[l])
        invariant forall l :: k <= l < |bs| ==> values[l] == s[l]
      {
        u.values := u.values[k := Either(values[k], bs[k])];
      }
      PairIs(s, bs, u.values, size);
    }

    /** For sets of any sizes: ok is false where the loop would read past the end of bs, which happens
        exactly when this set has more words. Words of i beyond those of this set stay. */
    method IntersectionTo(bs: Words, i: BinarySet) returns (ok: bool)
      modifies i`values
      ensures ok <==> |old(values)| <= |bs|
      ensures i.values == if ok then Intersected(old(values), bs, old(i.values)) else old(i.values)
      ensures ok ==> i.View() == old(View()) * Members(bs) + Beyond(old(i.values), |old(values)|)
      ensures old(Valid() && i.Valid() && size == i.size) && Fits(bs, size) ==>
              ok && i.Valid() && i.View() == old(View()) * Members(bs)
    {
      hide Bit, Both, Members, Has, Beyond;
      if Fits(values, size) && Fits(i.values, i.size) && size == i.size && Fits(bs, size) {
        OneSize(values, bs, i.values, size);
      }
      ok := |values| <= |bs|;
      if !ok { return; }
      ghost var s, u := values, i.values;
      IntersectedIs(s, bs, u);
      var least := if |values| < |bs| then |values| else |bs|;
      if least > |i.values| { i.values := i.values + seq(least - |i.values|, _ => 0); }
      for k := 0 to |values|
        invariant |values| == |s| <= |i.values| == |Intersected(s, bs, u)| && (i != this ==> values == s)
        invariant forall l :: 0 <= l < k ==> i.values[l] == Both(s[l], bs[l])
        invariant forall l :: k <= l < |s| ==> values[l] == s[l]
        invariant forall l :: |s| <= l < |i.values| ==> i.values[l] == u[l]
      {
        i.values := i.values[k := Both(values[k], bs[k])];
      }
      assert i.values == Intersected(s, bs, u);
    }

    method IfIntersect(bs: Words) returns (b: bool)
      ensures b <==> View() * Members(bs) != {}
    {
      b := MeetsWords(values, bs);
    }

    method Total() returns (t: nat)
      ensures t == |View()|
    {
      hide PopCount, Members, Below;
      t := 0;
      BelowAll(values);
      for k := 0 to |values|
        invariant t == |Below(values, 32 * k)|
      {
        PopCountIs(values[k]);
        BelowWord(values, k, 32);
        t := t + PopCount(values[k]) as int;
      }
    }

    method Output() returns (out: seq<nat>)
      requires Valid()
      ensures Lists(out, View())
    {
      hide Bit, Members, Has;
      out := [];
      for i := 0 to size
        invariant Ascending(out) && forall n: nat :: n in out <==> n < i && Has(values, n)
      {
        var b := CheckExistence(i);
        MembersHas(values, i);
        AppendAscending(out, i);
        if b { out := out + [i]; }
      }
      forall n: nat ensures n in out <==> n in View() { MembersHas(values, n); }
    }

    /** The same as Output, one set bit at a time. */
    method QuickOutput() returns (out: seq<nat>)
      ensures Lists(out, View())
    {
      out := QuickWords(values);
    }

    method Equals(rhs: BinarySet) returns (b: bool)
      requires Valid() && rhs.Valid()
      ensures b <==> size == rhs.size && View() == rhs.View()
    {
      if size != rhs.size { return false; }
      hide Bit, Members;
      for i := 0 to |values|
        invariant forall k :: 0 <= k < i ==> values[k] == rhs.values[k]
      {
        if values[i] != rhs.values[i] {
          Differ(values, rhs.values, i);
          return false;
        }
      }
      assert values == rhs.values;
      return true;
    }
  }

  /** The words of the union or of the intersection. */
  lemma PairIs(s: Words, t: Words, u: Words, size: nat)
    requires Fits(s, size) && Fits(t, size) && |u| == |s|
    ensures (forall k :: 0 <= k < |s| ==> u[k] == Either(s[k], t[k])) ==>
            Members(u) == Members(s) + Members(t) && Fits(u, size)
    ensures (forall k :: 0 <= k < |s| ==> u[k] == Both(s[k], t[k])) ==>
            Members(u) == Members(s) * Members(t) && Fits(u, size)
  {
    hide Bit, Either, Both;
    forall n: nat | n / 32 < |s|
      ensures Bit(Either(s[n / 32], t[n / 32]), n % 32) <==> Has(s, n) || Has(t, n)
      ensures Bit(Both(s[n / 32], t[n / 32]), n % 32) <==> Has(s, n) && Has(t, n)
    {
      BothBits(s[n / 32], t[n / 32], n % 32);
    }
  }

  /** What IntersectionTo leaves in the words of its result. */
  ghost function Intersected(s: Words, t: Words, u: Words): Words
    requires |s| <= |t|
  {
    seq(if |s| > |u| then |s| else |u|,
        k requires 0 <= k < (if |s| > |u| then |s| else |u|) => if k < |s| then Both(s[k], t[k]) else u[k])
  }

  /** The members in the words from n on. */
  ghost function Beyond(s: Words, n: nat): set<nat> { set i | i in Members(s) && i / 32 >= n }

  lemma IntersectedIs(s: Words, t: Words, u: Words)
    requires |s| <= |t|
    ensures Members(Intersected(s, t, u)) == Members(s) * Members(t) + Beyond(u, |s|)
  {
    hide Bit, Both;
    var r := Intersected(s, t, u);
    forall n: nat ensures Has(r, n) <==> (Has(s, n) && Has(t, n)) || (Has(u, n) && n / 32 >= |s|) {
      if n / 32 < |s| { BothBits(s[n / 32], t[n / 32], n % 32); }
    }
    forall n: nat ensures n in Members(r) <==> n in Members(s) * Members(t) + Beyond(u, |s|) {
      MembersHas(r, n);
      MembersHas(s, n);
      MembersHas(t, n);
      MembersHas(u, n);
    }
  }

  /** So it is the intersection exactly when the result held nothing further on. */
  lemma IntersectionWhen(s: Words, t: Words, u: Words)
    requires |s| <= |t|
    ensures Members(Intersected(s, t, u)) == Members(s) * Members(t) <==> Beyond(u, |s|) == {}
  {
    hide Bit, Intersected;
    IntersectedIs(s, t, u);
    forall n | n in Beyond(u, |s|) ensures n !in Members(s) { MembersHas(s, n); }
  }

  /** Two empty sets of one word each, and a result that still holds 32. */
  lemma StaleResult()
    ensures Members(Intersected([0], [0], [0, 1])) != Members([0]) * Members([0])
  {
    hide Intersected, Members;
    var u: Words := [0, 1];
    FirstBit();
    MembersHas(u, 32);
    assert 32 in Beyond(u, 1);
    IntersectionWhen([0], [0], u);
  }

  lemma FirstBit()
    ensures Has([0, 1], 32)
  {
  }

  lemma OneSize(s: Words, t: Words, u: Words, size: nat)
    requires Fits(s, size) && Fits(t, size) && Fits(u, size)
    ensures |s| == |t| == |u| && Fits(Intersected(s, t, u), size) && Beyond(u, |s|) == {}
  {
    hide Bit, Both;
    SameLength(s, t, u, size);
    PairIs(s, t, Intersected(s, t, u), size);
  }

  lemma SameLength(s: Words, t: Words, u: Words, size: nat)
    requires Fits(s, size) && Fits(t, size) && Fits(u, size)
    ensures |s| == |t| == |u|
  {
  }

  method MeetsWords(s: Words, t: Words) returns (b: bool)
    ensures b <==> Members(s) * Members(t) != {}
  {
    hide Bit, Members, Both;
    var n := if |s| < |t| then |s| else |t|;
    for k := 0 to n
      invariant forall l :: 0 <= l < k ==> Both(s[l], t[l]) == 0
    {
      if Both(s[k], t[k]) != 0 {
        ghost var j := Lowest(Both(s[k], t[k]));
        BothBits(s[k], t[k], j);
        MembersHas(s, 32 * k + j);
        MembersHas(t, 32 * k + j);
        assert 32 * k + j in Members(s) * Members(t);
        return true;
      }
    }
    Apart(s, t, n);
    return false;
  }

  lemma Apart(s: Words, t: Words, n: nat)
    requires n <= |s| && n <= |t| && (n == |s| || n == |t|) && forall l :: 0 <= l < n ==> Both(s[l], t[l]) == 0
    ensures Members(s) * Members(t) == {}
  {
    hide Bit, Both;
    forall i: nat ensures !(Has(s, i) && Has(t, i)) {
      if i / 32 < n {
        BothBits(s[i / 32], t[i / 32], i % 32);
        NoBit(i % 32);
      }
    }
  }

  // ----- counting -----

  ghost function Below(s: Words, n: nat): set<nat> { set i: nat | i < n && Has(s, i) }

  lemma BelowNext(s: Words, n: nat)
    ensures |Below(s, n + 1)| == |Below(s, n)| + if Has(s, n) then 1 else 0
  {
    hide Has;
    if Has(s, n) {
      assert Below(s, n + 1) == Below(s, n) + {n};
    } else {
      assert Below(s, n + 1) == Below(s, n);
    }
  }

  lemma {:induction false} BelowWord(s: Words, k: nat, j: nat)
    requires k < |s| && j <= 32
    ensures |Below(s, 32 * k + j)| == |Below(s, 32 * k)| + Count(s[k], j)
    decreases j
  {
    hide Bit, Below;
    if j > 0 {
      BelowWord(s, k, j - 1);
      BelowNext(s, 32 * k + j - 1);
    }
  }

  lemma BelowAll(s: Words)
    ensures Below(s, 0) == {} && Below(s, 32 * |s|) == Members(s)
  {
    hide Has;
  }

  // ----- one word of QuickOutput -----

  method QuickWords(s: Words) returns (out: seq<nat>)
    ensures Lists(out, Members(s))
  {
    hide Bit, Members;
    out := [];
    for i := 0 to |s|
      invariant Ascending(out) && forall n: nat :: n in out <==> n < 32 * i && Has(s, n)
    {
      out := WordOutput(s[i], i, out);
    }
    forall n: nat ensures n in out <==> n in Members(s) { MembersHas(s, n); }
  }

  ghost function BitsOf(w: bv32): set<nat> { set j: nat | j < 32 && Bit(w, j) }

  method WordOutput(w: bv32, i: nat, out: seq<nat>) returns (out': seq<nat>)
    requires Ascending(out) && forall n :: n in out ==> n < 32 * i
    ensures Ascending(out') && forall n :: n in out' <==> n in out || (n / 32 == i && Bit(w, n % 32))
  {
    out' := out;
    var x := w;
    Untaken(w, i, out);
    while x != 0
      invariant Ascending(out') && Taken(w, x, i, out, out')
      decreases BitsOf(x)
    {
      hide Bit, Drop, Mask, Without, BitsOf, Taken, Position;
      PositionIs(x);
      DropBits(x, Position(x));
      TakeBit(w, x, i, out, out', Position(x));
      out' := out' + [32 * i + Position(x)];
      x := Drop(x);
    }
    forall j: nat | j < 32 ensures !Bit(0, j) { NoBit(j); }
  }

  /** out' has the bits of w that x has lost; those that x still has come later. */
  ghost predicate Taken(w: bv32, x: bv32, i: nat, out: seq<nat>, out': seq<nat>) {
    && (forall n: nat :: n in out' <==> n in out || (n / 32 == i && Bit(w, n % 32) && !Bit(x, n % 32)))
    && (forall j: nat :: j < 32 && Bit(x, j) ==> Bit(w, j))
    && (forall j: nat, n: nat :: j < 32 && Bit(x, j) && n in out' ==> n < 32 * i + j)
  }

  lemma Untaken(w: bv32, i: nat, out: seq<nat>)
    requires forall n :: n in out ==> n < 32 * i
    ensures Taken(w, w, i, out, out)
  {
    hide Bit;
  }

  lemma DropBits(x: bv32, j: nat)
    requires x != 0 && j < 32 && Bit(x, j) && Drop(x) == Without(x, Mask(j))
    ensures BitsOf(Drop(x)) < BitsOf(x) && forall k: nat :: k < 32 ==> (Bit(Drop(x), k) <==> k != j && Bit(x, k))
  {
    hide Bit, Drop, Mask, Without;
    forall k: nat | k < 32 ensures Bit(Drop(x), k) <==> k != j && Bit(x, k) { SetBit(x, j, k); }
    assert j in BitsOf(x) && j !in BitsOf(Drop(x));
  }

  lemma TakeBit(w: bv32, x: bv32, i: nat, out: seq<nat>, out': seq<nat>, j: nat)
    requires Ascending(out') && Taken(w, x, i, out, out') && j < 32 && Bit(x, j)
             && (forall k :: 0 <= k < j ==> !Bit(x, k))
    requires forall k: nat :: k < 32 ==> (Bit(Drop(x), k) <==> k != j && Bit(x, k))
    ensures Ascending(out' + [32 * i + j]) && Taken(w, Drop(x), i, out, out' + [32 * i + j])
  {
    hide Bit, Drop;
    var more := out' + [32 * i + j];
    assert (32 * i + j) / 32 == i && (32 * i + j) % 32 == j;
    forall n: nat ensures n in more <==> n in out' || n == 32 * i + j {}
    forall n: nat | n / 32 == i && n % 32 == j ensures n == 32 * i + j {}
    AppendAscending(out', 32 * i + j);
  }

  lemma Differ(s: Words, t: Words, k: nat)
    requires k < |s| == |t| && s[k] != t[k]
    ensures Members(s) != Members(t)
  {
    hide Bit, Members;
    if forall j :: 0 <= j < 32 ==> (Bit(s[k], j) <==> Bit(t[k], j)) { SameBits(s[k], t[k]); }
    var j: nat :| j < 32 && Bit(s[k], j) != Bit(t[k], j);
    MembersHas(s, 32 * k + j);
    MembersHas(t, 32 * k + j);
  }

  lemma FitsMembers(s: Words, t: Words, size: nat, more: set<nat>)
    requires Fits(s, size) && |t| == |s| && Members(t) <= Members(s) + more && forall i :: i in more ==> i < size
    ensures Fits(t, size)
  {
    hide Bit, Has;
    forall i: nat | Has(t, i) ensures i < size {
      MembersHas(t, i);
      MembersHas(s, i);
    }
  }
}
