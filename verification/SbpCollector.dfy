/** SbpCollector: the sets of sbps that a proxy of a blob may hold, one for each way to serve
    all its consumers. Sets kept in containers are given by their words. */
module SbpCollector {
  import opened Sums
  import opened BinarySet

  /** Every consumer finds an sbp it accepts. */
  ghost predicate MeetsAll(consumers: seq<Words>, s: set<nat>) {
    forall k :: 0 <= k < |consumers| ==> s * Members(consumers[k]) != {}
  }

  ghost predicate NoTwo(groups: seq<Words>, s: set<nat>) {
    forall k :: 0 <= k < |groups| ==> |s * Members(groups[k])| < 2
  }

  ghost predicate AllFit(sets: seq<Words>, n: nat) { forall k :: 0 <= k < |sets| ==> Fits(sets[k], n) }

  // ----- the sbps that only one consumer accepts -----

  /** How many consumers accept i. */
  ghost function Hits(consumers: seq<Words>, i: nat): nat {
    if consumers == [] then 0 else
      var last := |consumers| - 1;
      Hits(consumers[..last], i) + if i in Members(consumers[last]) then 1 else 0
  }

  ghost predicate Unique(consumers: seq<Words>, s: set<nat>) { forall i: nat :: i in s <==> Hits(consumers, i) == 1 }

  lemma {:induction false} HitsIs(consumers: seq<Words>, i: nat)
    ensures Hits(consumers, i) == |set k: nat | k < |consumers| && i in Members(consumers[k])|
    decreases |consumers|
  {
    hide Members;
    var all := set k: nat | k < |consumers| && i in Members(consumers[k]);
    if consumers == [] {
      assert all == {};
    } else {
      var last := |consumers| - 1;
      HitsIs(consumers[..last], i);
      var less := set k: nat | k < last && i in Members(consumers[..last][k]);
      assert all == if i in Members(consumers[last]) then less + {last} else less;
    }
  }

  lemma {:induction false} HitsTwice(consumers: seq<Words>, i: nat, k: nat, l: nat)
    requires k < l < |consumers| && i in Members(consumers[k]) && i in Members(consumers[l])
    ensures Hits(consumers, i) >= 2
    decreases |consumers|
  {
    var last := |consumers| - 1;
    if l < last { HitsTwice(consumers[..last], i, k, l); } else { HitsOnce(consumers[..last], i, k); }
  }

  lemma {:induction false} HitsOnce(consumers: seq<Words>, i: nat, k: nat)
    requires k < |consumers| && i in Members(consumers[k])
    ensures Hits(consumers, i) >= 1
    decreases |consumers|
  {
    var last := |consumers| - 1;
    if k < last { HitsOnce(consumers[..last], i, k); }
  }

  lemma {:induction false} HitsNone(consumers: seq<Words>, i: nat)
    requires Hits(consumers, i) > 0
    ensures exists k :: 0 <= k < |consumers| && i in Members(consumers[k])
    decreases |consumers|
  {
    var last := |consumers| - 1;
    if i !in Members(consumers[last]) {
      HitsNone(consumers[..last], i);
      var k :| 0 <= k < last && i in Members(consumers[..last][k]);
      assert i in Members(consumers[k]);
    }
  }

  /** The groups are the sets of two or more sbps that the same single consumer accepts. */
  ghost predicate Grouped(consumers: seq<Words>, u: set<nat>, groups: seq<Words>) {
    FromOne(consumers, u, groups) && Complete(consumers, u, groups)
  }

  ghost predicate FromOne(consumers: seq<Words>, u: set<nat>, groups: seq<Words>) {
    forall g :: 0 <= g < |groups| ==>
        exists k :: 0 <= k < |consumers| && Members(groups[g]) == u * Members(consumers[k])
  }

  ghost predicate Complete(consumers: seq<Words>, u: set<nat>, groups: seq<Words>) {
    forall k :: 0 <= k < |consumers| && |u * Members(consumers[k])| >= 2 ==>
      exists g :: 0 <= g < |groups| && Members(groups[g]) == u * Members(consumers[k])
  }

  /** A consumer for every sbp of the choice, and one sbp for every consumer. */
  ghost predicate Chosen(consumers: seq<Words>, choice: seq<nat>) {
    |choice| == |consumers| && forall k :: 0 <= k < |consumers| ==> choice[k] in Members(consumers[k])
  }

  /** However the consumers choose, no two of their sbps belong to one group. */
  lemma ChoiceIsKept(consumers: seq<Words>, u: set<nat>, groups: seq<Words>, choice: seq<nat>)
    requires Unique(consumers, u) && Grouped(consumers, u, groups) && Chosen(consumers, choice)
    ensures MeetsAll(consumers, Elems(choice)) && NoTwo(groups, Elems(choice))
  {
    hide Members;
    forall k | 0 <= k < |consumers| ensures Elems(choice) * Members(consumers[k]) != {} {
      assert choice[k] in choice && choice[k] in Elems(choice) * Members(consumers[k]);
    }
    forall g | 0 <= g < |groups| ensures |Elems(choice) * Members(groups[g])| < 2 {
      var k :| 0 <= k < |consumers| && Members(groups[g]) == u * Members(consumers[k]);
      var both := Elems(choice) * Members(groups[g]);
      forall i | i in both ensures i == choice[k] { OnlyChoice(consumers, u, choice, k, i); }
      AtMostOne(both, choice[k]);
    }
  }

  lemma OnlyChoice(consumers: seq<Words>, u: set<nat>, choice: seq<nat>, k: nat, i: nat)
    requires Unique(consumers, u) && Chosen(consumers, choice) && k < |consumers| && i in u
             && i in Members(consumers[k]) && i in choice
    ensures i == choice[k]
  {
    hide Members;
    var l :| 0 <= l < |choice| && choice[l] == i;
    if l < k { HitsTwice(consumers, i, l, k); } else if k < l { HitsTwice(consumers, i, k, l); }
  }

  lemma AtMostOne(s: set<nat>, x: nat)
    requires forall i :: i in s ==> i == x
    ensures |s| < 2
  {
    if s != {} { assert s == {x}; }
  }

  // ----- what the search emits -----

  /** s is built on base from the rest, at most most in all, and passes both filters. */
  ghost predicate Wanted(consumers: seq<Words>, groups: seq<Words>, most: nat, base: set<nat>, rest: set<nat>,
                         s: set<nat>) {
    base <= s <= base + rest && 0 < |s| <= most && MeetsAll(consumers, s) && NoTwo(groups, s)
  }

  /** Each set the search wants once, and nothing else. */
  ghost predicate Emits(new': seq<Words>, n: nat, want: set<nat> -> bool) {
    && AllFit(new', n)
    && (forall i, j :: 0 <= i < j < |new'| ==> Members(new'[i]) != Members(new'[j]))
    && (forall i :: 0 <= i < |new'| ==> want(Members(new'[i])))
    && (forall s :: want(s) ==> exists i :: 0 <= i < |new'| && Members(new'[i]) == s)
  }

  ghost function AllWanted(consumers: seq<Words>, groups: seq<Words>, most: nat, base: set<nat>,
                           rest: set<nat>): set<nat> -> bool {
    s => Wanted(consumers, groups, most, base, rest, s)
  }

  /** ... those that are the base itself or have one of the sbps tried so far. */
  ghost function TriedWanted(consumers: seq<Words>, groups: seq<Words>, most: nat, base: set<nat>, rest: set<nat>,
                             tried: set<nat>): set<nat> -> bool {
    s => Wanted(consumers, groups, most, base, rest, s) && (s == base || s * tried != {})
  }

  lemma EmitsBoth(a: seq<Words>, b: seq<Words>, n: nat, p: set<nat> -> bool, q: set<nat> -> bool,
                  want: set<nat> -> bool)
    requires Emits(a, n, p) && Emits(b, n, q)
    requires forall s :: (want(s) <==> p(s) || q(s)) && !(p(s) && q(s))
    ensures Emits(a + b, n, want)
  {
    hide Members, Fits;
    forall i, j | 0 <= i < j < |a + b| ensures Members((a + b)[i]) != Members((a + b)[j]) {
      if i < |a| <= j {
        assert p(Members(a[i])) && q(Members(b[j - |a|]));
      }
    }
    forall s | want(s) ensures exists i :: 0 <= i < |a + b| && Members((a + b)[i]) == s {
      if p(s) {
        var i :| 0 <= i < |a| && Members(a[i]) == s;
        assert Members((a + b)[i]) == s;
      } else {
        var i :| 0 <= i < |b| && Members(b[i]) == s;
        assert Members((a + b)[|a| + i]) == s;
      }
    }
  }

  /** The sets with x as the first sbp tried are those the next call finds. */
  lemma TryNext(consumers: seq<Words>, groups: seq<Words>, most: nat, base: set<nat>, tried: set<nat>, x: nat,
                left: set<nat>, s: set<nat>)
    requires x !in base && x !in tried && x !in left && tried !! left && base !! tried && base !! left
    ensures var rest := tried + {x} + left;
            var p := TriedWanted(consumers, groups, most, base, rest, tried)(s);
            var q := AllWanted(consumers, groups, most, base + {x}, left)(s);
            && (TriedWanted(consumers, groups, most, base, rest, tried + {x})(s) <==> p || q) && !(p && q)
  {
    hide MeetsAll, NoTwo;
    var rest := tried + {x} + left;
    TriedMore(s, tried, x);
    if base <= s <= base + rest && x in s && s * tried == {} {
      forall i | i in s ensures i in base + {x} + left { assert i in tried ==> i in s * tried; }
    }
    if base + {x} <= s <= base + {x} + left {
      forall i | i in s ensures i !in tried {}
      assert s * tried == {};
    }
  }

  lemma TriedMore(s: set<nat>, tried: set<nat>, x: nat)
    ensures s * (tried + {x}) != {} <==> s * tried != {} || x in s
  {
    assert s * (tried + {x}) == s * tried + if x in s then {x} else {};
  }

  lemma TriedAll(consumers: seq<Words>, groups: seq<Words>, most: nat, base: set<nat>, rest: set<nat>, s: set<nat>)
    ensures TriedWanted(consumers, groups, most, base, rest, rest)(s) <==>
            AllWanted(consumers, groups, most, base, rest)(s)
  {
    hide MeetsAll, NoTwo;
    if base <= s <= base + rest && s != base {
      var i :| i in s && i !in base;
      assert i in s * rest;
    }
  }

  // ----- the operations -----

  method IfIntersectAll(consumers: seq<Words>, bs: BinarySet) returns (b: bool)
    ensures b <==> MeetsAll(consumers, bs.View())
  {
    hide Members;
    for k := 0 to |consumers|
      invariant forall l :: 0 <= l < k ==> bs.View() * Members(consumers[l]) != {}
    {
      var meets := bs.IfIntersect(consumers[k]);
      if !meets { return false; }
    }
    return true;
  }

  method No2SbpFromSameUniqueGroup(bs: BinarySet, groups: seq<Words>) returns (b: bool)
    requires bs.Valid() && AllFit(groups, bs.size)
    ensures b <==> NoTwo(groups, bs.View())
  {
    hide Members, Fits;
    var intersection := new BinarySet(bs.size);
    for k := 0 to |groups|
      invariant intersection.Valid() && intersection.size == bs.size
      invariant forall l :: 0 <= l < k ==> |bs.View() * Members(groups[l])| < 2
    {
      var _ := bs.IntersectionTo(groups[k], intersection);
      var t := intersection.Total();
      if t >= 2 { return false; }
    }
    return true;
  }

  ghost predicate AllZero(acc: seq<int>) { forall i :: 0 <= i < |acc| ==> acc[i] == 0 }

  /** all lists the sbps of all consumers, in the order of the hash set. */
  ghost predicate Covers(consumers: seq<Words>, all: seq<nat>, n: nat) {
    && AllFit(consumers, n) && Distinct(all) && (forall i :: i in all ==> i < n)
    && forall k, i :: 0 <= k < |consumers| && i in Members(consumers[k]) ==> i in all
  }

  lemma InRange(consumers: seq<Words>, all: seq<nat>, n: nat, k: nat, i: nat)
    requires Covers(consumers, all, n) && k < |consumers| && i in Members(consumers[k])
    ensures i < n
  {
    hide Members, Fits;
    assert i in all;
  }

  method CountSbps(consumers: seq<Words>, all: seq<nat>, acc: seq<int>) returns (acc': seq<int>)
    requires Covers(consumers, all, |acc|) && AllZero(acc)
    ensures |acc'| == |acc| && forall i: nat :: i < |acc| ==> acc'[i] == Hits(consumers, i)
  {
    hide Members, Fits;
    acc' := acc;
    assert consumers[..0] == [];
    for k := 0 to |consumers|
      invariant |acc'| == |acc| && forall i: nat :: i < |acc| ==> acc'[i] == Hits(consumers[..k], i)
    {
      var ids := QuickWords(consumers[k]);
      assert consumers[..k + 1][..k] == consumers[..k];
      ghost var before := acc';
      for j := 0 to |ids|
        invariant |acc'| == |acc|
        invariant forall i: nat :: i < |acc| ==> acc'[i] == before[i] + if i in ids[..j] then 1 else 0
      {
        assert ids[j] in ids && ids[..j + 1] == ids[..j] + [ids[j]];
        assert ids[j] !in ids[..j];
        InRange(consumers, all, |acc|, k, ids[j]);
        acc' := acc'[ids[j] := acc'[ids[j]] + 1];
      }
      assert ids[..|ids|] == ids;
    }
    assert consumers[..|consumers|] == consumers;
  }

  method FindUniqueSbpSets(consumers: seq<Words>, all: seq<nat>, acc: seq<int>, unique: BinarySet)
    returns (acc': seq<int>)
    requires unique.Valid() && unique.size == |acc| && unique.View() == {} && Covers(consumers, all, |acc|)
             && AllZero(acc)
    modifies unique`values
    ensures unique.Valid() && Unique(consumers, unique.View()) && acc' == acc
  {
    hide Members, Fits, Hits;
    acc' := CountSbps(consumers, all, acc);
    ghost var counts := acc';
    for j := 0 to |all|
      invariant unique.Valid() && |acc'| == |acc|
      invariant forall i: nat :: i < |acc| ==> acc'[i] == if i in all[..j] then 0 else counts[i]
      invariant forall i: nat :: i in unique.View() <==> i in all[..j] && Hits(consumers, i) == 1
    {
      assert all[j] in all && all[..j + 1] == all[..j] + [all[j]] && all[j] !in all[..j];
      if acc'[all[j]] == 1 { unique.AddEntry(all[j]); }
      acc' := acc'[all[j] := 0];
    }
    assert all[..|all|] == all;
    forall i: nat | Hits(consumers, i) > 0 ensures i in all { HitsNone(consumers, i); }
    assert acc' == acc;
  }

  method FindUniqueSbpGroups(consumers: seq<Words>, all: seq<nat>, acc: seq<int>, buffer: BinarySet)
    returns (acc': seq<int>, groups: seq<Words>, ghost u: set<nat>)
    requires buffer.Valid() && buffer.size == |acc| && Covers(consumers, all, |acc|) && AllZero(acc)
    modifies buffer`values
    ensures buffer.Valid() && buffer.View() == {} && acc' == acc
    ensures Unique(consumers, u) && Grouped(consumers, u, groups) && AllFit(groups, |acc|)
  {
    hide Members, Fits, Hits, Unique;
    var unique := new BinarySet(|acc|);
    acc' := FindUniqueSbpSets(consumers, all, acc, unique);
    u := unique.View();
    groups := [];
    for k := 0 to |consumers|
      invariant unique.Valid() && unique.size == |acc| && unique.View() == u && buffer.Valid() && AllFit(groups, |acc|)
      invariant Grouped(consumers[..k], u, groups)
    {
      var _ := unique.IntersectionTo(consumers[k], buffer);
      var t := buffer.Total();
      GroupMore(consumers, k, u, groups, buffer.values);
      if t >= 2 { groups := groups + [buffer.values]; }
    }
    assert consumers[..|consumers|] == consumers;
    buffer.Clear();
  }

  lemma GroupMore(consumers: seq<Words>, k: nat, u: set<nat>, groups: seq<Words>, both: Words)
    requires k < |consumers| && Grouped(consumers[..k], u, groups) && Members(both) == u * Members(consumers[k])
    ensures if |Members(both)| >= 2 then Grouped(consumers[..k + 1], u, groups + [both])
            else Grouped(consumers[..k + 1], u, groups)
  {
    hide Members, FromOne, Complete;
    var less, more := consumers[..k], consumers[..k + 1];
    assert more == less + [consumers[k]];
    GroupsFrom(less, more, u, groups, both);
    GroupsOf(less, more, u, groups, both);
  }

  lemma GroupsFrom(less: seq<Words>, more: seq<Words>, u: set<nat>, groups: seq<Words>, both: Words)
    requires FromOne(less, u, groups) && |more| == |less| + 1 && less == more[..|less|]
             && Members(both) == u * Members(more[|less|])
    ensures FromOne(more, u, groups + [both]) && FromOne(more, u, groups)
  {
    hide Members;
    forall g | 0 <= g < |groups| ensures exists l :: 0 <= l < |more| && Members(groups[g]) == u * Members(more[l]) {
      var l :| 0 <= l < |less| && Members(groups[g]) == u * Members(less[l]);
      assert less[l] == more[l];
    }
    forall g | 0 <= g < |groups + [both]|
      ensures exists l :: 0 <= l < |more| && Members((groups + [both])[g]) == u * Members(more[l])
    {
      if g < |groups| { assert (groups + [both])[g] == groups[g]; }
    }
  }

  lemma GroupsOf(less: seq<Words>, more: seq<Words>, u: set<nat>, groups: seq<Words>, both: Words)
    requires Complete(less, u, groups) && |more| == |less| + 1 && less == more[..|less|]
             && Members(both) == u * Members(more[|less|])
    ensures Complete(more, u, groups + [both]) && (|Members(both)| < 2 ==> Complete(more, u, groups))
  {
    hide Members;
    forall l | 0 <= l < |less| && |u * Members(more[l])| >= 2
      ensures exists g :: 0 <= g < |groups| && Members(groups[g]) == u * Members(more[l])
    {
      assert less[l] == more[l];
    }
    var groups' := groups + [both];
    forall l | 0 <= l < |more| && |u * Members(more[l])| >= 2
      ensures exists g :: 0 <= g < |groups'| && Members(groups'[g]) == u * Members(more[l])
    {
      if l < |less| {
        var g :| 0 <= g < |groups| && Members(groups[g]) == u * Members(more[l]);
        assert groups'[g] == groups[g];
      } else {
        assert groups'[|groups|] == both;
      }
    }
  }

  // ----- the search -----

  ghost predicate Counted(base: set<nat>, acc: seq<int>, order: seq<nat>, start: nat, depth: nat) {
    && Distinct(order) && start <= |order| && depth == |base|
    && (forall i :: i in order ==> i < |acc| && acc[i] == if i in base then 1 else 0)
    && base !! Elems(order[start..])
  }

  lemma CountedStart(consumers: seq<Words>, all: seq<nat>, acc: seq<int>)
    requires Covers(consumers, all, |acc|) && AllZero(acc)
    ensures Counted({}, acc, all, 0, 0)
  {
    hide Members, Fits;
  }

  lemma CountedNext(base: set<nat>, acc: seq<int>, order: seq<nat>, curr: nat, depth: nat)
    requires Counted(base, acc, order, curr, depth) && curr < |order|
    ensures var x := order[curr];
            && x < |acc| && acc[x] == 0 && x !in base
            && Counted(base + {x}, acc[x := 1], order, curr + 1, depth + 1)
               && Counted(base, acc, order, curr + 1, depth)
  {
    hide Elems, Distinct;
    OrderParts(order, curr, curr);
    var x := order[curr];
    assert x in order;
    assert |base + {x}| == |base| + 1;
  }

  class SbpCollector {
    const bsBuffer: BinarySet
    var accumulator: seq<int>

    ghost predicate Valid()
      reads this, bsBuffer
    {
      bsBuffer.Valid() && bsBuffer.size == |accumulator|
    }

    constructor (n: nat)
      ensures Valid() && fresh(bsBuffer) && |accumulator| == n && bsBuffer.View() == {} && AllZero(accumulator)
    {
      bsBuffer := new BinarySet(n);
      accumulator := seq(n, _ => 0);
    }

    /** The sbps in the buffer are the ones counted, and none of them is still to come. */
    ghost predicate Searching(order: seq<nat>, start: nat, depth: nat)
      reads this, bsBuffer
    {
      Valid() && Counted(bsBuffer.View(), accumulator, order, start, depth)
    }

    /** Every set that extends the buffer by the sbps from start on and passes both filters is
        emitted exactly once; both buffers are as before. */
    method DfsSbpSet(depth: nat, maxDepth: nat, order: seq<nat>, start: nat, consumers: seq<Words>,
                     groups: seq<Words>, candidates: seq<Words>)
      returns (candidates': seq<Words>, ghost new': seq<Words>)
      requires depth <= maxDepth && Searching(order, start, depth) && AllFit(groups, |accumulator|)
      modifies this`accumulator, bsBuffer`values
      ensures Searching(order, start, depth) && accumulator == old(accumulator)
              && bsBuffer.View() == old(bsBuffer.View())
      ensures candidates' == candidates + new'
      ensures Emits(new', |accumulator|, AllWanted(consumers, groups, maxDepth, bsBuffer.View(), Elems(order[start..])))
      decreases |order| - start
    {
      hide Members, Fits, Wanted, Emits, Counted, AllWanted, TriedWanted, Elems, MeetsAll, NoTwo;
      CountedFirst(bsBuffer.View(), accumulator, order, start, depth);
      ghost var base, n := bsBuffer.View(), |accumulator|;
      ghost var rest := Elems(order[start..]);
      candidates', new' := candidates, [];
      if depth > 0 {
        var a := IfIntersectAll(consumers, bsBuffer);
        if a {
          var b := No2SbpFromSameUniqueGroup(bsBuffer, groups);
          if b { candidates', new' := candidates + [bsBuffer.values], [bsBuffer.values]; }
        }
      }
      EmitsBase(consumers, groups, maxDepth, base, order, start, bsBuffer.values, n, new');
      if depth >= maxDepth {
        EmitsFull(consumers, groups, maxDepth, base, order, start, n, new');
        return;
      }
      for curr := start to |order|
        invariant Valid() && Counted(base, accumulator, order, curr, depth) && accumulator == old(accumulator)
                  && bsBuffer.View() == base
        invariant candidates' == candidates + new'
        invariant Emits(new', n, TriedWanted(consumers, groups, maxDepth, base, rest, Elems(order[start..curr])))
      {
        var x := order[curr];
        CountedNext(base, accumulator, order, curr, depth);
        assert base + {x} - {x} == base;
        ghost var sub;
        ghost var before := new';
        if accumulator[x] == 0 {
          bsBuffer.AddEntry(x);
          accumulator := accumulator[x := accumulator[x] + 1];
          candidates', sub := DfsSbpSet(depth + 1, maxDepth, order, curr + 1, consumers, groups, candidates');
          bsBuffer.DeleteEntry(x);
          accumulator := accumulator[x := accumulator[x] - 1];
          assert accumulator == old(accumulator);
          new' := new' + sub;
          assert candidates + before + sub == candidates + new';
          EmitsNext(consumers, groups, maxDepth, base, order, start, curr, n, before, sub);
        }
      }
      EmitsAll(consumers, groups, maxDepth, base, order, start, n, new');
    }

    /** The part of ProxySbpCandidate that decides what a proxy may hold. Whatever one sbp each
        consumer takes, if they are at most maxDepth different ones, the set of them is there. */
    method ProxyCandidates(maxDepth: nat, consumers: seq<Words>, all: seq<nat>) returns (candidates: seq<Words>)
      requires Valid() && AllZero(accumulator) && Covers(consumers, all, |accumulator|)
      modifies this`accumulator, bsBuffer`values
      ensures Valid() && bsBuffer.View() == {} && accumulator == old(accumulator)
      ensures forall i, j :: 0 <= i < j < |candidates| ==> Members(candidates[i]) != Members(candidates[j])
      ensures forall c :: c in candidates ==>
              && Members(c) <= Elems(all) && 0 < |Members(c)| <= maxDepth
              && MeetsAll(consumers, Members(c))
      ensures forall choice: seq<nat> :: Chosen(consumers, choice) && consumers != [] && |Elems(choice)| <= maxDepth ==>
                exists c :: c in candidates && Members(c) == Elems(choice)
    {
      hide Members, Fits, Hits, MeetsAll, NoTwo, Unique, Grouped, Chosen, Elems, Emits, Covers;
      var groups;
      ghost var u, new';
      accumulator, groups, u := FindUniqueSbpGroups(consumers, all, accumulator, bsBuffer);
      assert all[0..] == all;
      CountedStart(consumers, all, accumulator);
      candidates, new' := DfsSbpSet(0, maxDepth, all, 0, consumers, groups, []);
      assert candidates == new';
      EmittedAll(consumers, groups, maxDepth, all, |accumulator|, candidates);
      forall choice: seq<nat> | Chosen(consumers, choice) && consumers != [] && |Elems(choice)| <= maxDepth
        ensures exists c :: c in candidates && Members(c) == Elems(choice)
      {
        ChoiceIsKept(consumers, u, groups, choice);
        ChoiceInAll(consumers, all, choice, |accumulator|);
        EmittedOne(consumers, groups, maxDepth, all, |accumulator|, candidates, Elems(choice));
      }
    }
  }

  lemma OrderParts(order: seq<nat>, start: nat, curr: nat)
    requires Distinct(order) && start <= curr < |order|
    ensures var x, tried, left := order[curr], Elems(order[start..curr]), Elems(order[curr + 1..]);
            && Elems(order[start..]) == tried + {x} + left && Elems(order[curr..]) == {x} + left
               && Elems(order[start..curr + 1]) == tried + {x}
            && x in order && x !in tried && x !in left && tried !! left
  {
    assert order[start..] == order[start..curr] + [order[curr]] + order[curr + 1..];
    assert order[curr..] == [order[curr]] + order[curr + 1..];
    assert order[start..curr + 1] == order[start..curr] + [order[curr]];
  }

  lemma ChoiceInAll(consumers: seq<Words>, all: seq<nat>, choice: seq<nat>, n: nat)
    requires Covers(consumers, all, n) && Chosen(consumers, choice) && consumers != []
    ensures Elems(choice) <= Elems(all) && 0 < |Elems(choice)|
  {
    hide Members, Fits;
    assert choice[0] in Elems(choice);
  }

  lemma EmittedAll(consumers: seq<Words>, groups: seq<Words>, most: nat, all: seq<nat>, n: nat, candidates: seq<Words>)
    requires Emits(candidates, n, AllWanted(consumers, groups, most, {}, Elems(all)))
    ensures forall i, j :: 0 <= i < j < |candidates| ==> Members(candidates[i]) != Members(candidates[j])
    ensures forall c :: c in candidates ==>
            && Members(c) <= Elems(all) && 0 < |Members(c)| <= most
            && MeetsAll(consumers, Members(c))
  {
    hide Members, Fits, MeetsAll, NoTwo, Elems;
    forall c | c in candidates
      ensures Members(c) <= Elems(all) && 0 < |Members(c)| <= most && MeetsAll(consumers, Members(c))
    {
      var i :| 0 <= i < |candidates| && candidates[i] == c;
      assert Wanted(consumers, groups, most, {}, Elems(all), Members(candidates[i]));
    }
  }

  lemma EmittedOne(consumers: seq<Words>, groups: seq<Words>, most: nat, all: seq<nat>, n: nat,
                   candidates: seq<Words>, s: set<nat>)
    requires Emits(candidates, n, AllWanted(consumers, groups, most, {}, Elems(all)))
    requires s <= Elems(all) && 0 < |s| <= most && MeetsAll(consumers, s) && NoTwo(groups, s)
    ensures exists c :: c in candidates && Members(c) == s
  {
    hide Members, Fits, MeetsAll, NoTwo, Elems;
    assert AllWanted(consumers, groups, most, {}, Elems(all))(s);
    var i :| 0 <= i < |candidates| && Members(candidates[i]) == s;
    assert candidates[i] in candidates;
  }

  lemma EmitsSame(new': seq<Words>, n: nat, p: set<nat> -> bool, q: set<nat> -> bool)
    requires Emits(new', n, p) && forall s :: p(s) <==> q(s)
    ensures Emits(new', n, q)
  {
    hide Members, Fits;
  }

  lemma CountedFirst(base: set<nat>, acc: seq<int>, order: seq<nat>, start: nat, depth: nat)
    requires Counted(base, acc, order, start, depth)
    ensures start <= |order| && Distinct(order) && depth == |base| && base !! Elems(order[start..])
  {
  }

  lemma EmitsBase(consumers: seq<Words>, groups: seq<Words>, most: nat, base: set<nat>, order: seq<nat>, start: nat,
                  words: Words, n: nat,
                  new': seq<Words>)
    requires Fits(words, n) && Members(words) == base && |base| <= most && start <= |order|
    requires new' == if |base| > 0 && MeetsAll(consumers, base) && NoTwo(groups, base) then [words] else []
    ensures Emits(new', n, TriedWanted(consumers, groups, most, base, Elems(order[start..]),
            Elems(order[start..start])))
  {
    hide Members, Fits, MeetsAll, NoTwo;
    var p := TriedWanted(consumers, groups, most, base, Elems(order[start..]), Elems(order[start..start]));
    assert Elems(order[start..start]) == {};
    forall s ensures p(s) <==> s == base && new' == [words] {}
    forall s | p(s) ensures exists i :: 0 <= i < |new'| && Members(new'[i]) == s { assert Members(new'[0]) == s; }
  }

  lemma EmitsFull(consumers: seq<Words>, groups: seq<Words>, most: nat, base: set<nat>, order: seq<nat>, start: nat,
                  n: nat, new': seq<Words>)
    requires start <= |order| && |base| >= most
    requires Emits(new', n, TriedWanted(consumers, groups, most, base, Elems(order[start..]),
             Elems(order[start..start])))
    ensures Emits(new', n, AllWanted(consumers, groups, most, base, Elems(order[start..])))
  {
    hide Members, Fits, MeetsAll, NoTwo, Emits;
    var rest, none := Elems(order[start..]), Elems(order[start..start]);
    var p, q := TriedWanted(consumers, groups, most, base, rest, none), AllWanted(consumers, groups, most, base, rest);
    forall s ensures p(s) <==> q(s) {
      if base <= s && s != base { assert s == base + (s - base) && |s - base| > 0; }
    }
    EmitsSame(new', n, p, q);
  }

  lemma EmitsNext(consumers: seq<Words>, groups: seq<Words>, most: nat, base: set<nat>, order: seq<nat>, start: nat,
                  curr: nat, n: nat,
                  before: seq<Words>, sub: seq<Words>)
    requires Distinct(order) && start <= curr < |order| && base !! Elems(order[start..])
    requires Emits(before, n, TriedWanted(consumers, groups, most, base, Elems(order[start..]),
             Elems(order[start..curr])))
    requires Emits(sub, n, AllWanted(consumers, groups, most, base + {order[curr]}, Elems(order[curr + 1..])))
    ensures Emits(before + sub, n,
            TriedWanted(consumers, groups, most, base, Elems(order[start..]), Elems(order[start..curr + 1])))
  {
    hide Wanted, Emits, TriedWanted, AllWanted, Elems;
    OrderParts(order, start, curr);
    var x, tried, left, rest := order[curr], Elems(order[start..curr]), Elems(order[curr + 1..]), Elems(order[start..]);
    forall s ensures var p, q := TriedWanted(consumers, groups, most, base, rest, tried)(s),
        AllWanted(consumers, groups, most, base + {x}, left)(s);
                     (TriedWanted(consumers, groups, most, base, rest, tried + {x})(s) <==> p || q) && !(p && q)
    {
      TryNext(consumers, groups, most, base, tried, x, left, s);
    }
    EmitsBoth(before, sub, n, TriedWanted(consumers, groups, most, base, rest, tried),
        AllWanted(consumers, groups, most, base + {x}, left),
              TriedWanted(consumers, groups, most, base, rest, tried + {x}));
  }

  lemma EmitsAll(consumers: seq<Words>, groups: seq<Words>, most: nat, base: set<nat>, order: seq<nat>, start: nat,
                 n: nat, new': seq<Words>)
    requires start <= |order|
    requires Emits(new', n, TriedWanted(consumers, groups, most, base, Elems(order[start..]),
             Elems(order[start..|order|])))
    ensures Emits(new', n, AllWanted(consumers, groups, most, base, Elems(order[start..])))
  {
    hide Wanted, Emits, TriedWanted, AllWanted, Elems;
    var rest := Elems(order[start..]);
    assert order[start..|order|] == order[start..];
    forall s ensures TriedWanted(consumers, groups, most, base, rest, rest)(s) <==>
        AllWanted(consumers, groups, most, base, rest)(s) {
      TriedAll(consumers, groups, most, base, rest, s);
    }
    EmitsSame(new', n, TriedWanted(consumers, groups, most, base, rest, rest),
        AllWanted(consumers, groups, most, base, rest));
  }
}
