/** The memory part of InitMemory: reusable blobs are born and die along the order of execution;
    one pass finds the peak, a second one stops at it with the blobs that make it up. */
module OpMemory {
  import opened Sums

  /** The blobs an operator produces and consumes; is_reusable is about those it produces. */
  datatype Op = Op(outs: seq<nat>, ins: seq<nat>, reusable: bool)

  /** How often b is among the inputs. */
  ghost function Occurrences(ins: seq<nat>, b: nat): nat {
    if ins == [] then 0 else (if ins[0] == b then 1 else 0) + Occurrences(ins[1..], b)
  }

  /** How many inputs of the operators consume b. */
  ghost function Uses(ops: seq<Op>, b: nat): nat {
    if ops == [] then 0 else Occurrences(ops[0].ins, b) + Uses(ops[1..], b)
  }

  /** Ids are in range; a blob is produced once, and consumed only after it has been produced. */
  ghost predicate Ordered(ops: seq<Op>, n: nat) {
    && (forall p, b :: 0 <= p < |ops| && (b in ops[p].outs || b in ops[p].ins) ==> b < n)
    && (forall p :: 0 <= p < |ops| ==> Distinct(ops[p].outs))
    && (forall p, q, b :: 0 <= p < q < |ops| && b in ops[p].outs ==> b !in ops[q].outs)
    && (forall p, q, b :: 0 <= p <= q < |ops| && b in ops[q].outs ==> b !in ops[p].ins)
  }

  /** A reusable blob produced before position p. */
  ghost predicate Born(ops: seq<Op>, p: nat, b: nat) {
    exists q :: 0 <= q < p && q < |ops| && ops[q].reusable && b in ops[q].outs
  }

  /** Before position p: the blobs that somebody at p or later still needs. */
  ghost function Alive(ops: seq<Op>, n: nat, p: nat): set<nat>
    requires p <= |ops|
  {
    set b | 0 <= b < n && Born(ops, p, b) && Uses(ops[p..], b) > 0
  }

  ghost function Made(op: Op): set<nat> { if op.reusable then Elems(op.outs) else {} }

  /** While position p runs: its own blobs too. */
  ghost function Peak(ops: seq<Op>, n: nat, p: nat): set<nat>
    requires p < |ops|
  {
    Alive(ops, n, p) + Made(ops[p])
  }

  ghost function Bytes(sizes: seq<nat>): nat -> real { (b: nat) => if b < |sizes| then sizes[b] as real else 0.0 }

  ghost function Memory(sizes: seq<nat>, blobs: set<nat>): real { Sum(blobs, Bytes(sizes)) }

  // ----- counting uses -----

  lemma {:induction false} OccurrencesIs(ins: seq<nat>, b: nat)
    ensures Occurrences(ins, b) == multiset(ins)[b]
    decreases |ins|
  {
    if ins != [] {
      OccurrencesIs(ins[1..], b);
      assert ins == [ins[0]] + ins[1..];
    }
  }

  lemma {:induction false} OccurrencesIn(ins: seq<nat>, b: nat)
    ensures Occurrences(ins, b) > 0 <==> b in ins
    decreases |ins|
  {
    if ins != [] {
      OccurrencesIn(ins[1..], b);
      assert ins == [ins[0]] + ins[1..];
    }
  }

  lemma UsesNext(ops: seq<Op>, p: nat, b: nat)
    requires p < |ops|
    ensures Uses(ops[p..], b) == Occurrences(ops[p].ins, b) + Uses(ops[p + 1..], b)
  {
    assert ops[p..][1..] == ops[p + 1..];
  }

  /** Nobody uses a blob before it is made. */
  lemma {:induction false} UsesAfter(ops: seq<Op>, n: nat, p: nat, q: nat, b: nat)
    requires Ordered(ops, n) && p <= q < |ops| && b in ops[q].outs
    ensures Uses(ops[p..], b) == Uses(ops[q + 1..], b)
    decreases q - p
  {
    OccurrencesIn(ops[p].ins, b);
    UsesNext(ops, p, b);
    if p < q { UsesAfter(ops, n, p + 1, q, b); }
  }

  lemma {:induction false} OccurrencesMore(ins: seq<nat>, i: nat, b: nat)
    requires i < |ins|
    ensures Occurrences(ins[..i + 1], b) == Occurrences(ins[..i], b) + if ins[i] == b then 1 else 0
    decreases i
  {
    if i == 0 {
      assert ins[..1] == [ins[0]];
    } else {
      assert ins[..i + 1][1..] == ins[1..][..i] && ins[..i][1..] == ins[1..][..i - 1];
      OccurrencesMore(ins[1..], i - 1, b);
    }
  }

  lemma {:induction false} UsesMore(ops: seq<Op>, p: nat, b: nat)
    requires p < |ops|
    ensures Uses(ops[..p + 1], b) == Uses(ops[..p], b) + Occurrences(ops[p].ins, b)
    decreases p
  {
    if p == 0 {
      assert ops[..1] == [ops[0]];
    } else {
      assert ops[..p + 1][1..] == ops[1..][..p] && ops[..p][1..] == ops[1..][..p - 1];
      UsesMore(ops[1..], p - 1, b);
    }
  }

  /** id2consumer_topo_structs: one entry for every input that names the blob. */
  method CountConsumers(ops: seq<Op>, n: nat) returns (uses: seq<nat>)
    requires Ordered(ops, n)
    ensures |uses| == n && forall b :: 0 <= b < n ==> uses[b] == Uses(ops, b)
  {
    uses := seq(n, _ => 0);
    for p := 0 to |ops|
      invariant |uses| == n && forall b :: 0 <= b < n ==> uses[b] == Uses(ops[..p], b)
    {
      hide Uses;
      ghost var before := uses;
      var ins := ops[p].ins;
      for i := 0 to |ins|
        invariant |uses| == n && forall b :: 0 <= b < n ==> uses[b] == before[b] + Occurrences(ins[..i], b)
      {
        assert ins[i] in ins;
        forall b | 0 <= b < n
          ensures Occurrences(ins[..i + 1], b) == Occurrences(ins[..i], b) + if ins[i] == b then 1 else 0
        {
          OccurrencesMore(ins, i, b);
        }
        hide Occurrences;
        uses := uses[ins[i] := uses[ins[i]] + 1];
      }
      assert ins[..|ins|] == ins;
      forall b | 0 <= b < n ensures uses[b] == Uses(ops[..p + 1], b) { UsesMore(ops, p, b); }
    }
    assert ops[..|ops|] == ops;
  }

  // ----- one operator -----

  /** Of the reusable blobs made before q, count says how many uses are left from p on; the
      others have what they started with, which is nothing. */
  ghost predicate Counting(ops: seq<Op>, start: seq<int>, p: nat, q: nat, count: seq<int>)
    requires p <= |ops|
  {
    && |count| == |start| && (forall b :: 0 <= b < |start| ==> start[b] <= 0)
    && forall b :: 0 <= b < |count| ==> count[b] == if Born(ops, q, b) then Uses(ops[p..], b) else start[b]
  }

  lemma BornNext(ops: seq<Op>, p: nat, b: nat)
    requires p < |ops|
    ensures Born(ops, p + 1, b) <==> Born(ops, p, b) || b in Made(ops[p])
  {
    if b in Made(ops[p]) { assert ops[p].reusable && b in ops[p].outs; }
    if Born(ops, p, b) {
      var q :| 0 <= q < p && q < |ops| && ops[q].reusable && b in ops[q].outs;
      assert q < p + 1;
    }
  }

  /** GenerateBlobs. */
  method Generate(ops: seq<Op>, p: nat, sizes: seq<nat>, uses: seq<nat>, ghost start: seq<int>, count: seq<int>,
                  curr: int)
    returns (count': seq<int>, curr': int)
    requires p < |ops| && |sizes| == |uses| == |start| && Ordered(ops, |sizes|) && forall b :: 0 <= b < |uses| ==>
             uses[b] == Uses(ops, b)
    requires Counting(ops, start, p, p, count) && curr as real == Memory(sizes, Alive(ops, |sizes|, p))
    ensures Counting(ops, start, p, p + 1, count') && curr' as real == Memory(sizes, Peak(ops, |sizes|, p))
  {
    count', curr' := count, curr;
    var outs, n := ops[p].outs, |sizes|;
    ghost var alive := Alive(ops, n, p);
    if ops[p].reusable {
      assert Elems(outs[..0]) == {} && alive + {} == alive;
      for i := 0 to |outs|
        invariant |count'| == |count| && curr' as real == Memory(sizes, alive + Elems(outs[..i]))
        invariant forall b :: 0 <= b < |count| ==> count'[b] == if b in outs[..i] then uses[b] else count[b]
      {
        hide Alive, Counting, Ordered, Memory;
        NewBlob(ops, n, p, i);
        MemoryMore(sizes, alive + Elems(outs[..i]), outs[i]);
        assert alive + Elems(outs[..i + 1]) == alive + Elems(outs[..i]) + {outs[i]};
        curr' := curr' + sizes[outs[i]];
        count' := count'[outs[i] := uses[outs[i]]];
      }
      assert outs[..|outs|] == outs;
    } else {
      assert Peak(ops, n, p) == alive;
    }
    Generated(ops, start, p, uses, count, count');
  }

  lemma NewBlob(ops: seq<Op>, n: nat, p: nat, i: nat)
    requires p < |ops| && Ordered(ops, n) && i < |ops[p].outs|
    ensures var outs := ops[p].outs;
            && outs[i] < n && outs[i] !in Alive(ops, n, p) && outs[i] !in outs[..i]
            && outs[..i + 1] == outs[..i] + [outs[i]]
  {
    assert ops[p].outs[i] in ops[p].outs;
  }

  lemma MemoryMore(sizes: seq<nat>, blobs: set<nat>, b: nat)
    requires b !in blobs && b < |sizes|
    ensures Memory(sizes, blobs + {b}) == Memory(sizes, blobs) + sizes[b] as real
  {
    SumAdd(blobs, b, Bytes(sizes));
  }

  lemma Generated(ops: seq<Op>, start: seq<int>, p: nat, uses: seq<nat>, count: seq<int>, count': seq<int>)
    requires p < |ops| && |uses| == |start| && Ordered(ops, |uses|) && forall b :: 0 <= b < |uses| ==>
             uses[b] == Uses(ops, b)
    requires Counting(ops, start, p, p, count) && |count'| == |count|
    requires forall b :: 0 <= b < |count| ==>
             count'[b] == if ops[p].reusable && b in ops[p].outs then uses[b] else count[b]
    ensures Counting(ops, start, p, p + 1, count')
  {
    forall b | 0 <= b < |count'| ensures count'[b] == if Born(ops, p + 1, b) then Uses(ops[p..], b) else start[b] {
      BornNext(ops, p, b);
      if b in Made(ops[p]) {
        UsesAfter(ops, |uses|, 0, p, b);
        UsesAfter(ops, |uses|, p, p, b);
        assert ops[0..] == ops;
      }
    }
  }

  /** What is left of the uses while the inputs of p from i on have not been taken back yet. */
  ghost function Left(ops: seq<Op>, p: nat, i: nat, b: nat): nat
    requires p < |ops| && i <= |ops[p].ins|
  {
    Occurrences(ops[p].ins[i..], b) + Uses(ops[p + 1..], b)
  }

  ghost function Lasting(ops: seq<Op>, n: nat, p: nat, i: nat): set<nat>
    requires p < |ops| && i <= |ops[p].ins|
  {
    set b | 0 <= b < n && Born(ops, p + 1, b) && Left(ops, p, i, b) > 0
  }

  ghost predicate Taking(ops: seq<Op>, start: seq<int>, p: nat, i: nat, count: seq<int>)
    requires p < |ops| && i <= |ops[p].ins|
  {
    && |count| == |start| && (forall b :: 0 <= b < |start| ==> start[b] <= 0)
    && forall b :: 0 <= b < |count| ==> count[b] == if Born(ops, p + 1, b) then Left(ops, p, i, b) else start[b]
  }

  /** KillBlobs. */
  method Kill(ops: seq<Op>, p: nat, sizes: seq<nat>, ghost start: seq<int>, count: seq<int>, curr: int)
    returns (count': seq<int>, curr': int)
    requires p < |ops| && |sizes| == |start| && Ordered(ops, |sizes|)
    requires Counting(ops, start, p, p + 1, count) && curr as real == Memory(sizes, Peak(ops, |sizes|, p))
    ensures Counting(ops, start, p + 1, p + 1, count') && curr' as real == Memory(sizes, Alive(ops, |sizes|, p + 1))
  {
    hide Counting, Ordered, Memory, Alive, Peak, Lasting, Taking;
    var n := |sizes|;
    curr' := KillUnused(ops, p, sizes, start, count, curr);
    count' := count;
    StartTaking(ops, start, p, count);
    for i := 0 to |ops[p].ins|
      invariant Taking(ops, start, p, i, count') && curr' as real == Memory(sizes, Lasting(ops, n, p, i))
    {
      var b := ops[p].ins[i];
      TakeOne(ops, n, start, p, i, i + 1, count', sizes);
      if count'[b] > 0 {
        count' := count'[b := count'[b] - 1];
        if count'[b] == 0 { curr' := curr' - sizes[b]; }
      }
    }
    AllTaken(ops, n, start, p, count');
  }

  /** Blobs without any consumer die at once. */
  method KillUnused(ops: seq<Op>, p: nat, sizes: seq<nat>, ghost start: seq<int>, count: seq<int>, curr: int)
    returns (curr': int)
    requires p < |ops| && |sizes| == |start| && Ordered(ops, |sizes|)
    requires Counting(ops, start, p, p + 1, count) && curr as real == Memory(sizes, Peak(ops, |sizes|, p))
    ensures curr' as real == Memory(sizes, Lasting(ops, |sizes|, p, 0))
  {
    hide Ordered, Memory, Peak, Lasting, Counting;
    curr' := curr;
    var outs, n := ops[p].outs, |sizes|;
    ghost var gone: set<nat> := {};
    assert Peak(ops, n, p) - {} == Peak(ops, n, p);
    CountLength(ops, start, p, p + 1, count);
    if ops[p].reusable {
      for i := 0 to |outs|
        invariant |count| == n && curr' as real == Memory(sizes, Peak(ops, n, p) - gone)
        invariant forall b :: b in gone <==> b in outs[..i] && b < |count| && count[b] == 0
      {
        OutBlob(ops, n, p, i);
        if count[outs[i]] == 0 {
          assert Peak(ops, n, p) - gone == Peak(ops, n, p) - (gone + {outs[i]}) + {outs[i]};
          MemoryMore(sizes, Peak(ops, n, p) - (gone + {outs[i]}), outs[i]);
          curr' := curr' - sizes[outs[i]];
          gone := gone + {outs[i]};
        }
      }
      assert outs[..|outs|] == outs;
    }
    StillUsed(ops, n, start, p, count, gone);
  }

  lemma OutBlob(ops: seq<Op>, n: nat, p: nat, i: nat)
    requires p < |ops| && Ordered(ops, n) && i < |ops[p].outs| && ops[p].reusable
    ensures var outs := ops[p].outs;
            && outs[i] < n && outs[i] in Peak(ops, n, p) && outs[i] !in outs[..i]
            && outs[..i + 1] == outs[..i] + [outs[i]]
  {
    assert ops[p].outs[i] in ops[p].outs;
  }

  lemma StillUsed(ops: seq<Op>, n: nat, start: seq<int>, p: nat, count: seq<int>, gone: set<nat>)
    requires p < |ops| && |start| == n && Ordered(ops, n) && Counting(ops, start, p, p + 1, count)
    requires if ops[p].reusable then forall b :: b in gone <==>
             b in ops[p].outs && b < |count| && count[b] == 0 else gone == {}
    ensures Peak(ops, n, p) - gone == Lasting(ops, n, p, 0)
  {
    forall b: nat ensures b in Peak(ops, n, p) - gone <==> b in Lasting(ops, n, p, 0) {
      BornNext(ops, p, b);
      UsesNext(ops, p, b);
      assert ops[p].ins[0..] == ops[p].ins;
    }
  }

  lemma StartTaking(ops: seq<Op>, start: seq<int>, p: nat, count: seq<int>)
    requires p < |ops| && Counting(ops, start, p, p + 1, count)
    ensures Taking(ops, start, p, 0, count)
  {
    assert ops[p].ins[0..] == ops[p].ins;
    forall b | 0 <= b < |count| ensures Uses(ops[p..], b) == Left(ops, p, 0, b) { UsesNext(ops, p, b); }
  }

  lemma TakeOne(ops: seq<Op>, n: nat, start: seq<int>, p: nat, i: nat, stop: nat, count: seq<int>, sizes: seq<nat>)
    requires p < |ops| && stop == i + 1 <= |ops[p].ins| && |start| == |sizes| == n && Ordered(ops, n)
             && Taking(ops, start, p, i, count)
    ensures var b := ops[p].ins[i];
            && b < |count| == n
            && (count[b] <= 0 ==>
               Taking(ops, start, p, stop, count) && Lasting(ops, n, p, stop) == Lasting(ops, n, p, i))
            && (count[b] > 0 ==> Taking(ops, start, p, stop, count[b := count[b] - 1]))
            && (count[b] > 1 ==> Lasting(ops, n, p, stop) == Lasting(ops, n, p, i))
            && (count[b] == 1 ==>
               Memory(sizes, Lasting(ops, n, p, stop))
                 == Memory(sizes, Lasting(ops, n, p, i)) - sizes[b] as real)
  {
    hide Uses, Memory;
    var b := ops[p].ins[i];
    assert b in ops[p].ins && ops[p].ins[i..][1..] == ops[p].ins[stop..];
    assert forall c :: Left(ops, p, i, c) == Left(ops, p, stop, c) + if c == b then 1 else 0;
    if count[b] == 1 {
      assert Lasting(ops, n, p, i) == Lasting(ops, n, p, stop) + {b};
      MemoryMore(sizes, Lasting(ops, n, p, stop), b);
    }
  }

  lemma AllTaken(ops: seq<Op>, n: nat, start: seq<int>, p: nat, count: seq<int>)
    requires p < |ops| && |start| == n && Taking(ops, start, p, |ops[p].ins|, count)
    ensures Counting(ops, start, p + 1, p + 1, count) && Lasting(ops, n, p, |ops[p].ins|) == Alive(ops, n, p + 1)
  {
  }

  // ----- the two passes -----

  lemma Nothing(ops: seq<Op>, sizes: seq<nat>, start: seq<int>)
    requires |start| == |sizes| && forall b :: 0 <= b < |start| ==> start[b] <= 0
    ensures Counting(ops, start, 0, 0, start) && Memory(sizes, Alive(ops, |sizes|, 0)) == 0.0
  {
    assert Alive(ops, |sizes|, 0) == {};
  }

  lemma NothingLeft(ops: seq<Op>, sizes: seq<nat>, start: seq<int>, count: seq<int>)
    requires |start| == |sizes| && Counting(ops, start, |ops|, |ops|, count)
    ensures Memory(sizes, Alive(ops, |sizes|, |ops|)) == 0.0 && forall b :: 0 <= b < |count| ==> count[b] <= 0
  {
    assert ops[|ops|..] == [];
    assert Alive(ops, |sizes|, |ops|) == {};
  }

  /** max is the largest amount of memory at any position, or 0. */
  ghost predicate Highest(ops: seq<Op>, sizes: seq<nat>, p: nat, max: int)
    requires p <= |ops|
  {
    && 0 <= max
    && (forall q :: 0 <= q < p ==> Memory(sizes, Peak(ops, |sizes|, q)) <= max as real)
    && (max == 0 || exists q :: 0 <= q < p && Memory(sizes, Peak(ops, |sizes|, q)) == max as real)
  }

  /** The first pass: at the end every reusable blob has died, so the check passes. */
  method FindPeak(ops: seq<Op>, sizes: seq<nat>, uses: seq<nat>) returns (max: int, count: seq<int>, curr: int)
    requires |sizes| == |uses| && Ordered(ops, |sizes|) && forall b :: 0 <= b < |uses| ==> uses[b] == Uses(ops, b)
    ensures Highest(ops, sizes, |ops|, max) && curr == 0 && |count| == |sizes| && forall b :: 0 <= b < |count| ==>
            count[b] <= 0
  {
    hide Counting, Ordered, Memory, Alive, Peak;
    max, curr := 0, 0;
    count := seq(|sizes|, _ => -1);
    ghost var start := count;
    Nothing(ops, sizes, start);
    for p := 0 to |ops|
      invariant Counting(ops, start, p, p, count) && curr as real == Memory(sizes, Alive(ops, |sizes|, p))
                && Highest(ops, sizes, p, max)
    {
      count, curr := Generate(ops, p, sizes, uses, start, count, curr);
      if curr > max { max := curr; }
      count, curr := Kill(ops, p, sizes, start, count, curr);
    }
    NothingLeft(ops, sizes, start, count);
    CountLength(ops, start, |ops|, |ops|, count);
  }

  lemma CountLength(ops: seq<Op>, start: seq<int>, p: nat, q: nat, count: seq<int>)
    requires p <= |ops| && Counting(ops, start, p, q, count)
    ensures |count| == |start|
  {
  }

  /** The first position where the peak is reached. */
  ghost predicate FirstPeak(ops: seq<Op>, sizes: seq<nat>, max: int, p: nat) {
    && p < |ops| && Memory(sizes, Peak(ops, |sizes|, p)) == max as real
    && forall q :: 0 <= q < p ==> Memory(sizes, Peak(ops, |sizes|, q)) != max as real
  }

  /** The second pass: it stops at the first peak, and the blobs with a positive count are
      exactly those that make up the peak. */
  method MarkSupport(ops: seq<Op>, sizes: seq<nat>, uses: seq<nat>, max: int, start: seq<int>)
    returns (count: seq<int>, ghost at: nat)
    requires |sizes| == |uses| == |start| && Ordered(ops, |sizes|) && forall b :: 0 <= b < |uses| ==>
             uses[b] == Uses(ops, b)
    requires Highest(ops, sizes, |ops|, max) && (forall b :: 0 <= b < |start| ==> start[b] <= 0) && ops != []
    ensures FirstPeak(ops, sizes, max, at) && |count| == |sizes|
    ensures forall b :: 0 <= b < |count| ==> (count[b] > 0 <==> b in Peak(ops, |sizes|, at))
  {
    hide Counting, Ordered, Memory, Alive, Peak, Highest;
    var curr := 0;
    count, at := start, 0;
    Nothing(ops, sizes, start);
    for p := 0 to |ops|
      invariant Counting(ops, start, p, p, count) && curr as real == Memory(sizes, Alive(ops, |sizes|, p))
      invariant forall q :: 0 <= q < p ==> Memory(sizes, Peak(ops, |sizes|, q)) != max as real
    {
      count, curr := Generate(ops, p, sizes, uses, start, count, curr);
      if curr == max {
        at := p;
        count := MarkMade(ops, p, start, count);
        return;
      }
      count, curr := Kill(ops, p, sizes, start, count, curr);
    }
    Reached(ops, sizes, max);
  }

  /** Some position reaches the peak, even when the peak is nothing at all. */
  lemma Reached(ops: seq<Op>, sizes: seq<nat>, max: int)
    requires Highest(ops, sizes, |ops|, max) && ops != []
    ensures exists q :: 0 <= q < |ops| && Memory(sizes, Peak(ops, |sizes|, q)) == max as real
  {
    if max == 0 {
      SumNonNegative(Peak(ops, |sizes|, 0), Bytes(sizes));
      assert Memory(sizes, Peak(ops, |sizes|, 0)) == max as real;
    }
  }

  /** The blobs of the operator itself, also those without a consumer. */
  method MarkMade(ops: seq<Op>, p: nat, ghost start: seq<int>, count: seq<int>) returns (count': seq<int>)
    requires p < |ops| && Ordered(ops, |start|) && Counting(ops, start, p, p + 1, count)
    ensures |count'| == |start| && forall b :: 0 <= b < |count'| ==> (count'[b] > 0 <==> b in Peak(ops, |start|, p))
  {
    count' := count;
    var outs := ops[p].outs;
    if ops[p].reusable {
      for i := 0 to |outs|
        invariant |count'| == |count| && forall b :: 0 <= b < |count| ==>
                  count'[b] == if b in outs[..i] then 1 else count[b]
      {
        assert outs[i] in outs && outs[..i + 1] == outs[..i] + [outs[i]];
        count' := count'[outs[i] := 1];
      }
      assert outs[..|outs|] == outs;
    }
    forall b | 0 <= b < |count'| ensures count'[b] > 0 <==> b in Peak(ops, |start|, p) { BornNext(ops, p, b); }
  }

  /** The memory part of InitMemory as a whole. */
  method MemorySupport(ops: seq<Op>, sizes: seq<nat>) returns (max: int, count: seq<int>, ghost at: nat)
    requires Ordered(ops, |sizes|) && ops != []
    ensures Highest(ops, sizes, |ops|, max) && FirstPeak(ops, sizes, max, at) && |count| == |sizes|
    ensures forall b :: 0 <= b < |count| ==> (count[b] > 0 <==> b in Peak(ops, |sizes|, at))
    ensures Memory(sizes, set b | 0 <= b < |count| && count[b] > 0) == max as real
  {
    hide Ordered, Memory, Highest;
    var uses := CountConsumers(ops, |sizes|);
    var first, curr;
    max, first, curr := FindPeak(ops, sizes, uses);
    count, at := MarkSupport(ops, sizes, uses, max, first);
    PeakInRange(ops, |sizes|, at);
    assert (set b | 0 <= b < |count| && count[b] > 0) == Peak(ops, |sizes|, at);
  }

  lemma PeakInRange(ops: seq<Op>, n: nat, p: nat)
    requires p < |ops| && Ordered(ops, n)
    ensures forall b :: b in Peak(ops, n, p) ==> b < n
  {
  }
}
