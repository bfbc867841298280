/** pre_visit_node_list with pre_visit_tags: a ring buffer of n + 1 slots that holds each of n
    ids at most once. */
module VisitQueue {
  import opened Sums

  /** The ids waiting between head and tail. */
  ghost function Waiting(buf: seq<nat>, head: nat, tail: nat): seq<nat>
    requires head < |buf| && tail < |buf|
  {
    if head <= tail then buf[head..tail] else buf[head..] + buf[..tail]
  }

  /** Exactly the tagged ids wait, each once. */
  ghost predicate Queue(buf: seq<nat>, tags: seq<bool>, head: nat, tail: nat) {
    && |buf| == |tags| + 1 && head < |buf| && tail < |buf|
    && Distinct(Waiting(buf, head, tail))
    && (forall id :: id in Waiting(buf, head, tail) ==> id < |tags|)
    && forall id :: 0 <= id < |tags| ==> (id in Waiting(buf, head, tail) <==> tags[id])
  }

  lemma {:induction false} Crowd(q: seq<nat>, n: nat)
    requires Distinct(q) && forall id :: id in q ==> id < n
    ensures |q| <= n
    decreases n
  {
    assert q != [] ==> q[0] in q;
    if n > 0 {
      if n - 1 in q {
        var p :| 0 <= p < |q| && q[p] == n - 1;
        var r := q[..p] + q[p + 1..];
        forall id | id in r ensures id < n - 1 {
          var k :| 0 <= k < |r| && r[k] == id;
          assert r[k] == q[if k < p then k else k + 1] && r[k] in q;
        }
        Crowd(r, n - 1);
      } else {
        Crowd(q, n - 1);
      }
    }
  }

  /** An id that does not wait finds a free slot. */
  lemma Room(buf: seq<nat>, tags: seq<bool>, head: nat, tail: nat, id: nat)
    requires Queue(buf, tags, head, tail) && id < |tags| && !tags[id]
    ensures |Waiting(buf, head, tail)| < |tags|
  {
    var q := Waiting(buf, head, tail);
    assert Distinct(q + [id]);
    forall j | j in q + [id] ensures j < |tags| { assert j in q || j == id; }
    Crowd(q + [id], |tags|);
  }

  lemma PushWaiting(buf: seq<nat>, head: nat, tail: nat, id: nat)
    requires head < |buf| && tail < |buf| && |Waiting(buf, head, tail)| < |buf| - 1
    ensures var tail' := if tail + 1 == |buf| then 0 else tail + 1;
            tail' != head && Waiting(buf[tail := id], head, tail') == Waiting(buf, head, tail) + [id]
  {
  }

  method Push(buf: array<nat>, tags: array<bool>, head: nat, tail: nat, id: nat) returns (tail': nat)
    requires Queue(buf[..], tags[..], head, tail) && id < tags.Length && !tags[id]
    modifies buf, tags
    ensures Queue(buf[..], tags[..], head, tail') && tail' != head
    ensures Waiting(buf[..], head, tail') == old(Waiting(buf[..], head, tail)) + [id]
            && (head != tail ==> buf[head] == old(buf[head]))
  {
    ghost var q := Waiting(buf[..], head, tail);
    Room(buf[..], tags[..], head, tail, id);
    PushWaiting(buf[..], head, tail, id);
    ghost var was, marks := buf[..], tags[..];
    buf[tail] := id;
    tags[id] := true;
    tail' := if tail + 1 == buf.Length then 0 else tail + 1;
    assert buf[..] == was[tail := id] && tags[..] == marks[id := true];
    Pushed(q, marks, id);
  }

  lemma Pushed(q: seq<nat>, tags: seq<bool>, id: nat)
    requires Distinct(q) && (forall j :: j in q ==> j < |tags|) && id < |tags| && !tags[id]
    requires forall j :: 0 <= j < |tags| ==> (j in q <==> tags[j])
    ensures Distinct(q + [id]) && (forall j :: j in q + [id] ==> j < |tags|)
    ensures forall j :: 0 <= j < |tags| ==> (j in q + [id] <==> tags[id := true][j])
  {
    forall j ensures j in q + [id] <==> j in q || j == id {}
  }

  /** Push an id unless it waits already. */
  method PushNew(buf: array<nat>, tags: array<bool>, head: nat, tail: nat, id: nat) returns (tail': nat)
    requires Queue(buf[..], tags[..], head, tail) && head != tail && id < tags.Length
    modifies buf, tags
    ensures Queue(buf[..], tags[..], head, tail') && head != tail'
    ensures tags[id] && (forall p :: 0 <= p < tags.Length && old(tags[p]) ==> tags[p]) && head < buf.Length
            && buf[head] == old(buf[head])
    ensures Waiting(buf[..], head, tail')
            == old(Waiting(buf[..], head, tail)) + if old(id in Waiting(buf[..], head, tail)) then [] else [id]
  {
    tail' := tail;
    if !tags[id] {
      ghost var q, marks := Waiting(buf[..], head, tail), tags[..];
      tail' := Push(buf, tags, head, tail, id);
      ghost var r := Waiting(buf[..], head, tail');
      assert id in r;
      forall p | 0 <= p < tags.Length && marks[p] ensures tags[..][p] { assert p in q && p in r; }
    }
  }

  lemma PopWaiting(buf: seq<nat>, head: nat, tail: nat)
    requires head < |buf| && tail < |buf| && head != tail
    ensures var head' := if head + 1 == |buf| then 0 else head + 1;
            Waiting(buf, head, tail) == [buf[head]] + Waiting(buf, head', tail)
  {
  }

  /** The head stops waiting. */
  method Pop(buf: array<nat>, tags: array<bool>, head: nat, tail: nat) returns (head': nat)
    requires Queue(buf[..], tags[..], head, tail) && head != tail
    modifies tags
    ensures Queue(buf[..], tags[..], head', tail) && head' == (if head + 1 == buf.Length then 0 else head + 1)
    ensures old(Waiting(buf[..], head, tail)) == [buf[head]] + Waiting(buf[..], head', tail)
    ensures buf[head] < tags.Length && tags[..] == old(tags[..])[buf[head] := false]
  {
    PopWaiting(buf[..], head, tail);
    ghost var q, marks := Waiting(buf[..], head, tail), tags[..];
    assert q[0] == buf[head] && q[0] in q;
    tags[buf[head]] := false;
    head' := if head + 1 == buf.Length then 0 else head + 1;
    assert tags[..] == marks[buf[head] := false];
    Popped(q, marks);
  }

  lemma Popped(q: seq<nat>, tags: seq<bool>)
    requires |q| > 0 && Distinct(q) && (forall j :: j in q ==> j < |tags|) && q[0] < |tags|
    requires forall j :: 0 <= j < |tags| ==> (j in q <==> tags[j])
    ensures Distinct(q[1..]) && (forall j :: j in q[1..] ==> j < |tags|)
    ensures forall j :: 0 <= j < |tags| ==> (j in q[1..] <==> tags[q[0] := false][j])
  {
    forall j ensures j in q[1..] <==> j in q && j != q[0] {
      if j in q && j != q[0] {
        var k :| 0 <= k < |q| && q[k] == j;
        assert q[1..][k - 1] == j;
      }
    }
  }

  /** Everybody waits at the start. */
  method Start(n: nat) returns (buf: array<nat>, tags: array<bool>)
    ensures fresh(buf) && fresh(tags) && tags.Length == n && Queue(buf[..], tags[..], 0, n)
            && forall p :: 0 <= p < n ==> tags[p]
    ensures Waiting(buf[..], 0, n) == seq(n, i => i)
  {
    buf, tags := new nat[n + 1](i => i), new bool[n](i => true);
    ghost var q := Waiting(buf[..], 0, n);
    assert forall i :: 0 <= i < n ==> q[i] == i;
    forall id | 0 <= id < n ensures id in q { assert q[id] == id; }
  }
}
