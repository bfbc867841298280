/** GreedyStrategy(nbh_num): adjusting one-ring neighbourhoods from a worklist of nodes. */
module GreedyLoop {
  import opened Wrappers
  import opened Sums
  import opened SbpForest
  import opened SbpSteps
  import opened SbpLists
  import opened SbpOps
  import opened NbhCost
  import opened NbhGreedy
  import opened NbhLocal
  import opened VisitQueue

  ghost predicate Field(v: View) { Lists(v) && Net(v.g) && NoParallel(v.g) }

  // ----- neighbourhoods, as positions in node_list_ -----

  /** The other ends of the edges ks at i. */
  ghost predicate Across(g: Graph, i: Id, ks: seq<Id>, far: seq<Id>) {
    && |far| == |ks|
    && forall p :: 0 <= p < |ks| ==> ks[p] in g.edge && Touches(g.edge[ks[p]], i) && far[p] == Other(g.edge[ks[p]], i)
  }

  method Starts(g: Graph, i: Id, ins: seq<Id>) returns (far: seq<Id>)
    requires Wired(g) && InList(g.edge, i, ins)
    ensures Across(g, i, ins, far)
  {
    far := [];
    for j := 0 to |ins|
      invariant Across(g, i, ins[..j], far)
    {
      assert ins[j] in ins;
      far := far + [g.edge[ins[j]].start];
    }
    assert ins[..|ins|] == ins;
  }

  method Ends(g: Graph, i: Id, outs: seq<Id>) returns (far: seq<Id>)
    requires Wired(g) && OutList(g.edge, i, outs)
    ensures Across(g, i, outs, far)
  {
    far := [];
    for j := 0 to |outs|
      invariant Across(g, i, outs[..j], far)
    {
      assert outs[j] in outs;
      far := far + [g.edge[outs[j]].end];
    }
    assert outs[..|outs|] == outs;
  }

  /** OneRingNeighborhood: the node, then the starts of its incoming and the ends of its
      outgoing edges. */
  method OneRing(v: View, i: Id) returns (ring: seq<Id>)
    requires i in v.g.node && Field(v)
    ensures |ring| > 0 && ring[0] == i && Distinct(ring) && Elems(ring) == Near(v, i)
  {
    hide OutList, InList, NoParallel, Indexed, Near, Across;
    var starts := Starts(v.g, i, v.into[i]);
    var ends := Ends(v.g, i, v.out[i]);
    ring := [i] + (starts + ends);
    AtNode(v.g, v.out, v.into, i);
    AcrossBoth(v.g, i, v.into[i], starts, v.out[i], ends);
    RingDistinct1(v.g, i, v.into[i] + v.out[i], starts + ends);
    RingNear(v, i, v.into[i] + v.out[i], starts + ends);
  }

  lemma AcrossBoth(g: Graph, i: Id, ks: seq<Id>, far: seq<Id>, ls: seq<Id>, more: seq<Id>)
    requires Across(g, i, ks, far) && Across(g, i, ls, more)
    ensures Across(g, i, ks + ls, far + more)
  {
  }

  lemma RingDistinct1(g: Graph, i: Id, ks: seq<Id>, far: seq<Id>)
    requires Wired(g) && NoParallel(g) && Distinct(ks) && Across(g, i, ks, far)
    ensures Distinct([i] + far)
  {
    forall p, q | 0 <= p < q < |far| ensures far[p] != far[q] { DifferentEnds(g, i, ks[p], ks[q]); }
    forall p | 0 <= p < |far| ensures far[p] != i { assert g.edge[ks[p]].start != g.edge[ks[p]].end; }
  }

  lemma RingNear(v: View, i: Id, ks: seq<Id>, far: seq<Id>)
    requires Wired(v.g) && i in v.g.node && Across(v.g, i, ks, far)
    requires forall k :: k in ks <==> k in v.g.edge && Touches(v.g.edge[k], i)
    ensures Elems([i] + far) == Near(v, i)
  {
    forall j | j in Near(v, i) ensures j in [i] + far {
      if j != i {
        var k :| k in v.g.edge && Touches(v.g.edge[k], i) && Other(v.g.edge[k], i) == j;
        assert k in ks;
        var p :| 0 <= p < |ks| && ks[p] == k;
        assert far[p] == j;
      }
    }
    forall j | j in [i] + far ensures j in Near(v, i) {
      if j != i {
        var p :| 0 <= p < |far| && far[p] == j;
        assert Other(v.g.edge[ks[p]], i) == j;
      }
    }
  }

  lemma DifferentEnds(g: Graph, i: Id, k: Id, l: Id)
    requires NoParallel(g) && Wired(g) && k in g.edge && l in g.edge && k != l && Touches(g.edge[k], i)
             && Touches(g.edge[l], i)
    ensures Other(g.edge[k], i) != Other(g.edge[l], i)
  {
  }

  // ----- n-ring neighbourhoods -----

  /** tags marks exactly the positions of the nodes in ring. */
  ghost predicate Marked(v: View, ring: seq<Id>, tags: seq<bool>) {
    && Indexed(v.nodeList, v.listId, v.g.node.Keys) && |tags| == |v.nodeList|
    && (forall i :: i in ring ==> i in v.g.node)
    && forall i :: i in v.g.node ==> (tags[v.listId[i]] <==> i in ring)
  }

  /** q, and then what one has in addition, in that order. */
  ghost function WithNew<T>(q: seq<T>, one: seq<T>): seq<T> {
    if one == [] then q else
      var before, last := WithNew(q, one[..|one| - 1]), one[|one| - 1];
      if last in before then before else before + [last]
  }

  lemma NothingNew<T>(q: seq<T>)
    ensures WithNew(q, []) == q
  {
  }

  lemma NewOrNot<T>(q: seq<T>, one: seq<T>, j: nat, before: seq<T>)
    requires j < |one| && before == WithNew(q, one[..j]) && q <= before && Distinct(before)
    requires Elems(before) == Elems(q) + Elems(one[..j])
    ensures var after := if one[j] in Elems(before) then before else before + [one[j]];
            && after == WithNew(q, one[..j + 1]) && q <= after && Distinct(after)
            && Elems(after) == Elems(q) + Elems(one[..j + 1])
  {
    hide Elems, Distinct;
    assert one[..j + 1] == one[..j] + [one[j]] && one[..j + 1][..j] == one[..j];
    OneMore(one[..j], one[j]);
    OneMore(before, one[j]);
    InElems(before, one[j]);
  }

  /** Append the nodes not seen yet. */
  method AddNew(v: View, ring: seq<Id>, one: seq<Id>, tags: array<bool>) returns (ring': seq<Id>)
    requires Distinct(ring) && (forall i :: i in one ==> i in v.g.node) && Marked(v, ring, tags[..])
    modifies tags
    ensures ring <= ring' && Distinct(ring') && Elems(ring') == Elems(ring) + Elems(one) && Marked(v, ring', tags[..])
    ensures ring' == WithNew(ring, one)
  {
    hide Marked, Elems, Distinct, WithNew;
    ring' := ring;
    NothingNew(ring);
    assert Elems(one[..0]) == {} by { NoElems<Id>(); }
    for j := 0 to |one|
      invariant ring <= ring' && Distinct(ring') && Elems(ring') == Elems(ring) + Elems(one[..j])
                && Marked(v, ring', tags[..]) && ring' == WithNew(ring, one[..j])
    {
      var i := one[j];
      assert i in one;
      ghost var was, before := tags[..], ring';
      MarkMore(v, before, was, i);
      NewOrNot(ring, one, j, before);
      if !tags[v.listId[i]] {
        ring' := ring' + [i];
        tags[v.listId[i]] := true;
        assert tags[..] == was[v.listId[i] := true];
      }
    }
    assert one[..|one|] == one;
  }

  lemma MarkMore(v: View, ring: seq<Id>, tags: seq<bool>, i: Id)
    requires Marked(v, ring, tags) && i in v.g.node
    ensures i in v.listId && v.listId[i] < |tags| && (tags[v.listId[i]] <==> i in Elems(ring))
    ensures Marked(v, ring + [i], tags[v.listId[i] := true])
  {
  }

  lemma InElems<T>(q: seq<T>, i: T)
    ensures i in Elems(q) <==> i in q
  {
  }

  lemma NoElems<T>()
    ensures Elems<T>([]) == {}
  {
  }

  lemma OneMore<T>(q: seq<T>, i: T)
    ensures Elems(q + [i]) == Elems(q) + {i} && (Distinct(q) && i !in Elems(q) ==> Distinct(q + [i]))
  {
  }

  /** NRingNeighborhood; the shared buffer of tags is handed back as it was. */
  method NRing(v: View, i: Id, n: nat, tags: array<bool>) returns (ring: seq<Id>)
    requires Field(v) && i in v.g.node && Marked(v, [], tags[..])
    modifies tags
    ensures Distinct(ring) && Elems(ring) == Ball(v, i, n) && (forall j :: j in ring ==> j in v.g.node)
            && Marked(v, [], tags[..])
  {
    hide Near, NoParallel, Listed, Net;
    ring := AddNew(v, [], [i], tags);
    assert Elems(ring) == {i};
    var l: nat := 0;
    for r := 0 to n
      invariant Distinct(ring) && Elems(ring) == Ball(v, i, r) && Marked(v, ring, tags[..]) && l <= |ring|
      invariant Spread(v, Elems(ring[..l])) <= Elems(ring)
    {
      ring, l := Expand(v, ring, l, tags);
    }
    Unmark(v, ring, tags);
  }

  /** One expansion: the nodes from l on are asked for their neighbours. */
  method Expand(v: View, ring: seq<Id>, l: nat, tags: array<bool>) returns (ring': seq<Id>, l': nat)
    requires Field(v) && Distinct(ring) && Marked(v, ring, tags[..]) && l <= |ring|
             && Spread(v, Elems(ring[..l])) <= Elems(ring)
    modifies tags
    ensures Distinct(ring') && Elems(ring') == Spread(v, Elems(ring)) && Marked(v, ring', tags[..])
    ensures l' <= |ring'| && Spread(v, Elems(ring'[..l'])) <= Elems(ring')
  {
    hide Near, NoParallel, Listed, Net, Spread, Marked, Distinct, Elems;
    ring', l' := ring, l;
    while l' < |ring|
      invariant l <= l' <= |ring| && ring <= ring' && Distinct(ring') && Marked(v, ring', tags[..])
      invariant Elems(ring') == Elems(ring) + Spread(v, Elems(ring[..l']))
    {
      MarkedIn(v, ring', tags[..], ring[l']);
      var one := OneRing(v, ring[l']);
      OneNear(v, ring[l'], one);
      ring' := AddNew(v, ring', one, tags);
      SpreadStep(v, ring, l');
      l' := l' + 1;
    }
    assert ring[..|ring|] == ring && ring'[..|ring|] == ring;
    forall i | i in ring ensures i in v.g.node { MarkedIn(v, ring', tags[..], i); }
    SpreadOwn(v, ring);
  }

  lemma MarkedIn(v: View, ring: seq<Id>, tags: seq<bool>, i: Id)
    requires Marked(v, ring, tags)
    ensures i in ring ==> i in v.g.node
  {
  }

  lemma OneNear(v: View, i: Id, one: seq<Id>)
    requires Elems(one) == Near(v, i)
    ensures forall j :: j in one ==> j in v.g.node
  {
    forall j | j in one ensures j in v.g.node { assert j in Elems(one); }
  }

  lemma SpreadStep(v: View, ring: seq<Id>, l: nat)
    requires l < |ring|
    ensures Spread(v, Elems(ring[..l + 1])) == Spread(v, Elems(ring[..l])) + Near(v, ring[l])
  {
    hide Near;
    assert ring[..l + 1] == ring[..l] + [ring[l]];
    assert Elems(ring[..l + 1]) == Elems(ring[..l]) + {ring[l]};
  }

  lemma SpreadOwn(v: View, ring: seq<Id>)
    requires forall i :: i in ring ==> i in v.g.node
    ensures Elems(ring) <= Spread(v, Elems(ring))
  {
    forall i | i in Elems(ring) ensures i in Spread(v, Elems(ring)) { assert i in ring && i in Near(v, i); }
  }

  method Unmark(v: View, ring: seq<Id>, tags: array<bool>)
    requires Marked(v, ring, tags[..])
    modifies tags
    ensures Marked(v, [], tags[..])
  {
    for j := 0 to |ring|
      invariant UnmarkedUpTo(v, ring, tags[..], j)
    {
      assert ring[j] in ring;
      ghost var was := tags[..];
      tags[v.listId[ring[j]]] := false;
      assert tags[..] == was[v.listId[ring[j]] := false];
    }
  }

  ghost predicate UnmarkedUpTo(v: View, ring: seq<Id>, tags: seq<bool>, n: nat) {
    && Indexed(v.nodeList, v.listId, v.g.node.Keys) && |tags| == |v.nodeList| && n <= |ring|
    && (forall i :: i in ring ==> i in v.g.node)
    && forall i :: i in v.g.node ==> (tags[v.listId[i]] ==> i in ring[n..])
  }

  // ----- adjusting the neighbourhood of one node -----

  /** What an adjustment may do: from a valid cost, delta is exactly the change of the cost of
      the whole graph, it is no increase, and it is nothing only if nothing changed. */
  ghost predicate Exact(g: Graph, x: Assign, y: Assign, delta: real) {
    GraphCost(g, x) <= VALID_MAX_COPY_COST ==>
        delta == GraphCost(g, y) - GraphCost(g, x) && delta <= 0.0
            && (delta == 0.0 ==> forall i :: At(y, i) == At(x, i))
  }

  lemma ExactBoth(g: Graph, x: Assign, y: Assign, z: Assign, a: real, b: real)
    requires Exact(g, x, y, a) && Exact(g, y, z, b)
    ensures Exact(g, x, z, a + b)
  {
    hide GraphCost;
  }

  method AdjustAll(v: View, ring: seq<Id>, x: Assign) returns (y: Assign, delta: real)
    requires Distinct(ring) && |ring| > 0 && (forall i :: i in ring ==> i in v.g.node) && Field(v) && Sigs(v.g, x)
    ensures Sigs(v.g, y) && Exact(v.g, x, y, delta) && Varies(x, y, ring)
    ensures GraphCost(v.g, x) <= VALID_MAX_COPY_COST || Hopeful(v.g, Elems(ring), x) ==> Best(v.g, Elems(ring), y)
  {
    hide Net, Listed, Sigs, GraphCost, NearlyBest, Indexed, NoParallel, Best, Hopeful;
    y, delta := NbhGreedyStrategy(v.g, v.out, v.into, ring, x);
    if GraphCost(v.g, x) <= VALID_MAX_COPY_COST || Hopeful(v.g, Elems(ring), x) { BestOf(v.g, ring, x, y); }
  }

  /** The window after ring[r] went into slot s, where r == base + s: slots up to s hold
      ring[base + 1 ..], the later ones what the previous turn left. */
  ghost predicate Sliding(ring: seq<Id>, window: seq<Id>, s: nat, base: nat) {
    && 2 <= |window| < |ring| && s < |window| && (base == 0 || base >= |window| - 1) && base + s < |ring|
    && window[0] == ring[0]
    && (forall j :: 1 <= j <= s ==> window[j] == ring[base + j])
    && (forall j :: s < j < |window| ==> window[j] == if base == 0 then ring[|ring| - |window| + j]
       else ring[base - (|window| - 1) + j])
  }

  /** Each window holds the centre once, and nothing twice. */
  lemma WindowDistinct(ring: seq<Id>, window: seq<Id>, s: nat, base: nat)
    requires Distinct(ring) && Sliding(ring, window, s, base)
    ensures Distinct(window) && window[0] == ring[0] && forall i :: i in window ==> i in ring
  {
    forall p, q | 0 <= p < q < |window| ensures window[p] != window[q] {}
    forall i | i in window ensures i in ring { var j :| 0 <= j < |window| && window[j] == i; }
  }

  lemma {:induction false} HowMany<T>(q: seq<T>)
    requires Distinct(q)
    ensures |Elems(q)| == |q|
    decreases |q|
  {
    if q != [] {
      var r, last := q[..|q| - 1], q[|q| - 1];
      HowMany(r);
      assert q == r + [last];
      OneMore(r, last);
    }
  }

  lemma FirstWindow(ring: seq<Id>, window: seq<Id>)
    requires 2 <= |window| < |ring| && window == [ring[0]] + ring[|ring| - |window| + 1..]
    ensures Sliding(ring, window, 0, 0)
  {
  }

  lemma SlideOn(ring: seq<Id>, window: seq<Id>, s: nat, base: nat)
    requires Sliding(ring, window, s, base) && base + s + 1 < |ring|
    ensures 2 <= |window| && s < |window|
    ensures var r := base + s + 1;
            if s + 1 == |window| then Sliding(ring, window[1 := ring[r]], 1, base + s)
            else Sliding(ring, window[s + 1 := ring[r]], s + 1, base)
  {
  }

  lemma VariesInside(x: Assign, y: Assign, z: Assign, window: seq<Id>, ring: seq<Id>)
    requires (x == y || Varies(x, y, ring)) && Varies(y, z, window) && forall i :: i in window ==> i in ring
    ensures Varies(x, z, ring)
  {
  }

  /** Sliding a window of num nodes, the centre always among them, along the ring. */
  method AdjustWindows(v: View, ring: seq<Id>, num: nat, x: Assign) returns (y: Assign, delta: real)
    requires 2 <= num < |ring| && Distinct(ring) && (forall i :: i in ring ==> i in v.g.node) && Field(v)
             && Sigs(v.g, x)
    ensures Sigs(v.g, y) && Exact(v.g, x, y, delta) && Varies(x, y, ring)
  {
    hide Field, Sigs, Exact, GraphCost, Best, Elems, Hopeful, Sliding, Varies, Distinct;
    var window: seq<Id> := [ring[0]] + ring[|ring| - num + 1..];
    FirstWindow(ring, window);
    WindowDistinct(ring, window, 0, 0);
    y, delta := AdjustAll(v, window, x);
    VariesInside(x, x, y, window, ring);
    var s: nat, base: nat := 0, 0;
    for r := 1 to |ring|
      invariant Sigs(v.g, y) && Exact(v.g, x, y, delta) && Varies(x, y, ring)
      invariant |window| == num && Sliding(ring, window, s, base) && base + s == r - 1
    {
      SlideOn(ring, window, s, base);
      if s + 1 == num { s, base := 1, base + s; } else { s := s + 1; }
      window := window[s := ring[r]];
      WindowDistinct(ring, window, s, base);
      ghost var before, sum := y, delta;
      var more;
      y, more := AdjustAll(v, window, y);
      VariesInside(x, before, y, window, ring);
      ExactBoth(v.g, x, before, y, sum, more);
      delta := delta + more;
    }
  }

  lemma InNear(v: View, i: Id)
    requires i in v.g.node
    ensures i in Near(v, i)
  {
  }

  /** One visit: the node alone, its whole ring, or windows of the ring. */
  method Adjust(v: View, i: Id, num: nat, x: Assign) returns (y: Assign, delta: real, ring: seq<Id>)
    requires i in v.g.node && num >= 1 && Field(v) && Sigs(v.g, x)
    ensures Sigs(v.g, y) && Exact(v.g, x, y, delta) && Varies(x, y, ring)
    ensures i in ring && (forall j :: j in ring ==> j in v.g.node) && Elems(ring) <= Near(v, i)
    ensures GraphCost(v.g, x) <= VALID_MAX_COPY_COST || Hopeful(v.g, Zone(v, i, num), x) ==> Rested(v, i, num, y)
  {
    hide Field, Sigs, Exact, GraphCost, Best, Near, Hopeful;
    InNear(v, i);
    if num <= 1 {
      ring := [i];
      y, delta := AdjustAll(v, ring, x);
      assert Elems(ring) == {i};
    } else {
      ring := OneRing(v, i);
      OneNear(v, i, ring);
      HowMany(ring);
      if |ring| <= num {
        y, delta := AdjustAll(v, ring, x);
      } else {
        y, delta := AdjustWindows(v, ring, num, x);
      }
    }
  }

  // ----- scheduling -----

  /** Every node of the list is waiting. */
  ghost predicate AllWait(v: View, nodes: set<Id>, tags: seq<bool>) {
    forall i :: i in nodes && i in v.listId && v.listId[i] < |tags| ==> tags[v.listId[i]]
  }

  /** Who waits goes on waiting. */
  ghost predicate Still(was: seq<bool>, tags: seq<bool>) {
    |tags| == |was| && forall p :: 0 <= p < |was| && was[p] ==> tags[p]
  }

  /** The ids have been put at the end of the queue, those that waited already excepted. */
  ghost predicate Joined(before: seq<nat>, ids: set<nat>, after: seq<nat>) {
    before <= after && Elems(after) == Elems(before) + ids
  }

  lemma NobodyJoins(v: View, q: seq<nat>)
    ensures Joined(q, Slots(v, Elems<Id>([])), q)
  {
    assert Slots(v, Elems<Id>([])) == {};
  }

  lemma OneJoins(v: View, before: seq<nat>, nodes: seq<Id>, j: nat, q: seq<nat>, q': seq<nat>)
    requires j < |nodes| && nodes[j] in v.listId && Joined(before, Slots(v, Elems(nodes[..j])), q)
    requires var p := v.listId[nodes[j]]; q' == q + if p in q then [] else [p]
    ensures Joined(before, Slots(v, Elems(nodes[..j + 1])), q')
  {
    var p := v.listId[nodes[j]];
    assert nodes[..j + 1] == nodes[..j] + [nodes[j]];
    assert Elems(nodes[..j + 1]) == Elems(nodes[..j]) + {nodes[j]};
    assert Slots(v, Elems(nodes[..j + 1])) == Slots(v, Elems(nodes[..j])) + {p};
    InElems(q, p);
    if p !in q { OneMore(q, p); } else { assert q' == q; }
  }

  /** Put the nodes that do not wait yet at the end of the queue. */
  method Enqueue(v: View, nodes: seq<Id>, buf: array<nat>, tags: array<bool>, head: nat, tail: nat) returns (tail': nat)
    requires Queue(buf[..], tags[..], head, tail) && head != tail && tags.Length == |v.nodeList|
             && Indexed(v.nodeList, v.listId, v.g.node.Keys)
    requires forall i :: i in nodes ==> i in v.g.node
    modifies buf, tags
    ensures Queue(buf[..], tags[..], head, tail') && head != tail'
    ensures AllWait(v, Elems(nodes), tags[..]) && Still(old(tags[..]), tags[..]) && head < buf.Length
            && buf[head] == old(buf[head])
    ensures Joined(old(Waiting(buf[..], head, tail)), Slots(v, Elems(nodes)), Waiting(buf[..], head, tail'))
  {
    hide Queue, Waiting, Joined;
    QueueSizes(buf[..], tags[..], head, tail);
    tail' := tail;
    ghost var before := Waiting(buf[..], head, tail);
    NobodyJoins(v, before);
    for j := 0 to |nodes|
      invariant Queue(buf[..], tags[..], head, tail') && head != tail' && head < buf.Length && tail' < buf.Length
      invariant Joined(before, Slots(v, Elems(nodes[..j])), Waiting(buf[..], head, tail'))
      invariant (forall q :: 0 <= q < j ==> tags[v.listId[nodes[q]]]) && Still(old(tags[..]), tags[..])
                && buf[head] == old(buf[head])
    {
      assert nodes[j] in nodes;
      ghost var q := Waiting(buf[..], head, tail');
      tail' := PushNew(buf, tags, head, tail', v.listId[nodes[j]]);
      QueueSizes(buf[..], tags[..], head, tail');
      OneJoins(v, before, nodes, j, q, Waiting(buf[..], head, tail'));
    }
    assert nodes[..|nodes|] == nodes;
    forall i | i in Elems(nodes) ensures tags[v.listId[i]] { var j :| 0 <= j < |nodes| && nodes[j] == i; }
  }

  /** The nodes at most two edges from a node of the ring whose signature has changed. */
  ghost function Stirred(v: View, ring: seq<Id>, x: Assign, z: Assign): set<Id> {
    set j, m | j in ring && At(x, j) != At(z, j) && m in Ball(v, j, 2) :: m
  }

  lemma NobodyStirs(v: View, ring: seq<Id>, x: Assign, z: Assign, q: seq<nat>)
    ensures Joined(q, Slots(v, Stirred(v, ring[..0], x, z)), q)
  {
    assert Slots(v, Stirred(v, [], x, z)) == {} && ring[..0] == [];
  }

  lemma OneStirs(v: View, ring: seq<Id>, j: nat, x: Assign, z: Assign)
    requires j < |ring|
    ensures var some, more := Slots(v, Stirred(v, ring[..j], x, z)), Slots(v, Stirred(v, ring[..j + 1], x, z));
            more == if At(x, ring[j]) != At(z, ring[j]) then some + Slots(v, Ball(v, ring[j], 2)) else some
  {
    hide Ball;
    var more := if At(x, ring[j]) != At(z, ring[j]) then Ball(v, ring[j], 2) else {};
    assert ring[..j + 1] == ring[..j] + [ring[j]];
    assert Stirred(v, ring[..j + 1], x, z) == Stirred(v, ring[..j], x, z) + more;
    assert Slots(v, Stirred(v, ring[..j], x, z) + more) == Slots(v, Stirred(v, ring[..j], x, z)) + Slots(v, more);
    assert Slots(v, {}) == {};
  }

  lemma JoinedTwice(q: seq<nat>, some: set<nat>, r: seq<nat>, more: set<nat>, s: seq<nat>)
    requires Joined(q, some, r) && Joined(r, more, s)
    ensures Joined(q, some + more, s)
  {
    hide Elems;
  }

  /** After a change, everything within two rings of a changed node waits for a visit. */
  method Schedule(v: View, ring: seq<Id>, before: Assign, x: Assign, buf: array<nat>, tags: array<bool>,
                  marks: array<bool>, head: nat, tail: nat)
    returns (tail': nat)
    requires Queue(buf[..], tags[..], head, tail) && head != tail && tags.Length == |v.nodeList| && Field(v)
    requires (forall i :: i in ring ==> i in v.g.node) && marks != tags && Marked(v, [], marks[..])
    modifies buf, tags, marks
    ensures Queue(buf[..], tags[..], head, tail') && head != tail' && Marked(v, [], marks[..])
    ensures forall i :: i in ring && At(before, i) != At(x, i) ==> AllWait(v, Ball(v, i, 2), tags[..])
    ensures Still(old(tags[..]), tags[..]) && head < buf.Length && buf[head] == old(buf[head])
    ensures Joined(old(Waiting(buf[..], head, tail)), Slots(v, Stirred(v, ring, before, x)),
                   Waiting(buf[..], head, tail'))
  {
    hide Queue, Marked, Ball, NoParallel, Net, Listed, Waiting, Joined, Stirred, Elems, Slots;
    QueueSizes(buf[..], tags[..], head, tail);
    tail' := tail;
    ghost var q := Waiting(buf[..], head, tail);
    NobodyStirs(v, ring, before, x, q);
    for j := 0 to |ring|
      invariant Queue(buf[..], tags[..], head, tail') && head != tail' && Marked(v, [], marks[..])
      invariant tail' < buf.Length
      invariant Joined(q, Slots(v, Stirred(v, ring[..j], before, x)), Waiting(buf[..], head, tail'))
      invariant forall q :: 0 <= q < j && At(before, ring[q]) != At(x, ring[q]) ==>
                AllWait(v, Ball(v, ring[q], 2), tags[..])
      invariant Still(old(tags[..]), tags[..]) && head < buf.Length && buf[head] == old(buf[head])
    {
      assert ring[j] in ring;
      if At(before, ring[j]) != At(x, ring[j]) {
        var two := NRing(v, ring[j], 2, marks);
        ghost var mid := Waiting(buf[..], head, tail');
        tail' := Enqueue(v, two, buf, tags, head, tail');
        QueueSizes(buf[..], tags[..], head, tail');
        JoinedTwice(q, Slots(v, Stirred(v, ring[..j], before, x)), mid, Slots(v, Elems(two)),
                    Waiting(buf[..], head, tail'));
      }
      OneStirs(v, ring, j, before, x);
    }
    assert ring[..|ring|] == ring;
  }

  // ----- the loop -----

  /** Only live nodes have changed. */
  ghost predicate Inside(v: View, y: Assign) { forall i :: i !in v.g.node ==> At(y, i) == At(v.final, i) }

  /** Around every node that does not wait, a small neighbourhood is best. */
  ghost predicate AllRest(v: View, num: nat, tags: seq<bool>, y: Assign) {
    forall i :: i in v.g.node && i in v.listId && v.listId[i] < |tags| && !tags[v.listId[i]] ==> Rested(v, i, num, y)
  }

  /** After a visit to i: who rested and does not wait now has nothing changed around it, since a
      change would have made it wait. */
  lemma VisitRests(v: View, num: nat, i: Id, ring: seq<Id>, y: Assign, z: Assign, was: seq<bool>, tags: seq<bool>,
                   after: seq<bool>)
    requires Field(v) && Sigs(v.g, y) && Varies(y, z, ring) && (forall j :: j in ring ==> j in v.g.node)
             && i in v.g.node
    requires |was| == |tags| == |after| == |v.nodeList| && AllRest(v, num, was, y) && Rested(v, i, num, z)
             && Still(was, tags)
    requires forall j :: j in ring && At(y, j) != At(z, j) ==> AllWait(v, Ball(v, j, 2), tags)
    requires v.listId[i] < |tags| && after == tags[v.listId[i] := false]
    ensures AllRest(v, num, after, z)
  {
    hide Rested, Ball, Net, NoParallel, Listed, Wired, Sigs;
    forall m | m in v.g.node && m in v.listId && v.listId[m] < |after| && !after[v.listId[m]]
      ensures Rested(v, m, num, z)
    {
      if m != i {
        assert v.listId[m] != v.listId[i];
        FieldWired(v);
        forall j | j in v.g.node && m in Ball(v, j, 2) ensures At(y, j) == At(z, j) {}
        RestsOn(v, m, num, y, z);
      }
    }
  }

  lemma FieldWired(v: View)
    requires Field(v)
    ensures Wired(v.g)
  {
  }

  /** Once nobody waits, everybody rests. */
  lemma NobodyWaits(v: View, num: nat, buf: seq<nat>, tags: seq<bool>, head: nat, tail: nat, y: Assign)
    requires Queue(buf, tags, head, tail) && head == tail && |tags| == |v.nodeList|
             && Indexed(v.nodeList, v.listId, v.g.node.Keys)
    requires AllRest(v, num, tags, y)
    ensures forall i :: i in v.g.node ==> Rested(v, i, num, y)
  {
    hide Rested;
    assert Waiting(buf, head, tail) == [];
    forall i | i in v.g.node ensures Rested(v, i, num, y) { assert !tags[v.listId[i]]; }
  }

  lemma QueueSizes(buf: seq<nat>, tags: seq<bool>, head: nat, tail: nat)
    requires Queue(buf, tags, head, tail)
    ensures head < |buf| == |tags| + 1 && tail < |buf|
  {
  }

  /** What holds between two visits. */
  ghost predicate Between(v: View, num: nat, y: Assign, total: real, buf: seq<nat>, tags: seq<bool>, marks: seq<bool>,
                          head: nat, tail: nat) {
    && |tags| == |v.nodeList| && Queue(buf, tags, head, tail) && Marked(v, [], marks)
    && Sigs(v.g, y) && Exact(v.g, v.final, y, total) && Inside(v, y)
    && (GraphCost(v.g, v.final) <= VALID_MAX_COPY_COST ==> AllRest(v, num, tags, y))
  }

  // ----- runs -----

  /** The loop between two visits: who waits, the signatures, and the change of the cost so far. */
  datatype Moment = Moment(queue: seq<nat>, x: Assign, total: real)

  /** What one visit to i does to the signatures: only the ring of i changes, the change of the cost
      is exact, and i rests afterwards. */
  ghost predicate Adjusted(v: View, num: nat, i: Id, x: Assign, z: Assign, delta: real) {
    && Sigs(v.g, z) && Exact(v.g, x, z, delta) && (forall j :: j !in Near(v, i) ==> At(x, j) == At(z, j))
    && (GraphCost(v.g, x) <= VALID_MAX_COPY_COST || Hopeful(v.g, Zone(v, i, num), x) ==> Rested(v, i, num, z))
  }

  /** ... and to the queue: the first one leaves; after a change those within two edges of a changed
      node join at the end, unless they wait already. */
  ghost predicate Requeued(v: View, a: Moment, b: Moment)
    requires a.queue != []
  {
    var woken := if a.total == b.total then {} else Slots(v, Stirred(v, v.nodeList, a.x, b.x));
    a.queue[1..] <= b.queue && Distinct(b.queue) && Elems(b.queue) == Elems(a.queue) + woken - {a.queue[0]}
  }

  ghost predicate Turn(v: View, num: nat, a: Moment, b: Moment) {
    && a.queue != [] && a.queue[0] < |v.nodeList|
    && Adjusted(v, num, v.nodeList[a.queue[0]], a.x, b.x, b.total - a.total) && Requeued(v, a, b)
  }

  /** A run of the loop from the present signatures, with everybody waiting in the order of the list. */
  ghost predicate Ran(v: View, num: nat, run: seq<Moment>) {
    && run != [] && run[0] == Moment(seq(|v.nodeList|, p => p), v.final, 0.0)
    && forall k :: 0 <= k < |run| - 1 ==> Turn(v, num, run[k], run[k + 1])
  }

  lemma RanOn(v: View, num: nat, run: seq<Moment>, b: Moment)
    requires Ran(v, num, run) && Turn(v, num, run[|run| - 1], b)
    ensures Ran(v, num, run + [b])
  {
    hide Turn;
    var more := run + [b];
    forall k | 0 <= k < |more| - 1 ensures Turn(v, num, more[k], more[k + 1]) {
      if k < |run| - 1 { assert more[k] == run[k] && more[k + 1] == run[k + 1]; }
    }
  }

  /** Only nodes of the ring have changed, so it does not matter which list is searched for them. */
  lemma StirredIs(v: View, ring: seq<Id>, x: Assign, z: Assign)
    requires Varies(x, z, ring) && (forall j :: j in ring ==> j in v.g.node)
             && Indexed(v.nodeList, v.listId, v.g.node.Keys)
    ensures Stirred(v, ring, x, z) == Stirred(v, v.nodeList, x, z)
  {
    hide Ball;
    forall j | At(x, j) != At(z, j) ensures j in ring && j in v.nodeList { assert v.nodeList[v.listId[j]] == j; }
  }

  lemma RequeuedIs(v: View, ring: seq<Id>, a: Moment, mid: seq<nat>, b: Moment)
    requires a.queue != [] && Varies(a.x, b.x, ring) && (forall j :: j in ring ==> j in v.g.node)
             && Indexed(v.nodeList, v.listId, v.g.node.Keys)
    requires if a.total == b.total then mid == a.queue else Joined(a.queue, Slots(v, Stirred(v, ring, a.x, b.x)), mid)
    requires mid == [a.queue[0]] + b.queue && Distinct(mid)
    ensures Requeued(v, a, b)
  {
    hide Stirred, Slots;
    StirredIs(v, ring, a.x, b.x);
    assert mid[1..] == b.queue && a.queue[1..] <= b.queue;
    forall p, q | 0 <= p < q < |b.queue| ensures b.queue[p] != b.queue[q] { assert mid[p + 1] != mid[q + 1]; }
    forall p ensures p in b.queue <==> p in mid && p != a.queue[0] { Popped1(mid, p); }
  }

  lemma Popped1(q: seq<nat>, p: nat)
    requires Distinct(q) && q != []
    ensures p in q[1..] <==> p in q && p != q[0]
  {
    if p in q && p != q[0] {
      var k :| 0 <= k < |q| && q[k] == p;
      assert q[1..][k - 1] == p;
    }
  }

  lemma AdjustedIs(v: View, num: nat, i: Id, ring: seq<Id>, x: Assign, z: Assign, delta: real)
    requires Sigs(v.g, z) && Exact(v.g, x, z, delta) && Varies(x, z, ring) && Elems(ring) <= Near(v, i)
    requires GraphCost(v.g, x) <= VALID_MAX_COPY_COST || Hopeful(v.g, Zone(v, i, num), x) ==> Rested(v, i, num, z)
    ensures Adjusted(v, num, i, x, z, delta)
  {
    hide Sigs, Exact, GraphCost, Rested, Near, Hopeful;
    forall j | j !in Near(v, i) ensures At(x, j) == At(z, j) { assert j in ring ==> j in Elems(ring); }
  }

  lemma QueueDistinct(buf: seq<nat>, tags: seq<bool>, head: nat, tail: nat)
    requires Queue(buf, tags, head, tail)
    ensures Distinct(Waiting(buf, head, tail)) && (head == tail <==> Waiting(buf, head, tail) == [])
    ensures head != tail ==> Waiting(buf, head, tail)[0] == buf[head]
  {
  }

  /** One turn of the loop: visit the node at the head of the queue. */
  method Visit(v: View, num: nat, x: Assign, sum: real, buf: array<nat>, tags: array<bool>, marks: array<bool>,
               head: nat, tail: nat)
    returns (y: Assign, total: real, head': nat, tail': nat)
    requires num >= 1 && head != tail && marks != tags && Field(v)
             && Between(v, num, x, sum, buf[..], tags[..], marks[..], head, tail)
    modifies buf, tags, marks
    ensures Between(v, num, y, total, buf[..], tags[..], marks[..], head', tail')
            && head' == if head + 1 == buf.Length then 0 else head + 1
    ensures Turn(v, num, Moment(old(Waiting(buf[..], head, tail)), x, sum),
                 Moment(Waiting(buf[..], head', tail'), y, total))
  {
    hide Queue, Waiting, AllWait, Ball, Field, Marked, NoParallel, Net, Listed, Sigs, Exact, Inside, Varies, Rested,
        AllRest, GraphCost, Still, Adjusted, Requeued, Joined, Near, Stirred, Slots, Elems, Distinct, Hopeful;
    FieldIndexed(v);
    QueueSizes(buf[..], tags[..], head, tail);
    QueueDistinct(buf[..], tags[..], head, tail);
    ghost var a := Moment(Waiting(buf[..], head, tail), x, sum);
    HeadFacts(v, buf[..], tags[..], head, tail);
    var i := v.nodeList[buf[head]];
    PositionBack(v, buf[head]);
    var z, delta, ring := Adjust(v, i, num, x);
    AdjustedIs(v, num, i, ring, x, z, delta);
    ExactBoth(v.g, v.final, x, z, sum, delta);
    InsideMore(v, x, z, ring);
    ghost var was := tags[..];
    StillSame(was);
    tail' := tail;
    if delta != 0.0 { tail' := Schedule(v, ring, x, z, buf, tags, marks, head, tail); }
    ghost var waits := tags[..];
    QueueSizes(buf[..], tags[..], head, tail');
    QueueDistinct(buf[..], tags[..], head, tail');
    ghost var mid := Waiting(buf[..], head, tail');
    head' := Pop(buf, tags, head, tail');
    QueueSizes(buf[..], tags[..], head', tail');
    RequeuedIs(v, ring, a, mid, Moment(Waiting(buf[..], head', tail'), z, sum + delta));
    if GraphCost(v.g, v.final) <= VALID_MAX_COPY_COST {
      ValidVisit(v, x, z, sum, delta);
      VisitRests(v, num, i, ring, x, z, was, waits, tags[..]);
    }
    y, total := z, sum + delta;
  }

  /** SbpGraph::GreedyStrategy(nbh_num). If the worklist ran empty, then around every node whose
      ring has at most nbh_num nodes no other signatures cost less than nearly what y costs. A
      larger ring is not promised that: while its windows are adjusted its centre still counts as
      waiting, so a change in a later window does not queue it again. */
  method GreedyStrategy(v: View, nbhNum: int)
    returns (y: Assign, total: real, emptied: bool, ghost run: seq<Moment>)
    requires Field(v) && Sigs(v.g, v.final)
    ensures Ran(v, AtLeast1(nbhNum), run) && Over(v, run, y, total, emptied)
    ensures Sigs(v.g, y) && Exact(v.g, v.final, y, total) && Inside(v, y)
    ensures emptied && GraphCost(v.g, v.final) <= VALID_MAX_COPY_COST ==> forall i :: i in v.g.node ==>
            Rested(v, i, AtLeast1(nbhNum), y)
  {
    hide Field, Sigs, Exact, Inside, Rested, GraphCost, Indexed, Ran, Turn, Waiting, Between, Queue, Marked, AllRest;
    FieldIndexed(v);
    var num: nat := if nbhNum < 1 then 1 else nbhNum;
    var n := |v.nodeList|;
    y, total := v.final, 0.0;
    SelfExact(v, y);
    var buf, tags := VisitQueue.Start(n);
    var marks := new bool[n](i => false);
    NoneMarked(v, marks[..]);
    AllStart(v, num, tags[..], y);
    var head: nat, tail: nat, step: nat := 0, n, 0;
    QueueSizes(buf[..], tags[..], head, tail);
    StartsBetween(v, num, y, buf[..], tags[..], marks[..], head, tail);
    run := [Moment(Waiting(buf[..], head, tail), y, total)];
    RanNothing(v, num, run);
    while head != tail && step < n
      invariant fresh(buf) && fresh(tags) && fresh(marks) && tags != marks && buf.Length == n + 1 && head < buf.Length
      invariant tail < buf.Length && Between(v, num, y, total, buf[..], tags[..], marks[..], head, tail)
      invariant Ran(v, num, run) && |run| > 0 && run[|run| - 1] == Moment(Waiting(buf[..], head, tail), y, total)
      invariant |run| - 1 == step * (n + 1) + head && step <= n && (step == n ==> head == 0)
      decreases n - step, buf.Length - head
    {
      y, total, head, tail := Visit(v, num, y, total, buf, tags, marks, head, tail);
      BetweenFacts(v, num, y, total, buf[..], tags[..], marks[..], head, tail);
      ghost var b := Moment(Waiting(buf[..], head, tail), y, total);
      RanOn(v, num, run, b);
      run := run + [b];
      if head == 0 {
        step := step + 1;
        assert step * (n + 1) == (step - 1) * (n + 1) + n + 1;
      }
    }
    emptied := head == tail;
    BetweenFacts(v, num, y, total, buf[..], tags[..], marks[..], head, tail);
    RoundsLeft(n, step, head);
  }

  lemma StartsBetween(v: View, num: nat, y: Assign, buf: seq<nat>, tags: seq<bool>, marks: seq<bool>, head: nat,
                      tail: nat)
    requires |tags| == |v.nodeList| && Queue(buf, tags, head, tail) && Marked(v, [], marks) && Sigs(v.g, y)
    requires Exact(v.g, v.final, y, 0.0) && Inside(v, y) && AllRest(v, num, tags, y)
    ensures Between(v, num, y, 0.0, buf, tags, marks, head, tail)
  {
    hide Queue, Marked, Sigs, Exact, Inside, AllRest, GraphCost;
  }

  lemma BetweenFacts(v: View, num: nat, y: Assign, total: real, buf: seq<nat>, tags: seq<bool>, marks: seq<bool>,
                     head: nat, tail: nat)
    requires Between(v, num, y, total, buf, tags, marks, head, tail) && Indexed(v.nodeList, v.listId, v.g.node.Keys)
    ensures head < |buf| == |tags| + 1 && tail < |buf| && (head == tail <==> Waiting(buf, head, tail) == [])
    ensures Sigs(v.g, y) && Exact(v.g, v.final, y, total) && Inside(v, y)
    ensures head == tail && GraphCost(v.g, v.final) <= VALID_MAX_COPY_COST ==>
              forall i :: i in v.g.node ==> Rested(v, i, num, y)
  {
    hide Queue, Marked, Sigs, Exact, Inside, AllRest, GraphCost, Indexed, Rested, Waiting;
    QueueSizes(buf, tags, head, tail);
    QueueDistinct(buf, tags, head, tail);
    if head == tail && GraphCost(v.g, v.final) <= VALID_MAX_COPY_COST {
      NobodyWaits(v, num, buf, tags, head, tail, y);
    }
  }

  /** How the loop ends: nobody waits, or the rounds are used up. */
  ghost predicate Over(v: View, run: seq<Moment>, y: Assign, total: real, emptied: bool) {
    && run != [] && run[|run| - 1].x == y && run[|run| - 1].total == total
    && (emptied <==> run[|run| - 1].queue == [])
    && |run| - 1 <= Visits(v) && (emptied || |run| - 1 == Visits(v))
  }

  /** As many rounds through the ring buffer as there are nodes. */
  ghost function Visits(v: View): nat { |v.nodeList| * (|v.nodeList| + 1) }

  lemma RoundsLeft(n: nat, step: nat, head: nat)
    requires step <= n && head <= n && (step == n ==> head == 0)
    ensures step * (n + 1) + head <= n * (n + 1)
  {
    if step < n {
      assert (step + 1) * (n + 1) <= n * (n + 1);
      assert (step + 1) * (n + 1) == step * (n + 1) + n + 1;
    }
  }

  lemma RanNothing(v: View, num: nat, run: seq<Moment>)
    requires run == [Moment(seq(|v.nodeList|, p => p), v.final, 0.0)]
    ensures Ran(v, num, run)
  {
  }

  lemma StillSame(tags: seq<bool>)
    ensures Still(tags, tags)
  {
  }

  lemma AllStart(v: View, num: nat, tags: seq<bool>, y: Assign)
    requires forall p :: 0 <= p < |tags| ==> tags[p]
    ensures AllRest(v, num, tags, y)
  {
  }

  lemma PositionBack(v: View, p: nat)
    requires Indexed(v.nodeList, v.listId, v.g.node.Keys) && p < |v.nodeList|
    ensures v.nodeList[p] in v.listId && v.listId[v.nodeList[p]] == p
  {
  }

  /** The cost is valid before every visit. */
  lemma ValidVisit(v: View, y: Assign, z: Assign, sum: real, delta: real)
    requires GraphCost(v.g, v.final) <= VALID_MAX_COPY_COST && Exact(v.g, v.final, y, sum) && Exact(v.g, y, z, delta)
    ensures GraphCost(v.g, y) <= VALID_MAX_COPY_COST && (delta == 0.0 ==> forall i :: At(z, i) == At(y, i))
  {
    hide GraphCost;
  }

  function AtLeast1(n: int): nat { if n < 1 then 1 else n }

  lemma FieldIndexed(v: View)
    requires Field(v)
    ensures Indexed(v.nodeList, v.listId, v.g.node.Keys)
  {
  }

  lemma SelfExact(v: View, x: Assign)
    requires x == v.final
    ensures Exact(v.g, x, x, 0.0) && Inside(v, x)
  {
  }

  lemma InsideMore(v: View, y: Assign, z: Assign, ring: seq<Id>)
    requires Inside(v, y) && Varies(y, z, ring) && forall j :: j in ring ==> j in v.g.node
    ensures Inside(v, z)
  {
  }

  lemma NoneMarked(v: View, marks: seq<bool>)
    requires Indexed(v.nodeList, v.listId, v.g.node.Keys) && |marks| == |v.nodeList|
             && forall p :: 0 <= p < |marks| ==> !marks[p]
    ensures Marked(v, [], marks)
  {
  }

  /** The head of the queue is a position of node_list_. */
  lemma HeadFacts(v: View, buf: seq<nat>, tags: seq<bool>, head: nat, tail: nat)
    requires Queue(buf, tags, head, tail) && head != tail && |tags| == |v.nodeList|
             && Indexed(v.nodeList, v.listId, v.g.node.Keys)
    ensures head < |buf| && buf[head] < |v.nodeList| && v.nodeList[buf[head]] in v.g.node
  {
    PopWaiting(buf, head, tail);
    var q := Waiting(buf, head, tail);
    assert q[0] == buf[head] && q[0] in q;
  }
}
