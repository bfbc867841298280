/** Find1Strategy4Greedy: a first strategy of finite cost, found by backtracking over the nodes in
    breadth-first order. */
module FirstStrategy {
  import opened Wrappers
  import opened Sums
  import opened CutRatio
  import opened SbpForest
  import opened SbpSteps
  import opened SbpComplete
  import opened SbpLists
  import opened SbpOps
  import opened NbhCost
  import opened NbhEval
  import opened NbhSearch
  import opened NbhLocal
  import opened GreedyLoop

  // ----- DfsFindReasonableCost -----

  /** The node and its edges to nodes visited earlier cost less than the largest valid cost. */
  ghost predicate ReasonableAt(g: Graph, i: Id, rank: map<Id, nat>, x: Assign)
    requires i in g.node
  {
    NodeCell(g.node[i], x) + InCost(g, i, rank, x) < VALID_MAX_COPY_COST
  }

  /** So do all of the first n nodes. */
  ghost predicate Reasonable(g: Graph, ring: seq<Id>, rank: map<Id, nat>, x: Assign, n: nat)
    requires Ring(g, ring, rank) && n <= |ring|
  {
    forall p :: 0 <= p < n ==> ReasonableAt(g, ring[p], rank, x)
  }

  lemma ReasonableFrame(g: Graph, ring: seq<Id>, rank: map<Id, nat>, x: Assign, y: Assign, n: nat)
    requires Wired(g) && Ring(g, ring, rank) && n <= |ring| && Varies(x, y, ring[n..])
    ensures Reasonable(g, ring, rank, x, n) <==> Reasonable(g, ring, rank, y, n)
  {
    forall p | 0 <= p < n ensures ReasonableAt(g, ring[p], rank, x) <==> ReasonableAt(g, ring[p], rank, y) {
      LegFrame(g, ring, rank, x, y, n, p);
      RankOf(g, ring, rank, n, p);
      assert g.node[ring[p]].id == ring[p];
    }
  }

  /** None of the strategies that differ from x from node k on is reasonable, if its signature there
      is at least s. */
  ghost predicate Hopeless(g: Graph, ring: seq<Id>, rank: map<Id, nat>, x: Assign, k: nat, s: nat)
    requires Ring(g, ring, rank) && k < |ring|
  {
    forall z: Assign :: Sigs(g, z) && Varies(x, z, ring[k..]) && At(z, ring[k]) >= s ==>
        !Reasonable(g, ring, rank, z, |ring|)
  }

  /** ... and whatever its signature is. */
  ghost predicate HopelessAll(g: Graph, ring: seq<Id>, rank: map<Id, nat>, x: Assign, k: nat)
    requires Ring(g, ring, rank) && k <= |ring|
  {
    forall z: Assign :: Sigs(g, z) && Varies(x, z, ring[k..]) ==> !Reasonable(g, ring, rank, z, |ring|)
  }

  /** From node k on, z is the same as y or has the smaller signature where they first differ. */
  ghost predicate NotAfter(ring: seq<Id>, k: nat, z: Assign, y: Assign)
    decreases |ring| - k
  {
    k >= |ring| || At(z, ring[k]) < At(y, ring[k]) || (At(z, ring[k]) == At(y, ring[k]) && NotAfter(ring, k + 1, z, y))
  }

  /** y is the last of the reasonable strategies: signatures are tried from the last one down. */
  ghost predicate LastReasonable(g: Graph, ring: seq<Id>, rank: map<Id, nat>, x: Assign, k: nat, y: Assign)
    requires Ring(g, ring, rank) && k <= |ring|
  {
    forall z: Assign :: Sigs(g, z) && Varies(x, z, ring[k..]) && Reasonable(g, ring, rank, z, |ring|) ==>
        NotAfter(ring, k, z, y)
  }

  lemma LastHere(g: Graph, ring: seq<Id>, rank: map<Id, nat>, x: Assign, x': Assign, k: nat, s: Sig, y: Assign)
    requires Ring(g, ring, rank) && k < |ring| && Varies(x, x', ring[k..]) && At(x', ring[k]) == s
    requires Hopeless(g, ring, rank, x, k, s + 1) && LastReasonable(g, ring, rank, x', k + 1, y)
             && Varies(x', y, ring[k + 1..])
    ensures LastReasonable(g, ring, rank, x, k, y)
  {
    hide Reasonable, Sigs;
    RankOf(g, ring, rank, k + 1, k);
    forall z: Assign | Sigs(g, z) && Varies(x, z, ring[k..]) && Reasonable(g, ring, rank, z, |ring|)
      ensures NotAfter(ring, k, z, y)
    {
      if At(z, ring[k]) == s { SameHere(x, x', z, ring, k); }
    }
  }

  /** It returns true exactly when some strategy that agrees on the nodes before is reasonable. */
  method DfsFindReasonableCost(g: Graph, out: map<Id, seq<Id>>, into: map<Id, seq<Id>>, ring: seq<Id>,
                               rank: map<Id, nat>, k: nat, x: Assign)
    returns (found: bool, y: Assign)
    requires Ring(g, ring, rank) && k <= |ring| && Sigs(g, x) && Reasonable(g, ring, rank, x, k)
    requires Net(g) && Listed(g, out, into)
    ensures Sigs(g, y) && Varies(x, y, ring[k..])
    ensures if found then Reasonable(g, ring, rank, y, |ring|) else HopelessAll(g, ring, rank, x, k)
    ensures found ==> LastReasonable(g, ring, rank, x, k, y)
    decreases |ring| - k
  {
    hide Net, Listed, Sigs, Reasonable, ReasonableAt, Hopeless, HopelessAll, Varies, LastReasonable;
    y := x;
    VariesNot(x, ring[k..]);
    if k == |ring| {
      AtTheEnd(g, ring, rank, x, k);
      return true, x;
    }
    var i := ring[k];
    NetParts(g);
    var s := |g.node[i].cost|;
    HopelessNone(g, ring, rank, x, k, s);
    while s > 0
      invariant 0 <= s <= |g.node[i].cost| && Sigs(g, y) && Varies(x, y, ring[k..]) && Hopeless(g, ring, rank, x, k, s)
    {
      s := s - 1;
      SetHere(g, ring, rank, x, y, k, s);
      y := y[i := s];
      var more := EvalInNbhCost(g, out, into, i, rank, y);
      if g.node[i].cost[s] + more < VALID_MAX_COPY_COST {
        NextReasonable(g, ring, rank, x, y, k, s);
        ghost var z := y;
        found, y := DfsFindReasonableCost(g, out, into, ring, rank, k + 1, y);
        BackHere(x, z, y, ring, k);
        if found {
          LastHere(g, ring, rank, x, z, k, s, y);
          return;
        }
        NoneBelow(g, ring, rank, x, z, k, s);
      } else {
        NotHere(g, ring, rank, x, y, k, s);
      }
    }
    found := false;
    HopelessEvery(g, ring, rank, x, k);
  }

  lemma AtTheEnd(g: Graph, ring: seq<Id>, rank: map<Id, nat>, x: Assign, k: nat)
    requires Ring(g, ring, rank) && k == |ring|
    ensures LastReasonable(g, ring, rank, x, k, x)
  {
    hide Reasonable, Sigs;
  }

  lemma NetParts(g: Graph)
    requires Net(g)
    ensures Wired(g) && NonNegative(g) && forall i :: i in g.node ==> |g.node[i].cost| > 0
  {
  }

  lemma VariesNot(x: Assign, ring: seq<Id>)
    ensures Varies(x, x, ring)
  {
  }

  lemma HopelessNone(g: Graph, ring: seq<Id>, rank: map<Id, nat>, x: Assign, k: nat, s: nat)
    requires Ring(g, ring, rank) && k < |ring| && s == |g.node[ring[k]].cost|
    ensures Hopeless(g, ring, rank, x, k, s)
  {
  }

  lemma HopelessEvery(g: Graph, ring: seq<Id>, rank: map<Id, nat>, x: Assign, k: nat)
    requires Ring(g, ring, rank) && k < |ring| && Hopeless(g, ring, rank, x, k, 0)
    ensures HopelessAll(g, ring, rank, x, k)
  {
  }

  lemma SetHere(g: Graph, ring: seq<Id>, rank: map<Id, nat>, x: Assign, y: Assign, k: nat, s: Sig)
    requires Ring(g, ring, rank) && k < |ring| && s < |g.node[ring[k]].cost| && Sigs(g, y) && Varies(x, y, ring[k..])
    ensures Sigs(g, y[ring[k] := s]) && Varies(x, y[ring[k] := s], ring[k..])
  {
    assert ring[k..][0] == ring[k] && ring[k] in ring[k..];
  }

  lemma NextReasonable(g: Graph, ring: seq<Id>, rank: map<Id, nat>, x: Assign, y: Assign, k: nat, s: Sig)
    requires Wired(g) && Ring(g, ring, rank) && k < |ring| && s < |g.node[ring[k]].cost|
    requires Varies(x, y, ring[k..]) && At(y, ring[k]) == s && Reasonable(g, ring, rank, x, k)
    requires g.node[ring[k]].cost[s] + InCost(g, ring[k], rank, y) < VALID_MAX_COPY_COST
    ensures Reasonable(g, ring, rank, y, k + 1)
  {
    hide InCost;
    ReasonableFrame(g, ring, rank, x, y, k);
    assert g.node[ring[k]].id == ring[k];
  }

  lemma BackHere(x: Assign, z: Assign, y: Assign, ring: seq<Id>, k: nat)
    requires k < |ring| && Varies(x, z, ring[k..]) && Varies(z, y, ring[k + 1..])
    ensures Varies(x, y, ring[k..])
  {
    forall i | i !in ring[k..] ensures i !in ring[k + 1..] { assert ring[k + 1..] == ring[k..][1..]; }
  }

  /** z and y agree up to node k. */
  lemma SameHere(x: Assign, y: Assign, z: Assign, ring: seq<Id>, k: nat)
    requires k < |ring| && Varies(x, y, ring[k..]) && Varies(x, z, ring[k..]) && At(y, ring[k]) == At(z, ring[k])
    ensures Varies(y, z, ring[k + 1..])
  {
    assert ring[k..] == [ring[k]] + ring[k + 1..];
  }

  lemma NoneBelow(g: Graph, ring: seq<Id>, rank: map<Id, nat>, x: Assign, y: Assign, k: nat, s: Sig)
    requires Ring(g, ring, rank) && k < |ring| && Varies(x, y, ring[k..]) && At(y, ring[k]) == s
    requires Hopeless(g, ring, rank, x, k, s + 1) && HopelessAll(g, ring, rank, y, k + 1)
    ensures Hopeless(g, ring, rank, x, k, s)
  {
    hide Reasonable, Varies, Sigs;
    forall z: Assign | Sigs(g, z) && Varies(x, z, ring[k..]) && At(z, ring[k]) >= s
      ensures !Reasonable(g, ring, rank, z, |ring|)
    {
      if At(z, ring[k]) == s { SameHere(x, y, z, ring, k); }
    }
  }

  lemma NotHere(g: Graph, ring: seq<Id>, rank: map<Id, nat>, x: Assign, y: Assign, k: nat, s: Sig)
    requires Wired(g) && Ring(g, ring, rank) && k < |ring| && s < |g.node[ring[k]].cost|
    requires Varies(x, y, ring[k..]) && At(y, ring[k]) == s && Hopeless(g, ring, rank, x, k, s + 1)
    requires g.node[ring[k]].cost[s] + InCost(g, ring[k], rank, y) >= VALID_MAX_COPY_COST
    ensures Hopeless(g, ring, rank, x, k, s)
  {
    hide InCost, OutCost;
    forall z: Assign | Sigs(g, z) && Varies(x, z, ring[k..]) && At(z, ring[k]) >= s
      ensures !Reasonable(g, ring, rank, z, |ring|)
    {
      if At(z, ring[k]) == s {
        SameHere(x, y, z, ring, k);
        LegFrame(g, ring, rank, y, z, k + 1, k);
        assert g.node[ring[k]].id == ring[k] && !ReasonableAt(g, ring[k], rank, z);
      }
    }
  }

  // ----- what it means for the whole graph -----

  /** A strategy of valid cost is reasonable in every order. */
  lemma ValidIsReasonable(g: Graph, ring: seq<Id>, rank: map<Id, nat>, x: Assign)
    requires Net(g) && Ring(g, ring, rank) && GraphCost(g, x) < VALID_MAX_COPY_COST
    ensures Reasonable(g, ring, rank, x, |ring|)
  {
    hide Net;
    NetParts(g);
    forall p | 0 <= p < |ring| ensures ReasonableAt(g, ring[p], rank, x) { ValidAt(g, ring[p], rank, x); }
  }

  lemma ValidAt(g: Graph, i: Id, rank: map<Id, nat>, x: Assign)
    requires Wired(g) && NonNegative(g) && i in g.node && GraphCost(g, x) < VALID_MAX_COPY_COST
    ensures ReasonableAt(g, i, rank, x)
  {
    CellsNonNegative(g, x);
    SumSubset(Lower(g, i, rank), g.edge.Keys, Cells(g, x));
    forall j | j in g.node.Keys ensures 0.0 <= NodeTerm(g, NodeCells(x))(j) { assert NonNegativeNode(g.node[j]); }
    SumTermLeq(g.node.Keys, i, NodeTerm(g, NodeCells(x)));
  }

  /** Under a reasonable strategy of all nodes every edge is valid. */
  lemma ReasonableEdge(g: Graph, ring: seq<Id>, rank: map<Id, nat>, x: Assign, k: Id)
    requires Net(g) && Ring(g, ring, rank) && Elems(ring) == g.node.Keys && Reasonable(g, ring, rank, x, |ring|)
             && k in g.edge
    ensures EdgeCell(g.edge[k], x) < VALID_MAX_COPY_COST
  {
    hide Net, Elems, NonNegative, ReasonableAt, EdgeCell;
    NetParts(g);
    var e := g.edge[k];
    assert e.start in g.node && e.end in g.node && e.start != e.end;
    Ranked(g, ring, rank, e.start);
    Ranked(g, ring, rank, e.end);
    var i := if rank[e.start] < rank[e.end] then e.end else e.start;
    assert ring[rank[i]] == i && ReasonableAt(g, ring[rank[i]], rank, x);
    EdgeIn(g, i, rank, x, k);
  }

  lemma Ranked(g: Graph, ring: seq<Id>, rank: map<Id, nat>, i: Id)
    requires Ring(g, ring, rank) && i in Elems(ring)
    ensures i in rank && rank[i] < |ring| && ring[rank[i]] == i
  {
    var p :| 0 <= p < |ring| && ring[p] == i;
  }

  lemma EdgeIn(g: Graph, i: Id, rank: map<Id, nat>, x: Assign, k: Id)
    requires NonNegative(g) && i in g.node && k in g.edge && Downward(g.edge[k], i, rank) && ReasonableAt(g, i, rank, x)
    ensures EdgeCell(g.edge[k], x) < VALID_MAX_COPY_COST
  {
    hide Sum, Downward;
    CellsNonNegative(g, x);
    assert k in Lower(g, i, rank);
    SumTermLeq(Lower(g, i, rank), k, Cells(g, x));
    assert NonNegativeNode(g.node[i]);
  }

  // ----- breadth first -----

  lemma NetBoxed(g: Graph)
    requires Net(g)
    ensures forall k :: k in g.edge ==> Boxed(g.edge[k].cost)
  {
  }

  /** The cut ratio of a node. */
  ghost function CutAt(v: View, i: Id): real {
    if i in v.into && i in v.out then Leeway(v.g.edge, v.into[i] + v.out[i]) else 0.0
  }

  /** node_cut_ratios. */
  ghost predicate CutsAre(v: View, cuts: seq<real>) {
    |cuts| == |v.nodeList| && forall p :: 0 <= p < |cuts| ==> cuts[p] == CutAt(v, v.nodeList[p]) <= 1.0
  }

  method CutRatios(v: View) returns (cuts: seq<real>)
    requires Field(v)
    ensures CutsAre(v, cuts)
  {
    hide Net, NoParallel, Boxed, Leeway;
    cuts := [];
    for p := 0 to |v.nodeList|
      invariant |cuts| == p && forall q :: 0 <= q < p ==> cuts[q] == CutAt(v, v.nodeList[q]) <= 1.0
    {
      var i := v.nodeList[p];
      assert InList(v.g.edge, i, v.into[i]) && OutList(v.g.edge, i, v.out[i]);
      NetBoxed(v.g);
      var one := NodeCutRatio(v.g.edge, v.into[i] + v.out[i]);
      cuts := cuts + [one];
    }
  }

  /** Everything next to one of the nodes is one of them. */
  ghost predicate Closed(v: View, part: seq<Id>) { Spread(v, Elems(part)) <= Elems(part) }

  /** Every node comes after one of its neighbours, or first in its component. */
  ghost predicate Connected(v: View, ring: seq<Id>) {
    forall p :: 0 <= p < |ring| ==> Joins(v, ring, p)
  }

  ghost predicate Joins(v: View, ring: seq<Id>, p: nat)
    requires p < |ring|
  {
    (exists q :: 0 <= q < p && ring[p] in Near(v, ring[q])) || Closed(v, ring[..p])
  }

  lemma JoinsStill(v: View, ring: seq<Id>, ring': seq<Id>)
    requires Connected(v, ring) && ring <= ring' && forall p :: |ring| <= p < |ring'| ==> Joins(v, ring', p)
    ensures Connected(v, ring')
  {
    hide Near, Closed;
    forall p | 0 <= p < |ring'| ensures Joins(v, ring', p) {
      if p < |ring| {
        assert Joins(v, ring, p) && ring'[..p] == ring[..p];
        if q :| 0 <= q < p && ring[p] in Near(v, ring[q]) { assert ring'[p] in Near(v, ring'[q]); }
      }
    }
  }

  // ----- the order -----

  /** The first node of the ring next to the one at p is the one at h. */
  ghost predicate Parent(v: View, ring: seq<Id>, p: int, h: int) {
    && 0 <= h < p < |ring| && ring[p] in Near(v, ring[h])
    && forall g :: 0 <= g < h ==> ring[p] !in Near(v, ring[g])
  }

  /** Nodes come in the order of their parents, and those of one parent by rising cut ratio; parents
      are all before head. */
  ghost predicate ByParents(v: View, ring: seq<Id>, head: nat) {
    && (forall p, h :: Parent(v, ring, p, h) ==> h < head)
    && forall p, q, h, k :: p < q && Parent(v, ring, p, h) && Parent(v, ring, q, k) ==>
         h <= k && (h == k ==> CutAt(v, ring[p]) <= CutAt(v, ring[q]))
  }

  /** Where nothing before leads to a node, it has the least cut ratio of all that are left. */
  ghost predicate LeastFirst(v: View, ring: seq<Id>) {
    forall p, i :: 0 <= p < |ring| && Closed(v, ring[..p]) && i in v.g.node && i !in ring[..p] ==>
      CutAt(v, ring[p]) <= CutAt(v, i)
  }

  ghost predicate Rising(v: View, s: seq<Id>) {
    forall p, q :: 0 <= p < q < |s| ==> CutAt(v, s[p]) <= CutAt(v, s[q])
  }

  lemma {:induction false} NewRises(v: View, ring: seq<Id>, one: seq<Id>)
    requires Rising(v, one)
    ensures ring <= WithNew(ring, one) && Rising(v, WithNew(ring, one)[|ring|..])
    ensures forall i :: i in WithNew(ring, one)[|ring|..] ==> i in one
    decreases |one|
  {
    hide CutAt;
    if one != [] {
      var k := |one| - 1;
      NewRises(v, ring, one[..k]);
      var before := WithNew(ring, one[..k]);
      assert (before + [one[k]])[|ring|..] == before[|ring|..] + [one[k]];
      forall p | 0 <= p < |before| - |ring| ensures CutAt(v, before[|ring|..][p]) <= CutAt(v, one[k]) {
        var i := before[|ring|..][p];
        assert i in before[|ring|..] && i in one[..k];
        var q :| 0 <= q < k && one[q] == i;
      }
    }
  }

  /** The unvisited node of least cut ratio. */
  method PickStart(v: View, cuts: seq<real>, tags: array<bool>, ghost ring: seq<Id>) returns (p: nat)
    requires Marked(v, ring, tags[..]) && Distinct(ring) && |ring| < |v.nodeList| && CutsAre(v, cuts)
    ensures p < tags.Length && !tags[p] && LeastLeft(v, ring, p)
  {
    hide CutAt;
    SomeLeft(v, ring, tags[..]);
    var least := 2.0;
    p := |cuts|;
    for q := 0 to |cuts|
      invariant p == |cuts| ==> least == 2.0 && forall r :: 0 <= r < q ==> tags[r]
      invariant p < |cuts| ==> !tags[p] && cuts[p] == least && forall r :: 0 <= r < q && !tags[r] ==> least <= cuts[r]
      invariant p <= |cuts|
    {
      if !tags[q] && cuts[q] < least { least, p := cuts[q], q; }
    }
    forall i | i in v.g.node && i !in ring ensures CutAt(v, v.nodeList[p]) <= CutAt(v, i) {
      assert !tags[v.listId[i]] && v.nodeList[v.listId[i]] == i;
    }
  }

  ghost predicate LeastLeft(v: View, ring: seq<Id>, p: nat) {
    p < |v.nodeList| && forall i :: i in v.g.node && i !in ring ==> CutAt(v, v.nodeList[p]) <= CutAt(v, i)
  }

  /** Fewer nodes than there are: somebody has not been visited. */
  lemma SomeLeft(v: View, ring: seq<Id>, tags: seq<bool>)
    requires Marked(v, ring, tags) && Distinct(ring) && |ring| < |v.nodeList|
    ensures exists p :: 0 <= p < |tags| && !tags[p]
  {
    if forall p :: 0 <= p < |tags| ==> tags[p] { AllVisited(v, ring, tags); }
  }

  lemma AllVisited(v: View, ring: seq<Id>, tags: seq<bool>)
    requires Marked(v, ring, tags) && Distinct(ring) && forall p :: 0 <= p < |tags| ==> tags[p]
    ensures |ring| == |v.nodeList|
  {
    HowMany(ring);
    ListSize(v);
    forall i | i in v.g.node ensures i in ring { assert tags[v.listId[i]]; }
    assert Elems(ring) == v.g.node.Keys;
  }

  lemma ListSize(v: View)
    requires Indexed(v.nodeList, v.listId, v.g.node.Keys)
    ensures |v.g.node.Keys| == |v.nodeList|
  {
    forall p, q | 0 <= p < q < |v.nodeList| ensures v.nodeList[p] != v.nodeList[q] {
      assert v.listId[v.nodeList[p]] == p && v.listId[v.nodeList[q]] == q;
    }
    HowMany(v.nodeList);
    forall i | i in v.g.node.Keys ensures i in Elems(v.nodeList) { assert v.nodeList[v.listId[i]] == i; }
    assert Elems(v.nodeList) == v.g.node.Keys;
  }

  lemma NoMore(v: View, ring: seq<Id>, tags: seq<bool>)
    requires Marked(v, ring, tags) && Distinct(ring)
    ensures |ring| <= |v.nodeList| && (|ring| == |v.nodeList| ==> Elems(ring) == v.g.node.Keys)
  {
    HowMany(ring);
    ListSize(v);
    var all := v.g.node.Keys;
    assert Elems(ring) <= all && all == Elems(ring) + (all - Elems(ring));
  }

  /** The ring of a node, by cut ratio. */
  method SortedRing(v: View, i: Id, cuts: seq<real>) returns (one: seq<Id>)
    requires Field(v) && i in v.g.node && CutsAre(v, cuts)
    ensures Elems(one) == Near(v, i) && Rising(v, one)
  {
    hide Near, Field, CutAt, CutsAre, Rising, Indexed;
    var ring := OneRing(v, i);
    OneNear(v, i, ring);
    FieldIndexed(v);
    var keys := seq(|ring|, q requires 0 <= q < |ring| => KeyOf(v, ring, cuts, q));
    var order := DecideOrder(keys, true);
    one := [];
    for q := 0 to |order|
      invariant |one| == q && forall r :: 0 <= r < q ==> order[r] < |ring| && one[r] == ring[order[r]]
    {
      assert order[q] in order;
      one := one + [ring[order[q]]];
    }
    SameElems(ring, order, one);
    SortedRises(v, cuts, ring, keys, order, one);
  }

  lemma SortedRises(v: View, cuts: seq<real>, ring: seq<Id>, keys: seq<real>, order: seq<nat>, one: seq<Id>)
    requires Indexed(v.nodeList, v.listId, v.g.node.Keys) && CutsAre(v, cuts) && forall i :: i in ring ==> i in v.g.node
    requires |keys| == |ring| && forall q :: 0 <= q < |ring| ==> keys[q] == KeyOf(v, ring, cuts, q)
    requires Ordered(keys, order, true) && |one| == |order|
    requires forall r :: 0 <= r < |order| ==> order[r] < |ring| && one[r] == ring[order[r]]
    ensures Rising(v, one)
  {
    hide CutAt;
    forall q | 0 <= q < |ring| ensures keys[q] == CutAt(v, ring[q]) { assert ring[q] in ring; }
    forall p, q | 0 <= p < q < |one| ensures CutAt(v, one[p]) <= CutAt(v, one[q]) {
      assert Precedes(keys, order[p], order[q], true);
    }
  }

  function KeyOf(v: View, ring: seq<Id>, cuts: seq<real>, q: nat): real
    requires q < |ring|
  {
    if ring[q] in v.listId && v.listId[ring[q]] < |cuts| then cuts[v.listId[ring[q]]] else 0.0
  }

  lemma SameElems(ring: seq<Id>, order: seq<nat>, one: seq<Id>)
    requires Permutes(order, |ring|) && |one| == |order|
    requires forall r :: 0 <= r < |order| ==> order[r] < |ring| && one[r] == ring[order[r]]
    ensures Elems(one) == Elems(ring)
  {
    forall i | i in ring ensures i in one {
      var q :| 0 <= q < |ring| && ring[q] == i;
      assert q in order;
      var r :| 0 <= r < |order| && order[r] == q;
      assert one[r] == i;
    }
  }

  /** All nodes, component by component. */
  method BreadthFirst(v: View) returns (ring: seq<Id>)
    requires Field(v)
    ensures Distinct(ring) && Elems(ring) == v.g.node.Keys && Connected(v, ring)
    ensures ByParents(v, ring, |ring|) && LeastFirst(v, ring)
  {
    hide Near, Spread, Field, Marked, Closed, Connected, Distinct, Elems, ByParents, LeastFirst, LeastLeft, CutsAre;
    var n := |v.nodeList|;
    var cuts := CutRatios(v);
    FieldIndexed(v);
    var tags := new bool[n](_ => false);
    NoneMarked(v, tags[..]);
    ring := [];
    NothingYet(v);
    NoMore(v, ring, tags[..]);
    while |ring| < n
      invariant fresh(tags) && tags.Length == n && |ring| <= n
      invariant Marked(v, ring, tags[..]) && Distinct(ring) && Connected(v, ring) && Closed(v, ring)
      invariant ByParents(v, ring, |ring|) && LeastFirst(v, ring)
      decreases n - |ring|
    {
      var p := PickStart(v, cuts, tags, ring);
      ring := Component(v, cuts, ring, p, tags);
    }
    NoMore(v, ring, tags[..]);
  }

  lemma NothingYet(v: View)
    ensures Distinct<Id>([]) && Connected(v, []) && Closed(v, []) && ByParents(v, [], 0) && LeastFirst(v, [])
  {
  }

  /** One component, from a node in slot p. */
  method Component(v: View, cuts: seq<real>, ring: seq<Id>, p: nat, tags: array<bool>) returns (ring': seq<Id>)
    requires Field(v) && p < |v.nodeList| == tags.Length && !tags[p] && CutsAre(v, cuts)
    requires Marked(v, ring, tags[..]) && Distinct(ring) && Connected(v, ring) && Closed(v, ring)
    requires ByParents(v, ring, |ring|) && LeastFirst(v, ring) && LeastLeft(v, ring, p)
    modifies tags
    ensures |ring| < |ring'| <= |v.nodeList| && Marked(v, ring', tags[..]) && Distinct(ring') && Connected(v, ring')
            && Closed(v, ring')
    ensures ByParents(v, ring', |ring'|) && LeastFirst(v, ring')
  {
    hide Near, Spread, Field, Marked, Closed, Connected, Distinct, Elems, Joins, Indexed, ByParents, LeastFirst,
        LeastLeft, CutsAre, Rising, WithNew;
    FieldIndexed(v);
    var start := v.nodeList[p];
    SlotNode(v, p, ring, tags[..]);
    ring' := AddNew(v, ring, [start], tags);
    StartsHere(v, ring, start, ring');
    StartOrder(v, ring, p, ring');
    NoMore(v, ring', tags[..]);
    var head := |ring|;
    ClosedUpTo(v, ring, ring');
    while head < |ring'|
      invariant |ring| < |ring'| <= |v.nodeList| && head <= |ring'| && Marked(v, ring', tags[..]) && Distinct(ring')
                && Connected(v, ring')
      invariant Spread(v, Elems(ring'[..head])) <= Elems(ring')
      invariant ByParents(v, ring', head) && LeastFirst(v, ring')
      decreases |v.nodeList| - head
    {
      ghost var before := ring';
      MarkedIn(v, ring', tags[..], ring'[head]);
      var one := SortedRing(v, ring'[head], cuts);
      OneNear(v, ring'[head], one);
      ring' := AddNew(v, ring', one, tags);
      JoinAll(v, before, head, one, ring');
      NextOrder(v, before, head, one, ring');
      NoMore(v, ring', tags[..]);
      SpreadOn(v, before, head, ring');
      head := head + 1;
    }
    AllClosed(v, ring');
  }

  lemma SlotNode(v: View, p: nat, ring: seq<Id>, tags: seq<bool>)
    requires Indexed(v.nodeList, v.listId, v.g.node.Keys) && p < |v.nodeList| && Marked(v, ring, tags) && !tags[p]
    ensures v.nodeList[p] in v.g.node && v.nodeList[p] !in ring
  {
  }

  lemma StartsHere(v: View, ring: seq<Id>, start: Id, ring': seq<Id>)
    requires Connected(v, ring) && Closed(v, ring) && ring <= ring' && Distinct(ring') && start !in ring
    requires Elems(ring') == Elems(ring) + Elems([start])
    ensures |ring'| == |ring| + 1 && Connected(v, ring')
  {
    hide Near, Closed;
    assert Elems([start]) == {start} && start !in Elems(ring);
    HowMany(ring);
    HowMany(ring');
    assert ring'[..|ring|] == ring && Joins(v, ring', |ring|);
    JoinsStill(v, ring, ring');
  }

  /** What is closed does not lead to anybody else. */
  lemma NoParent(v: View, ring: seq<Id>, p: nat, h: nat)
    requires h < p < |ring| && Closed(v, ring[..p]) && Distinct(ring)
    ensures ring[p] !in Near(v, ring[h])
  {
    hide Near;
    assert ring[..p][h] == ring[h] && ring[h] in Elems(ring[..p]);
    assert ring[p] !in ring[..p];
    assert ring[p] !in Elems(ring[..p]);
  }

  lemma ParentStill(v: View, ring: seq<Id>, ring': seq<Id>, p: nat, h: int)
    requires ring <= ring' && p < |ring|
    ensures Parent(v, ring', p, h) <==> Parent(v, ring, p, h)
  {
    hide Near;
    if 0 <= h < p {
      assert ring'[p] == ring[p] && forall g :: 0 <= g <= h ==> ring'[g] == ring[g];
    }
  }

  lemma StartOrder(v: View, ring: seq<Id>, p: nat, ring': seq<Id>)
    requires Closed(v, ring) && Distinct(ring') && p < |v.nodeList| && ring' == WithNew(ring, [v.nodeList[p]])
    requires ByParents(v, ring, |ring|) && LeastFirst(v, ring) && LeastLeft(v, ring, p) && |ring'| == |ring| + 1
    ensures ByParents(v, ring', |ring|) && LeastFirst(v, ring')
  {
    hide Near, Closed, CutAt, Parent;
    assert [v.nodeList[p]][..0] == [] && ring' == ring + [v.nodeList[p]];
    assert ring'[..|ring|] == ring;
    forall q, h | Parent(v, ring', q, h) ensures q < |ring| && Parent(v, ring, q, h) {
      ParentNot(v, ring', q, h, |ring|);
      ParentStill(v, ring, ring', q, h);
    }
    LeastMore(v, ring, ring');
  }

  lemma ParentNot(v: View, ring: seq<Id>, q: int, h: int, p: nat)
    requires Parent(v, ring, q, h) && p < |ring| && Closed(v, ring[..p]) && Distinct(ring)
    ensures 0 <= h < q < |ring| && q != p
  {
    hide Near, Closed;
    if q == p { NoParent(v, ring, p, h); }
  }

  /** Nobody new, or the one who starts, is the only one that nothing leads to. */
  lemma LeastMore(v: View, ring: seq<Id>, ring': seq<Id>)
    requires LeastFirst(v, ring) && ring <= ring'
    requires forall p :: |ring| <= p < |ring'| && Closed(v, ring'[..p]) ==>
               p == |ring| && forall i :: i in v.g.node && i !in ring ==> CutAt(v, ring'[p]) <= CutAt(v, i)
    ensures LeastFirst(v, ring')
  {
    hide Closed, CutAt;
    forall p, i | 0 <= p < |ring'| && Closed(v, ring'[..p]) && i in v.g.node && i !in ring'[..p]
      ensures CutAt(v, ring'[p]) <= CutAt(v, i)
    {
      if p < |ring| { assert ring'[..p] == ring[..p]; } else { assert ring'[..|ring|] == ring; }
    }
  }

  lemma NewParent(v: View, ring: seq<Id>, head: nat, one: seq<Id>, ring': seq<Id>, p: nat)
    requires head < |ring| && Elems(one) == Near(v, ring[head]) && ring <= ring' && Distinct(ring')
    requires Spread(v, Elems(ring[..head])) <= Elems(ring) && Elems(ring') == Elems(ring) + Elems(one)
    requires |ring| <= p < |ring'|
    ensures Parent(v, ring', p, head) && !Closed(v, ring'[..p])
    ensures forall h :: Parent(v, ring', p, h) ==> h == head
  {
    hide Near;
    assert forall r :: 0 <= r < |ring| ==> ring[r] == ring'[r] != ring'[p];
    assert ring'[p] in Elems(ring') && ring'[p] !in Elems(ring);
    forall g | 0 <= g < head ensures ring'[p] !in Near(v, ring'[g]) {
      assert ring[..head][g] == ring'[g] && ring'[g] in Elems(ring[..head]);
    }
    assert ring'[head] == ring[head];
    if Closed(v, ring'[..p]) { NoParent(v, ring', p, head); }
  }

  lemma NextOrder(v: View, ring: seq<Id>, head: nat, one: seq<Id>, ring': seq<Id>)
    requires head < |ring| && Elems(one) == Near(v, ring[head]) && Rising(v, one) && ring' == WithNew(ring, one)
    requires Spread(v, Elems(ring[..head])) <= Elems(ring) && Elems(ring') == Elems(ring) + Elems(one)
    requires ByParents(v, ring, head) && LeastFirst(v, ring) && ring <= ring' && Distinct(ring')
    ensures ByParents(v, ring', head + 1) && LeastFirst(v, ring')
  {
    hide Near, Spread, Closed, CutAt, Parent, Elems, Distinct, WithNew;
    NewRises(v, ring, one);
    forall p | |ring| <= p < |ring'| ensures !Closed(v, ring'[..p]) { NewParent(v, ring, head, one, ring', p); }
    forall p, h | Parent(v, ring', p, h)
      ensures 0 <= p < |ring'| && if p < |ring| then Parent(v, ring, p, h) else h == head
    {
      ParentIn(v, ring', p, h);
      if p < |ring| { ParentStill(v, ring, ring', p, h); } else { NewParent(v, ring, head, one, ring', p); }
    }
    forall p, q | |ring| <= p < q < |ring'| ensures CutAt(v, ring'[p]) <= CutAt(v, ring'[q]) {
      assert ring'[|ring|..][p - |ring|] == ring'[p] && ring'[|ring|..][q - |ring|] == ring'[q];
    }
    forall p, q, h, k | p < q && Parent(v, ring', p, h) && Parent(v, ring', q, k)
      ensures h <= k && (h == k ==> CutAt(v, ring'[p]) <= CutAt(v, ring'[q]))
    {
      if q < |ring| {
        assert Parent(v, ring, p, h) && Parent(v, ring, q, k);
      } else if p < |ring| {
        assert Parent(v, ring, p, h) && k == head;
      }
    }
    LeastMore(v, ring, ring');
  }

  lemma ParentIn(v: View, ring: seq<Id>, p: int, h: int)
    requires Parent(v, ring, p, h)
    ensures 0 <= h < p < |ring|
  {
  }

  lemma ClosedUpTo(v: View, ring: seq<Id>, ring': seq<Id>)
    requires Closed(v, ring) && ring <= ring'
    ensures ring'[..|ring|] == ring && Spread(v, Elems(ring'[..|ring|])) <= Elems(ring')
  {
    hide Spread;
    assert ring'[..|ring|] == ring;
    forall i | i in Elems(ring) ensures i in Elems(ring') { assert i in ring && i in ring'; }
  }

  lemma JoinAll(v: View, ring: seq<Id>, head: nat, one: seq<Id>, ring': seq<Id>)
    requires head < |ring| && Connected(v, ring) && Elems(one) == Near(v, ring[head])
    requires ring <= ring' && Distinct(ring') && Elems(ring') == Elems(ring) + Elems(one)
    ensures Connected(v, ring')
  {
    hide Near, Closed;
    forall p | |ring| <= p < |ring'| ensures Joins(v, ring', p) {
      assert ring'[p] in Elems(ring') && forall r :: 0 <= r < |ring| ==> ring[r] == ring'[r] != ring'[p];
      assert ring'[p] in Near(v, ring'[head]);
    }
    JoinsStill(v, ring, ring');
  }

  lemma SpreadOn(v: View, ring: seq<Id>, head: nat, ring': seq<Id>)
    requires head < |ring| && ring <= ring' && Spread(v, Elems(ring[..head])) <= Elems(ring)
    requires Near(v, ring[head]) <= Elems(ring') && Elems(ring) <= Elems(ring')
    ensures Spread(v, Elems(ring'[..head + 1])) <= Elems(ring')
  {
    hide Near, Spread;
    assert ring'[..head + 1] == ring[..head + 1];
    SpreadStep(v, ring, head);
  }

  lemma AllClosed(v: View, ring: seq<Id>)
    requires Spread(v, Elems(ring[..|ring|])) <= Elems(ring)
    ensures Closed(v, ring)
  {
    assert ring[..|ring|] == ring;
  }

  // ----- the strategy -----

  /** SbpGraph::Find1Strategy4Greedy. It finds a strategy exactly when one is reasonable in the order
      of the search; if there is one of valid cost, it finds one; and every edge of what it finds is
      valid. */
  method Find1Strategy4Greedy(v: View) returns (found: bool, y: Assign, ring: seq<Id>, rank: map<Id, nat>)
    requires Field(v) && Sigs(v.g, v.final)
    ensures Sigs(v.g, y) && Inside(v, y) && Elems(ring) == v.g.node.Keys && Connected(v, ring) && Ring(v.g, ring, rank)
    ensures found <==> exists z: Assign :: Sigs(v.g, z) && Inside(v, z) && Reasonable(v.g, ring, rank, z, |ring|)
    ensures found ==> Reasonable(v.g, ring, rank, y, |ring|) && LastReasonable(v.g, ring, rank, v.final, 0, y)
    ensures found ==> forall k :: k in v.g.edge ==> EdgeCell(v.g.edge[k], y) < VALID_MAX_COPY_COST
    ensures (exists z: Assign :: Sigs(v.g, z) && GraphCost(v.g, z) < VALID_MAX_COPY_COST) ==> found
  {
    hide Field, Net, Sigs, Connected, Reasonable, GraphCost, EdgeCell, HopelessAll, Listed, Indexed, LastReasonable;
    ring := BreadthFirst(v);
    rank := Ranks(ring);
    RingOf(v, ring, rank);
    FieldParts(v);
    FirstReasonable(v.g, ring, rank, v.final);
    found, y := DfsFindReasonableCost(v.g, v.out, v.into, ring, rank, 0, v.final);
    assert ring[0..] == ring;
    InsideRing(v, ring, y);
    if found {
      forall k | k in v.g.edge
        ensures EdgeCell(v.g.edge[k], y) < VALID_MAX_COPY_COST
      {
        ReasonableEdge(v.g, ring, rank, y, k);
      }
    } else {
      forall z: Assign | Sigs(v.g, z) && Inside(v, z) ensures !Reasonable(v.g, ring, rank, z, |ring|) {
        InsideRing(v, ring, z);
        NoHope(v.g, ring, rank, v.final, z);
      }
      forall z: Assign | Sigs(v.g, z) ensures GraphCost(v.g, z) >= VALID_MAX_COPY_COST { NoneValid(v, ring, rank, z); }
    }
  }

  method Ranks(ring: seq<Id>) returns (rank: map<Id, nat>)
    requires Distinct(ring)
    ensures (forall p :: 0 <= p < |ring| ==> ring[p] in rank && rank[ring[p]] == p)
    ensures forall i :: i in rank ==> rank[i] < |ring| && ring[rank[i]] == i
  {
    rank := map[];
    for p := 0 to |ring|
      invariant forall q :: 0 <= q < p ==> ring[q] in rank && rank[ring[q]] == q
      invariant forall i :: i in rank ==> rank[i] < p && ring[rank[i]] == i
    {
      rank := rank[ring[p] := p];
    }
  }

  lemma RingOf(v: View, ring: seq<Id>, rank: map<Id, nat>)
    requires Elems(ring) == v.g.node.Keys
    requires (forall p :: 0 <= p < |ring| ==> ring[p] in rank && rank[ring[p]] == p)
    requires forall i :: i in rank ==> rank[i] < |ring| && ring[rank[i]] == i
    ensures Ring(v.g, ring, rank)
  {
    forall p | 0 <= p < |ring| ensures ring[p] in v.g.node { assert ring[p] in Elems(ring); }
  }

  lemma FieldParts(v: View)
    requires Field(v)
    ensures Net(v.g) && Listed(v.g, v.out, v.into)
  {
  }

  lemma FirstReasonable(g: Graph, ring: seq<Id>, rank: map<Id, nat>, x: Assign)
    requires Ring(g, ring, rank)
    ensures Reasonable(g, ring, rank, x, 0)
  {
  }

  lemma InsideRing(v: View, ring: seq<Id>, y: Assign)
    requires Elems(ring) == v.g.node.Keys
    ensures Inside(v, y) <==> Varies(v.final, y, ring)
  {
    forall i ensures i in ring <==> i in v.g.node { assert i in ring <==> i in Elems(ring); }
  }

  lemma NoHope(g: Graph, ring: seq<Id>, rank: map<Id, nat>, x: Assign, z: Assign)
    requires Ring(g, ring, rank) && HopelessAll(g, ring, rank, x, 0) && Sigs(g, z) && Varies(x, z, ring)
    ensures !Reasonable(g, ring, rank, z, |ring|)
  {
    assert ring[0..] == ring;
  }

  /** Without a reasonable strategy there is none of valid cost. */
  lemma NoneValid(v: View, ring: seq<Id>, rank: map<Id, nat>, z: Assign)
    requires Net(v.g) && Ring(v.g, ring, rank) && Elems(ring) == v.g.node.Keys && Sigs(v.g, z)
    requires HopelessAll(v.g, ring, rank, v.final, 0)
    ensures GraphCost(v.g, z) >= VALID_MAX_COPY_COST
  {
    hide Net, GraphCost, Reasonable, HopelessAll;
    var w := Overlaid(v.g.node.Keys, v.final, z);
    assert Inside(v, w) && Sigs(v.g, w);
    InsideRing(v, ring, w);
    NoHope(v.g, ring, rank, v.final, w);
    NetParts(v.g);
    CostAgrees(v.g, z, w);
    if GraphCost(v.g, w) < VALID_MAX_COPY_COST { ValidIsReasonable(v.g, ring, rank, w); }
  }
}
