/** The pruned depth-first search over the signatures of a neighbourhood. */
module NbhSearch {
  import opened Sums
  import opened SbpForest
  import opened SbpSteps
  import opened SbpComplete
  import opened SbpLists
  import opened NbhCost
  import opened NbhEval

  const NEARLY: real := 0.9999999  // kFloatDeviationMinus

  /** What stays fixed during one search; x0 is the assignment it starts from. */
  datatype Scene = Scene(
    g: Graph, out: map<Id, seq<Id>>, into: map<Id, seq<Id>>, ring: seq<Id>, rank: map<Id, nat>,
    outs: seq<seq<real>>, orders: seq<seq<nat>>, acc: seq<real>)

  ghost predicate Set(c: Scene, x0: Assign) {
    && Net(c.g) && Listed(c.g, c.out, c.into) && Ring(c.g, c.ring, c.rank) && OutTable(c.g, c.ring, c.rank, x0, c.outs)
    && |c.acc| == |c.ring| && |c.orders| == |c.ring|
       && (forall p :: 0 <= p < |c.ring| ==> Permutes(c.orders[p], |c.outs[p]|))
  }

  ghost function Cost(c: Scene, x: Assign, n: nat): real
    requires Ring(c.g, c.ring, c.rank) && n <= |c.ring|
  {
    Clipped(c.g, c.ring, c.rank, x, n)
  }

  /** acc[o] is never more than what the nodes from o on still add. */
  ghost predicate Admissible(c: Scene, x0: Assign)
    requires Ring(c.g, c.ring, c.rank)
  {
    forall y: Assign, o :: 0 <= o < |c.ring| && o < |c.acc| && Sigs(c.g, y) && Varies(x0, y, c.ring) ==>
        Cost(c, y, o) + c.acc[o] <= Cost(c, y, |c.ring|)
  }

  /** x and y agree except on the nodes from position o on. */
  ghost predicate Alike(c: Scene, x: Assign, y: Assign, o: nat)
    requires o <= |c.ring|
  {
    Varies(x, y, c.ring[o..])
  }

  // ----- the cost of the first nodes does not depend on the later ones -----

  lemma RankOf(g: Graph, ring: seq<Id>, rank: map<Id, nat>, o: nat, p: nat)
    requires Ring(g, ring, rank) && p < o <= |ring|
    ensures ring[p] !in ring[o..]
  {
    forall q | 0 <= q < |ring[o..]| ensures ring[o..][q] != ring[p] {
      assert ring[o..][q] == ring[o + q] && rank[ring[o + q]] == o + q && rank[ring[p]] == p;
    }
  }

  lemma LegFrame(g: Graph, ring: seq<Id>, rank: map<Id, nat>, x: Assign, y: Assign, o: nat, p: nat)
    requires Wired(g) && Ring(g, ring, rank) && p < o <= |ring| && Varies(x, y, ring[o..])
    ensures OutCost(g, ring[p], rank, x) == OutCost(g, ring[p], rank, y)
            && InCost(g, ring[p], rank, x) == InCost(g, ring[p], rank, y)
  {
    var i := ring[p];
    RankOf(g, ring, rank, o, p);
    forall k | k in Outer(g, i, rank) ensures Cells(g, x)(k) == Cells(g, y)(k) {
      var j := Other(g.edge[k], i);
      assert forall q :: 0 <= q < |ring[o..]| ==> ring[o..][q] == ring[o + q] && ring[o + q] in rank;
      assert j !in ring[o..];
    }
    SumSame(Outer(g, i, rank), Cells(g, x), Cells(g, y));
    forall k | k in Lower(g, i, rank) ensures Cells(g, x)(k) == Cells(g, y)(k) {
      var j := Other(g.edge[k], i);
      assert ring[rank[j]] == j;
      RankOf(g, ring, rank, o, rank[j]);
    }
    SumSame(Lower(g, i, rank), Cells(g, x), Cells(g, y));
    assert g.node[i].id == i;
  }

  lemma {:induction false} PrefixFrame(g: Graph, ring: seq<Id>, rank: map<Id, nat>, x: Assign, y: Assign, o: nat,
                                       n: nat)
    requires Wired(g) && Ring(g, ring, rank) && n <= o <= |ring| && Varies(x, y, ring[o..])
    ensures Clipped(g, ring, rank, x, n) == Clipped(g, ring, rank, y, n)
    decreases n
  {
    hide Wired, OutCost, InCost, Varies;
    if n > 0 {
      PrefixFrame(g, ring, rank, x, y, o, n - 1);
      LegFrame(g, ring, rank, x, y, o, n - 1);
    }
  }

  // ----- the search -----

  /** best holds the signatures of some assignment of that cost. */
  ghost predicate Attained(c: Scene, x0: Assign, best: seq<Sig>, least: real)
    requires Ring(c.g, c.ring, c.rank)
  {
    && |best| == |c.ring|
    && exists y: Assign :: Holding(c, x0, best, y) && Cost(c, y, |c.ring|) == least
  }

  ghost predicate Holding(c: Scene, x0: Assign, best: seq<Sig>, y: Assign) {
    && |best| == |c.ring| && Sigs(c.g, y) && Varies(x0, y, c.ring)
    && forall p :: 0 <= p < |c.ring| ==> At(y, c.ring[p]) == best[p]
  }

  /** No assignment that differs from x from position o on, and has one of the given signatures
      there, costs less than nearly least. */
  ghost predicate Searched(c: Scene, x: Assign, o: nat, sigs: seq<Sig>, least: real)
    requires Ring(c.g, c.ring, c.rank) && o < |c.ring|
  {
    forall y: Assign :: Sigs(c.g, y) && Alike(c, x, y, o) && At(y, c.ring[o]) in sigs ==>
        NEARLY * least <= Cost(c, y, |c.ring|)
  }

  ghost predicate SearchedAll(c: Scene, x: Assign, o: nat, least: real)
    requires Ring(c.g, c.ring, c.rank) && o <= |c.ring|
  {
    forall y: Assign :: Sigs(c.g, y) && Alike(c, x, y, o) ==> NEARLY * least <= Cost(c, y, |c.ring|)
  }

  /** What the search does to the kept minimum: nothing, or a real improvement. */
  ghost predicate Improves(c: Scene, x0: Assign, best: seq<Sig>, least: real, best': seq<Sig>, least': real)
    requires Ring(c.g, c.ring, c.rank)
  {
    || (best' == best && least' == least)
    || (least' < NEARLY * least && least' < least && Attained(c, x0, best', least'))
  }

  /** DfsAddNbhCost. */
  method Dfs(c: Scene, x: Assign, best: seq<Sig>, least: real, o: nat, curr: real, ghost x0: Assign)
    returns (x': Assign, best': seq<Sig>, least': real)
    requires Set(c, x0) && o <= |c.ring| && Sigs(c.g, x) && Varies(x0, x, c.ring) && curr == Cost(c, x, o)
    ensures Sigs(c.g, x') && Alike(c, x, x', o)
    ensures Improves(c, x0, best, least, best', least') && least' <= least
    ensures Admissible(c, x0) ==> SearchedAll(c, x, o, least')
    decreases |c.ring| - o
  {
    hide Set, Admissible, Net, Sigs, Clipped, Attained;
    SetFacts(c, x0);
    x', best', least' := x, best, least;
    SameAlike(c, x, o);
    if o == |c.ring| {
      LeafFacts(c, x, x0, o);
      if curr < least * NEARLY {
        best', least' := Signatures(c, x), curr;
        LeafKept(c, x0, x, best', least');
      }
      return;
    }
    if curr + c.acc[o] >= least {
      if Admissible(c, x0) { PrunedAll(c, x, o, curr, least, x0); }
      return;
    }
    for j := 0 to |c.orders[o]|
      invariant Sigs(c.g, x') && Alike(c, x, x', o)
      invariant Improves(c, x0, best, least, best', least') && least' <= least
      invariant Admissible(c, x0) ==> Searched(c, x, o, c.orders[o][..j], least')
    {
      hide Improves, Searched, SearchedAll, Alike, Varies;
      var s := c.orders[o][j];
      assert c.orders[o][..j + 1] == c.orders[o][..j] + [s];
      ghost var x1, best1, least1 := x', best', least';
      x' := x'[c.ring[o] := s];
      NextCost(c, x, x1, x', o, j, curr, x0);
      var more := EvalInNbhCost(c.g, c.out, c.into, c.ring[o], c.rank, x');
      ghost var x2 := x';
      x', best', least' := Dfs(c, x', best', least', o + 1, curr + c.outs[o][s] + more, x0);
      AlikeMore(c, x, x2, x', o);
      if Admissible(c, x0) { SearchedMore(c, x, x2, o, j, least1, least'); }
      ImprovesBoth(c, x0, best, least, best1, least1, best', least');
    }
    assert c.orders[o][..|c.orders[o]|] == c.orders[o];
    if Admissible(c, x0) { AllSearched(c, x, o, least', x0); }
  }

  function Signatures(c: Scene, x: Assign): seq<Sig> { seq(|c.ring|, p requires 0 <= p < |c.ring| => At(x, c.ring[p])) }

  lemma SetFacts(c: Scene, x0: Assign)
    requires Set(c, x0)
    ensures Net(c.g) && Wired(c.g) && NonNegative(c.g) && Listed(c.g, c.out, c.into) && Ring(c.g, c.ring, c.rank)
    ensures |c.outs| == |c.ring| && |c.orders| == |c.ring|
    ensures forall p :: 0 <= p < |c.ring| ==> c.ring[p] in c.g.node
    ensures forall p :: 0 <= p < |c.ring| ==>
            Permutes(c.orders[p], |c.outs[p]|) && |c.outs[p]| == |c.g.node[c.ring[p]].cost|
    ensures |c.acc| == |c.ring|
  {
  }

  lemma SameAlike(c: Scene, x: Assign, o: nat)
    requires o <= |c.ring|
    ensures Alike(c, x, x, o)
  {
  }

  lemma LeafFacts(c: Scene, x: Assign, x0: Assign, o: nat)
    requires Set(c, x0) && o == |c.ring|
    ensures 0.0 <= Cost(c, x, o)
    ensures forall y :: Alike(c, x, y, o) ==> Cost(c, y, o) == Cost(c, x, o)
  {
    hide Clipped;
    assert c.ring[o..] == [];
    ClipFacts(c.g, c.ring, c.rank, x, o);
    forall y | Alike(c, x, y, o)
      ensures Cost(c, y, o) == Cost(c, x, o)
    {
      PrefixFrame(c.g, c.ring, c.rank, x, y, o, o);
    }
  }

  lemma LeafKept(c: Scene, x0: Assign, x: Assign, best: seq<Sig>, least: real)
    requires Ring(c.g, c.ring, c.rank) && Sigs(c.g, x) && Varies(x0, x, c.ring) && best == Signatures(c, x)
             && least == Cost(c, x, |c.ring|)
    ensures Attained(c, x0, best, least)
  {
    assert Holding(c, x0, best, x);
  }

  lemma PrunedAll(c: Scene, x: Assign, o: nat, curr: real, least: real, x0: Assign)
    requires Set(c, x0) && o < |c.ring| && Varies(x0, x, c.ring) && curr == Cost(c, x, o) && Admissible(c, x0)
    requires 0 <= o < |c.acc| && curr + c.acc[o] >= least
    ensures SearchedAll(c, x, o, least)
  {
    hide Clipped;
    forall y: Assign | Sigs(c.g, y) && Alike(c, x, y, o) ensures NEARLY * least <= Cost(c, y, |c.ring|) {
      PrefixFrame(c.g, c.ring, c.rank, x, y, o, o);
      assert Varies(x0, y, c.ring);
      ClipFacts(c.g, c.ring, c.rank, y, |c.ring|);
      assert Cost(c, y, o) + c.acc[o] <= Cost(c, y, |c.ring|);
    }
  }

  lemma NextCost(c: Scene, x: Assign, x1: Assign, x2: Assign, o: nat, j: nat, curr: real, x0: Assign)
    requires Set(c, x0) && o < |c.ring| && Sigs(c.g, x1) && Varies(x0, x, c.ring) && Alike(c, x, x1, o)
             && curr == Cost(c, x, o)
    requires |c.orders| == |c.ring| && j < |c.orders[o]| && x2 == x1[c.ring[o] := c.orders[o][j]]
    ensures Sigs(c.g, x2) && Varies(x0, x2, c.ring) && |c.outs| == |c.ring| && c.orders[o][j] < |c.outs[o]|
    ensures Alike(c, x, x2, o)
    ensures Cost(c, x2, o + 1) == curr + c.outs[o][c.orders[o][j]] + InCost(c.g, c.ring[o], c.rank, x2)
  {
    hide Clipped, OutCost, InCost, Set, Net, Listed, OutTable, Wired, NonNegative;
    SetFacts(c, x0);
    SetTable(c, x0);
    var s, i := c.orders[o][j], c.ring[o];
    assert s in c.orders[o];
    assert i in c.ring[o..] by { assert c.ring[o..][0] == i; }
    assert Alike(c, x, x2, o);
    PrefixFrame(c.g, c.ring, c.rank, x, x2, o, o);
    OutTableFacts(c.g, c.ring, c.rank, x0, c.outs, x2);
    ClippedStep(c.g, c.ring, c.rank, x2, o);
  }

  lemma SetTable(c: Scene, x0: Assign)
    requires Set(c, x0)
    ensures OutTable(c.g, c.ring, c.rank, x0, c.outs)
  {
  }

  lemma ClippedStep(g: Graph, ring: seq<Id>, rank: map<Id, nat>, x: Assign, o: nat)
    requires Ring(g, ring, rank) && o < |ring|
    ensures Clipped(g, ring, rank, x, o + 1) == Clipped(g, ring, rank, x, o) + OutCost(g, ring[o], rank, x)
            + InCost(g, ring[o], rank, x)
  {
  }

  lemma AlikeMore(c: Scene, x: Assign, x2: Assign, x3: Assign, o: nat)
    requires o < |c.ring| && Alike(c, x, x2, o) && Alike(c, x2, x3, o + 1)
    ensures Alike(c, x, x3, o)
  {
    assert c.ring[o..] == [c.ring[o]] + c.ring[o + 1..];
  }

  lemma SearchedMore(c: Scene, x: Assign, x2: Assign, o: nat, j: nat, least: real, least': real)
    requires Ring(c.g, c.ring, c.rank) && o < |c.ring| && |c.orders| == |c.ring| && j < |c.orders[o]|
    requires Searched(c, x, o, c.orders[o][..j], least) && least' <= least
    requires Alike(c, x, x2, o) && At(x2, c.ring[o]) == c.orders[o][j] && SearchedAll(c, x2, o + 1, least')
    ensures Searched(c, x, o, c.orders[o][..j + 1], least')
  {
    hide Sigs, Clipped;
    var s := c.orders[o][j];
    assert c.ring[o..] == [c.ring[o]] + c.ring[o + 1..];
    assert c.orders[o][..j + 1] == c.orders[o][..j] + [s];
    forall y: Assign | Sigs(c.g, y) && Alike(c, x, y, o) && At(y, c.ring[o]) in c.orders[o][..j + 1]
      ensures NEARLY * least' <= Cost(c, y, |c.ring|)
    {
      if At(y, c.ring[o]) == s {
        assert Alike(c, x2, y, o + 1);
      } else {
        assert NEARLY * least <= Cost(c, y, |c.ring|);
      }
    }
  }

  lemma ImprovesBoth(c: Scene, x0: Assign, best: seq<Sig>, least: real, best1: seq<Sig>, least1: real,
                     best2: seq<Sig>, least2: real)
    requires Ring(c.g, c.ring, c.rank)
    requires Improves(c, x0, best, least, best1, least1) && Improves(c, x0, best1, least1, best2, least2)
             && least1 <= least && least2 <= least1
    ensures Improves(c, x0, best, least, best2, least2)
  {
  }

  lemma AllSearched(c: Scene, x: Assign, o: nat, least: real, x0: Assign)
    requires Set(c, x0) && o < |c.ring| && Searched(c, x, o, c.orders[o], least)
    ensures SearchedAll(c, x, o, least)
  {
    hide Clipped;
    forall y: Assign | Sigs(c.g, y) && Alike(c, x, y, o) ensures NEARLY * least <= Cost(c, y, |c.ring|) {
      assert c.ring[o] in c.g.node;
      assert At(y, c.ring[o]) in c.orders[o];
    }
  }
}
