/** SbpGraph: the object whose vectors and tables the eliminations update in place. */
module SbpGraph {
  import opened Wrappers
  import opened Sums
  import opened SbpForest
  import opened SbpOwnership
  import opened SbpSteps
  import opened SbpRun
  import opened SbpComplete
  import opened SbpSettled
  import opened SbpFinalize
  import opened SbpHandDown
  import opened SbpLists
  import opened SbpState
  import opened SbpOps
  import SbpCollapse
  import SbpMerging
  import SbpDriver
  import SbpRecompute
  import SbpRefresh
  import SbpRenew
  import opened SbpCharges
  import NbhCost
  import NbhGreedy
  import NbhSearch
  import GreedyLoop
  import NbhLocal
  import GreedyRuns
  import FirstStrategy
  import opened SbpTrack
  import opened SbpOptimum

  /** Whatever is legal for g is legal for g0, at the same original cost. */
  ghost function Matches(g0: Graph, g: Graph): (Assign, real) -> bool {
    (x, r) => Legal(g, x) ==> Legal(g0, x) && GraphBase(g, x, r) == GraphBase(g0, x, r)
  }

  /** g stands for g0: for every assignment, at every memory ratio. */
  ghost function Backed(g0: Graph): Graph -> bool { g => forall x, r :: Matches(g0, g)(x, r) }

  lemma LegalBack(g0: Graph, t: Trace, g: Graph, h: Graph, x: Assign, ratio: real)
    requires Backed(g0)(g) && Leads(g, t, h) && GoodAt(ratio)(g) && Legal(h, x)
    ensures Legal(g0, x) && GraphBase(h, x, ratio) == GraphBase(g0, x, ratio)
  {
    hide Good, Shrinks, Legal, GraphBase;
    RunConserves(t.gs, t.steps, |t.steps|, x, ratio, ratio);
    assert Matches(g0, g)(x, ratio);
  }

  // ----- ComputeCost -----

  ghost function NodeSum(g: Graph, x: Assign): nat -> real { NodeTerm(g, NodeCells(x)) }

  ghost function EdgeSum(g: Graph, x: Assign): nat -> real { EdgeTerm(g, EdgeCells(x)) }

  method OutCost(g: Graph, outs: seq<Id>, x: Assign) returns (sum: real)
    requires forall k :: k in outs ==> k in g.edge
    ensures sum == SeqSum(outs, EdgeSum(g, x))
  {
    sum := 0.0;
    for j := 0 to |outs|
      invariant sum == SeqSum(outs[..j], EdgeSum(g, x))
    {
      assert outs[j] in outs;
      sum := sum + EdgeCell(g.edge[outs[j]], x);
      assert outs[..j + 1][..j] == outs[..j];
    }
    assert outs[..|outs|] == outs;
  }

  lemma OneMore(v: View, i: nat, ratio: real)
    requires i < |v.nodeList| && Ok(ratio)(v)
    ensures var done, n := Elems(v.nodeList[..i]), v.nodeList[i];
            && Has(v, n) && n !in done && Elems(v.nodeList[..i + 1]) == done + {n}
            && (forall k :: k in v.out[n] ==> k in v.g.edge)
            &&
               forall x :: Sum(Leaving(v.g, done + {n}), EdgeSum(v.g, x)) == Sum(Leaving(v.g, done), EdgeSum(v.g, x))
                 + SeqSum(v.out[n], EdgeSum(v.g, x))
  {
    hide Ok, GoodAt, EdgeSum;
    SbpDriver.SlotOf(v, i, ratio);
    OkParts(v, ratio);
    var done, n := Elems(v.nodeList[..i]), v.nodeList[i];
    assert v.nodeList[..i + 1] == v.nodeList[..i] + [n];
    assert OutList(v.g.edge, n, v.out[n]);
    assert Elems(v.out[n]) == Leaving(v.g, {n});
    assert Leaving(v.g, done + {n}) == Leaving(v.g, done) + Leaving(v.g, {n});
    forall x ensures Sum(Leaving(v.g, done + {n}), EdgeSum(v.g, x)) == Sum(Leaving(v.g, done), EdgeSum(v.g, x))
        + SeqSum(v.out[n], EdgeSum(v.g, x)) {
      SeqSumIsSum(v.out[n], EdgeSum(v.g, x));
      SumUnion(Leaving(v.g, done), Leaving(v.g, {n}), EdgeSum(v.g, x));
    }
  }

  lemma AllNodes(v: View, ratio: real)
    requires Ok(ratio)(v)
    ensures Elems(v.nodeList) == v.g.node.Keys && Leaving(v.g, v.g.node.Keys) == v.g.edge.Keys
  {
    hide Ok, GoodAt, Listed;
    OkParts(v, ratio);
    GoodWired(v.g, ratio);
    forall i | i in v.g.node ensures i in Elems(v.nodeList) { assert v.nodeList[v.listId[i]] == i; }
  }

  /** SbpGraph::ComputeCost. */
  method CostOf(v: View, ghost ratio: real) returns (cost: real)
    requires Ok(ratio)(v)
    ensures cost == GraphCost(v.g, v.final)
  {
    hide Ok;
    cost := 0.0;
    ghost var x := v.final;
    for i := 0 to |v.nodeList|
      invariant cost == Sum(Elems(v.nodeList[..i]), NodeSum(v.g, x))
                + Sum(Leaving(v.g, Elems(v.nodeList[..i])), EdgeSum(v.g, x))
    {
      OneMore(v, i, ratio);
      var n := v.nodeList[i];
      var edges := OutCost(v.g, v.out[n], v.final);
      SumAdd(Elems(v.nodeList[..i]), n, NodeSum(v.g, x));
      cost := cost + NodeCell(v.g.node[n], v.final) + edges;
    }
    assert v.nodeList[..|v.nodeList|] == v.nodeList;
    AllNodes(v, ratio);
  }

  // ----- FinalizeSbp -----

  lemma AtLive(v: View, i: nat, ratio: real)
    requires i < |v.nodeList| && Ok(ratio)(v)
    ensures var n := v.nodeList[i];
            && Has(v, n) && (forall k :: k in v.out[n] + v.into[n] ==> k in v.g.edge)
            && AllAt(v.g, n, v.out[n] + v.into[n], EdgesOf(v.g.edge, v.out[n] + v.into[n]))
    ensures Sound(v.g) && Owned(v.g)
  {
    SbpDriver.SlotOf(v, i, ratio);
    OkParts(v, ratio);
    GoodWired(v.g, ratio);
    AtNode(v.g, v.out, v.into, v.nodeList[i]);
  }

  /** SbpGraph::FinalizeSbp: every live node in turn, with its outgoing and incoming edges. */
  method FinalizeAll(v: View, ghost ratio: real) returns (y: Assign)
    requires Ok(ratio)(v)
    ensures forall i :: i in v.g.node ==> At(y, i) == At(v.final, i)
    ensures RangedGraph(v.g, y) && Settled(v.g, y) && Legal(v.g, y)
    ensures GraphCost(v.g, y) == GraphCost(v.g, v.final) == GraphBase(v.g, y, ratio)
  {
    hide Ok, Sound, Owned, AllAt, RangedGraph, DoneFor;
    y := v.final;
    OkRest(v, ratio);
    NoneDone(v.g, y);
    for i := 0 to |v.nodeList|
      invariant forall c :: c in v.g.node ==> At(y, c) == At(v.final, c)
      invariant RangedGraph(v.g, y) && DoneFor(v.g, Elems(v.nodeList[..i]), y)
    {
      AtLive(v, i, ratio);
      var n := v.nodeList[i];
      var ks := v.out[n] + v.into[n];
      assert v.nodeList[..i + 1] == v.nodeList[..i] + [n];
      assert Elems(v.nodeList[..i + 1]) == Elems(v.nodeList[..i]) + {n};
      y := FinalizeLive(v.g, n, Elems(v.nodeList[..i]), ks, EdgesOf(v.g.edge, ks), y);
    }
    assert v.nodeList[..|v.nodeList|] == v.nodeList;
    FinalizedAll(v, y, ratio);
  }

  lemma NoneDone(g: Graph, x: Assign)
    ensures DoneFor(g, Elems([]), x)
  {
  }

  lemma FinalizedAll(v: View, y: Assign, ratio: real)
    requires Ok(ratio)(v) && RangedGraph(v.g, y) && DoneFor(v.g, Elems(v.nodeList), y)
    requires forall c :: c in v.g.node ==> At(y, c) == At(v.final, c)
    ensures Settled(v.g, y) && Legal(v.g, y) && GraphCost(v.g, y) == GraphCost(v.g, v.final) == GraphBase(v.g, y, ratio)
  {
    hide RangedGraph, DoneFor, Owned, Settled, Legal, GraphCost, GraphBase;
    AllNodes(v, ratio);
    AllDone(v.g, y);
    GraphMeaning(v.g, y, ratio);
    CostAgrees(v.g, v.final, y);
  }

  // ----- strategies of valid cost -----

  lemma SigsOf(v: View, ratio: real)
    requires Ok(ratio)(v)
    ensures Sigs(v.g, v.final)
  {
    hide Ok, GoodAt, Indexed, Listed, Beyond;
    OkParts(v, ratio);
    OkRest(v, ratio);
    forall i | i in v.g.node ensures At(v.final, i) < |v.g.node[i].cost| {
      GoodNode(v.g, ratio, i);
      assert RangedNodes(v.final)(v.g.node[i]);
    }
  }

  /** What the reduction does to strategies of valid cost. */
  lemma StrategyKept(v: View, t: Trace, w: View, ratio: real)
    requires Moves(v, t, w) && Charged(v.g) && 0.0 <= ratio && Ok(ratio)(v)
    ensures HasValid(v.g) ==> !SbpMerging.Blocked(w.g) && HasValid(w.g)
    ensures GraphCost(v.g, v.final) < VALID_MAX_COPY_COST ==> GraphCost(w.g, w.final) <= GraphCost(v.g, v.final)
  {
    hide Ok, NonNegative, Sigs, GraphCost, FollowAll, Charged, SbpMerging.Blocked, Indexed, Listed, Shrinks;
    OkParts(v, ratio);
    FreshNonNegative(v.g, ratio);
    SigsOf(v, ratio);
    var n := |t.steps|;
    assert t.steps[..n] == t.steps;
    if HasValid(v.g) {
      var x :| Sigs(v.g, x) && GraphCost(v.g, x) < VALID_MAX_COPY_COST;
      NeverBlocked(t.gs, t.steps, n, x, ratio);
      RunCheaper(t.gs, t.steps, n, x, ratio);
    }
    if GraphCost(v.g, v.final) < VALID_MAX_COPY_COST { RunCheaper(t.gs, t.steps, n, v.final, ratio); }
  }

  // ----- the memory ratio -----

  const MEMORY_INCREASE_RATIO := 2.0
  const MAX_MEMORY_RATIO := 22.0
  const MIN_MEMORY_RATIO := 0.1
  const IMPOSSIBLE_RATIO := 1.4

  function NextRatio(r: real): real {
    var raised := if MAX_MEMORY_RATIO < r * MEMORY_INCREASE_RATIO then MAX_MEMORY_RATIO else r * MEMORY_INCREASE_RATIO;
    if raised < MIN_MEMORY_RATIO then MIN_MEMORY_RATIO else raised
  }

  /** How often the ratio can still be raised: at most nine times. */
  ghost function Left(r: real): nat {
    if r < 0.1 then 9 else if r < 0.2 then 8 else if r < 0.4 then 7 else if r < 0.8 then 6 else if r < 1.6 then 5
    else if r < 3.2 then 4 else if r < 6.4 then 3 else if r < 12.8 then 2 else if r < MAX_MEMORY_RATIO then 1 else 0
  }

  /** The next ratio to try: the largest if there is far too little memory. */
  function RatioAfter(r: real, memory: real, available: real): real {
    if memory > available * IMPOSSIBLE_RATIO then MAX_MEMORY_RATIO else NextRatio(r)
  }

  /** The ratio rises, to at most the largest, and unless there is far too little memory by a factor
      of two or to the least one tried. */
  lemma RatioRises(r: real, memory: real, available: real)
    requires 0.0 <= r < MAX_MEMORY_RATIO
    ensures var s := RatioAfter(r, memory, available);
            && r < s <= MAX_MEMORY_RATIO && Left(s) < Left(r)
            && (s == MAX_MEMORY_RATIO || (memory <= available * IMPOSSIBLE_RATIO && (s == 2.0 * r || s == 0.1)))
  {
  }

  /** One search: the graph and the signatures it started from, and its run. */
  datatype Try = Try(v: View, ratio: real, run: seq<GreedyLoop.Moment>)

  ghost function LastOf(run: seq<GreedyLoop.Moment>): GreedyLoop.Moment
    requires run != []
  {
    run[|run| - 1]
  }

  /** The search ran to its end, on tables that are up to date at the ratio. */
  ghost predicate Searched(t: Try) {
    && Ok(t.ratio)(t.v) && GreedyLoop.Ran(t.v, 4, t.run) && t.run != []
    && var last := LastOf(t.run); GreedyLoop.Over(t.v, t.run, last.x, last.total, last.queue == [])
  }

  /** w is what the search has left. */
  ghost predicate LeftAt(t: Try, w: View) { t.run != [] && w == t.v.(final := LastOf(t.run).x) }

  /** w is that, recomputed at the next ratio. */
  ghost predicate TriedAgain(t: Try, w: View, ratio: real, memory: real, available: real) {
    && t.run != [] && w == t.v.(g := w.g, final := LastOf(t.run).x) && SbpRefresh.LikeGraph(t.v.g, w.g)
    && t.ratio < MAX_MEMORY_RATIO && ratio == RatioAfter(t.ratio, memory, available)
  }

  /** The searches follow each other for as long as the memory does not fit. */
  ghost predicate Tried(log: seq<Try>, adaptive: bool, available: real, memory: nat -> real) {
    && (forall i :: 0 <= i < |log| ==> Searched(log[i]))
    && forall i :: 0 < i < |log| ==> FollowsOn(log, i, adaptive, available, memory)
  }

  ghost predicate FollowsOn(log: seq<Try>, i: nat, adaptive: bool, available: real, memory: nat -> real)
    requires 0 < i < |log|
  {
    adaptive && memory(i) >= available && TriedAgain(log[i - 1], log[i].v, log[i].ratio, memory(i), available)
  }

  lemma NothingTried(adaptive: bool, available: real, memory: nat -> real)
    ensures Tried([], adaptive, available, memory)
  {
  }

  lemma Tries(log: seq<Try>, t: Try, adaptive: bool, available: real, memory: nat -> real)
    requires Tried(log, adaptive, available, memory) && Searched(t)
    requires |log| > 0 ==>
               && adaptive && memory(|log|) >= available
               && TriedAgain(log[|log| - 1], t.v, t.ratio, memory(|log|), available)
    ensures Tried(log + [t], adaptive, available, memory)
  {
    hide Searched, TriedAgain;
    var more := log + [t];
    forall i | 0 < i < |more| ensures FollowsOn(more, i, adaptive, available, memory) {
      assert more[i - 1] == log[i - 1];
      if i < |log| { assert more[i] == log[i] && FollowsOn(log, i, adaptive, available, memory); }
    }
  }

  lemma OneTry(t: Try, y: Assign, total: real, emptied: bool)
    requires Ok(t.ratio)(t.v) && GreedyLoop.Ran(t.v, 4, t.run) && GreedyLoop.Over(t.v, t.run, y, total, emptied)
    ensures Searched(t) && t.run != [] && LastOf(t.run).x == y && LastOf(t.run).total == total
            && (emptied <==> LastOf(t.run).queue == [])
  {
    hide Ok, GreedyLoop.Ran;
  }

  /** What a search leaves. From a valid cost: no higher cost; every small neighbourhood nearly at its
      best if the worklist ran empty; nodes without edges in any case. Without edges: nearly the least
      cost of all, from a valid cost or if some strategy is cheap. */
  ghost predicate Achieved(t: Try, emptied: bool, w: View) {
    && (GraphCost(t.v.g, t.v.final) <= VALID_MAX_COPY_COST ==>
          && GraphCost(w.g, w.final) <= GraphCost(t.v.g, t.v.final)
          && (emptied ==> forall i :: i in w.g.node ==> NbhLocal.Rested(w, i, 4, w.final))
          && (forall i :: GreedyRuns.Alone(w.g, i) ==> NbhLocal.Rested(w, i, 4, w.final)))
    && (w.g.edge == map[] && (GraphCost(t.v.g, t.v.final) <= VALID_MAX_COPY_COST || GreedyRuns.HasCheap(w.g)) ==>
          NearlyLeast(w.g, GraphCost(w.g, w.final)))
  }

  lemma LeftNoDearer(t: Try, emptied: bool, w: View)
    requires Achieved(t, emptied, w)
    ensures GraphCost(t.v.g, t.v.final) <= VALID_MAX_COPY_COST ==>
              GraphCost(w.g, w.final) <= GraphCost(t.v.g, t.v.final)
  {
    hide GraphCost, NbhLocal.Rested, GreedyRuns.Alone, GreedyRuns.HasCheap, NearlyLeast;
  }

  lemma SameRest(v: View, w: View, i: Id, num: nat, y: Assign)
    requires v.g == w.g && NbhLocal.Rested(v, i, num, y)
    ensures NbhLocal.Rested(w, i, num, y)
  {
    hide NbhLocal.Best;
    assert NbhLocal.Near(v, i) == NbhLocal.Near(w, i);
  }

  lemma SearchLeft(t: Try, delta: real, emptied: bool, w: View)
    requires w.g == t.v.g && GreedyLoop.Exact(t.v.g, t.v.final, w.final, delta)
    requires emptied && GraphCost(t.v.g, t.v.final) <= VALID_MAX_COPY_COST ==>
               forall i :: i in t.v.g.node ==> NbhLocal.Rested(t.v, i, 4, w.final)
    requires GraphCost(t.v.g, t.v.final) <= VALID_MAX_COPY_COST ==>
               forall i :: GreedyRuns.Alone(t.v.g, i) ==> NbhLocal.Rested(t.v, i, 4, w.final)
    requires t.v.g.edge == map[]
             && (GraphCost(t.v.g, t.v.final) <= VALID_MAX_COPY_COST || GreedyRuns.HasCheap(t.v.g)) ==>
               NearlyLeast(t.v.g, GraphCost(t.v.g, w.final))
    ensures Achieved(t, emptied, w)
  {
    hide GraphCost, NbhLocal.Rested, GreedyRuns.Alone, GreedyRuns.HasCheap, NearlyLeast;
    forall i | NbhLocal.Rested(t.v, i, 4, w.final) ensures NbhLocal.Rested(w, i, 4, w.final) {
      SameRest(t.v, w, i, 4, w.final);
    }
  }

  lemma AloneLeft(v: View, num: nat, run: seq<GreedyLoop.Moment>, y: Assign, total: real, emptied: bool)
    requires GreedyLoop.Field(v) && Sigs(v.g, v.final) && GraphCost(v.g, v.final) <= VALID_MAX_COPY_COST && num >= 1
    requires GreedyLoop.Ran(v, num, run) && GreedyLoop.Over(v, run, y, total, emptied)
    ensures forall i :: GreedyRuns.Alone(v.g, i) ==> NbhLocal.Rested(v, i, num, y)
  {
    hide GreedyLoop.Field, Sigs, GraphCost, GreedyLoop.Ran, GreedyLoop.Over, NbhLocal.Rested, GreedyRuns.Alone;
    forall i | GreedyRuns.Alone(v.g, i) ensures NbhLocal.Rested(v, i, num, y) {
      GreedyRuns.AloneAtRest(v, num, run, y, total, emptied, i);
    }
  }

  /** Where no edges are left, it is enough that some strategy is cheap. */
  lemma EdgelessLeft(v: View, num: nat, run: seq<GreedyLoop.Moment>, y: Assign, total: real, emptied: bool)
    requires GreedyLoop.Field(v) && Sigs(v.g, v.final) && Sigs(v.g, y) && num >= 1 && v.g.edge == map[]
    requires GreedyLoop.Ran(v, num, run) && GreedyLoop.Over(v, run, y, total, emptied)
    requires GraphCost(v.g, v.final) <= VALID_MAX_COPY_COST || GreedyRuns.HasCheap(v.g)
    ensures NearlyLeast(v.g, GraphCost(v.g, y))
  {
    hide Sigs, GraphCost, GreedyLoop.Ran, GreedyLoop.Over, NbhLocal.Rested, GreedyRuns.HasCheap, NbhGreedy.Hopeful,
        Lists, NbhCost.Net, NoParallel, Wired;
    GreedyLoop.FieldWired(v);
    forall i | i in v.g.node ensures NbhLocal.Rested(v, i, num, y) {
      assert GreedyRuns.Alone(v.g, i);
      if GraphCost(v.g, v.final) > VALID_MAX_COPY_COST { GreedyRuns.CheapEverywhere(v, num, i); }
      GreedyRuns.AloneAtRest(v, num, run, y, total, emptied, i);
    }
    forall z | Sigs(v.g, z) ensures NbhSearch.NEARLY * GraphCost(v.g, y) <= GraphCost(v.g, z) {
      GreedyRuns.EdgelessBest(v, num, y, z);
    }
  }

  /** How FindBestSbpSignature ends: a merge aborts, no first strategy is found, the strategy found is
      not valid, or it is. */
  datatype Outcome = MergeAborted | NoStrategy | TooDear | Found

  // ----- the object -----

  class SbpGraph {
    var nodeList: seq<Id>
    var listId: map<Id, nat>
    var node: map<Id, Node>
    var edge: map<Id, Edge>
    var out: map<Id, seq<Id>>
    var into: map<Id, seq<Id>>
    var final: Assign
    var nextId: Id
    var threshold: nat
    // the memory ratio the tables are fresh at, the original graph, and the steps taken since
    // the tables were last computed
    ghost var ratio: real
    ghost var origin: Graph
    ghost var past: Trace

    function Now(): View
      reads this
    {
      View(nodeList, listId, Graph(node, edge), out, into, final, nextId)
    }

    ghost predicate Valid()
      reads this
    {
      && threshold > 0 && |past.gs| > 0 && Leads(past.gs[0], past, Graph(node, edge))
      && GoodAt(ratio)(past.gs[0]) && Backed(origin)(past.gs[0]) && Ok(ratio)(Now())
         && ChargedAs(origin)(Graph(node, edge))
    }

    /** A graph of original nodes and edges, all of them live, with every signature at 0. */
    constructor (g: Graph, list: seq<Id>, at: map<Id, nat>, outs: map<Id, seq<Id>>, ins: map<Id, seq<Id>>, next: Id,
                 ghost r: real)
      requires Original(g) && Good(g, r) && Indexed(list, at, g.node.Keys) && Listed(g, outs, ins) && Beyond(g, next)
      ensures Valid() && origin == g && ratio == r && past == Still(g) && threshold == 100
      ensures Now() == View(list, at, g, outs, ins, map[], next)
    {
      hide Original, Good, Indexed, Listed, Beyond, Ok, GoodAt, Backed, Run, Charged;
      nodeList, listId, node, edge, out, into, final, nextId := list, at, g.node, g.edge, outs, ins, map[], next;
      threshold := 100;
      ratio, origin, past := r, g, Still(g);
      StartsOk(View(list, at, g, outs, ins, map[], next), r);
    }

    /** Every operation that takes steps ends here. */
    method Become(w: View, ghost t: Trace)
      requires Valid() && Leads(Now().g, t, w.g) && Ok(ratio)(w)
      modifies this
      ensures Valid() && Now() == w && past == Then(old(past), t) && past.gs[0] == old(past.gs[0])
              && origin == old(origin) && ratio == old(ratio) && threshold == old(threshold)
    {
      hide Ok, GoodAt, Backed, Run, ChargedAs;
      ChargedAlong(origin, Graph(node, edge), t, w.g);
      LeadsThen(past.gs[0], past, Graph(node, edge), t, w.g);
      FirstOf(past, t);
      nodeList, listId, node, edge, out, into, final, nextId := w.nodeList, w.listId, w.g.node, w.g.edge, w.out,
          w.into, w.final, w.next;
      past := Then(past, t);
    }

    method NodeElimination(n: Id) returns (num: nat, ghost t: Trace)
      requires Valid() && n in node
      modifies this
      ensures Valid() && past == Then(old(past), t) && past.gs[0] == old(past.gs[0]) && origin == old(origin)
              && ratio == old(ratio) && threshold == old(threshold)
      ensures Moves(old(Now()), t, Now())
      ensures num == 0 ==> Now() == old(Now())
      ensures num > 0 ==> Volume(Now().g) < old(Volume(Now().g))
    {
      hide Ok, GoodAt, Backed, Run, FollowAll, ChargedAs, Volume;
      HasLive(Now(), ratio);
      var w;
      w, num, t := SbpDriver.NodeElimination(Now(), n, ratio);
      Become(w, t);
    }

    method EdgeElimination(n: Id) returns (num: nat, ghost t: Trace)
      requires Valid() && n in node
      modifies this
      ensures Valid() && past == Then(old(past), t) && past.gs[0] == old(past.gs[0]) && origin == old(origin)
              && ratio == old(ratio) && threshold == old(threshold)
      ensures Moves(old(Now()), t, Now())
      ensures num == 0 ==> Now() == old(Now())
      ensures num > 0 ==> Volume(Now().g) < old(Volume(Now().g))
      ensures n in out && SbpCollapse.LoneUpTo(Now().g, out[n], n, |out[n]|)
    {
      hide Ok, GoodAt, Backed, Run, FollowAll, ChargedAs, Volume, SbpCollapse.LoneUpTo;
      HasLive(Now(), ratio);
      var w;
      w, num, t := SbpCollapse.EdgeElimination(Now(), n, ratio);
      Become(w, t);
    }

    method ChildElimination(n: Id) returns (num: nat, ghost t: Trace)
      requires Valid() && n in node
      modifies this
      ensures Valid() && past == Then(old(past), t) && past.gs[0] == old(past.gs[0]) && origin == old(origin)
              && ratio == old(ratio) && threshold == old(threshold)
      ensures Moves(old(Now()), t, Now())
      ensures num == 0 ==> Now() == old(Now())
      ensures num == 1 ==> node.Keys == old(node.Keys) - {n}
    {
      hide Ok, GoodAt, Backed, Run, FollowAll, ChargedAs, Volume;
      HasLive(Now(), ratio);
      var w;
      w, num, t := SbpOps.ChildElimination(Now(), n, ratio);
      Become(w, t);
    }

    method NodeMerging(f: Id, s: Id) returns (ok: bool, ghost t: Trace)
      requires Valid() && f in node && s in node && f != s && SbpMerging.AtMostOne(Graph(node, edge), f, s)
      modifies this
      ensures Valid() && past == Then(old(past), t) && past.gs[0] == old(past.gs[0]) && origin == old(origin)
              && ratio == old(ratio) && threshold == old(threshold)
      ensures Moves(old(Now()), t, Now())
      ensures if ok then Volume(Now().g) < old(Volume(Now().g)) else Now() == old(Now())
      ensures ok <==> old(exists common ::
                            && IsCommon(Graph(node, edge), f, s, common)
                            && SbpMerging.SomeKept(Graph(node, edge), f, s, common))
      ensures !ok ==> SbpMerging.Blocked(Graph(node, edge))
    {
      hide Ok, GoodAt, Backed, Run, FollowAll, ChargedAs, Volume, SbpMerging.SomeKept, SbpMerging.Blocked;
      HasLive(Now(), ratio);
      var w;
      w, ok, t := SbpMerging.NodeMerging(Now(), f, s, ratio);
      Become(w, t);
    }

    /** The whole reduction: it ends, and what it leaves has nothing left to eliminate. It aborts only
        where some edge leaves no pair of signatures valid, and never if the graph has a strategy of
        valid cost. The strategy it holds, if valid, does not get dearer. */
    method NodeAndEdgeEliminations() returns (total: nat, aborted: bool, ghost t: Trace)
      requires Valid()
      modifies this
      ensures Valid() && past == Then(old(past), t) && past.gs[0] == old(past.gs[0]) && origin == old(origin)
              && ratio == old(ratio) && threshold == old(threshold)
      ensures Moves(old(Now()), t, Now())
      ensures SbpDriver.Stuck(Now()) && (aborted ==> SbpMerging.Blocked(Graph(node, edge)))
      ensures Charged(origin) && 0.0 <= ratio && HasValid(old(Graph(node, edge))) ==>
              !aborted && HasValid(Graph(node, edge))
      ensures Charged(origin) && 0.0 <= ratio && GraphCost(old(Graph(node, edge)), old(final)) < VALID_MAX_COPY_COST ==>
                GraphCost(Graph(node, edge), final) <= GraphCost(old(Graph(node, edge)), old(final))
    {
      hide Ok, GoodAt, Backed, Run, FollowAll, Charged, SbpDriver.Stuck, SbpMerging.Blocked, HasValid, GraphCost;
      var w;
      ghost var v := Now();
      w, total, aborted, t := SbpDriver.NodeAndEdgeEliminations(Now(), threshold, ratio);
      if Charged(origin) && 0.0 <= ratio { StrategyKept(v, t, w, ratio); }
      Become(w, t);
    }

    /** At any memory ratio r: afterwards every table is up to date at r, and the reduced graph
        still stands for the original one; an unchanged ratio reproduces the live tables. */
    method ReComputeWeightedCost(r: real)
      requires Valid()
      modifies this
      ensures Valid() && ratio == r && origin == old(origin) && past == Still(Graph(node, edge))
      ensures SbpRefresh.LikeGraph(old(Graph(node, edge)), Graph(node, edge))
              && Now() == old(Now()).(g := Graph(node, edge))
      ensures r == old(ratio) ==> SbpRenew.SameTables(old(Graph(node, edge)), Graph(node, edge))
    {
      hide Ok, GoodAt, Backed, Run, SbpRefresh.LikeGraph, SbpRenew.SameTables, ChargedAs;
      var w := SbpRenew.RecomputeAll(Now(), r, ratio);
      BackedAfter(origin, past, Graph(node, edge), ratio, w.g);
      ChargedLike(origin, Graph(node, edge), w.g);
      OkParts(w, r);
      node, edge := w.g.node, w.g.edge;
      ratio, past := r, Still(w.g);
    }

    method ComputeCost() returns (cost: real)
      requires Valid()
      ensures cost == GraphCost(Graph(node, edge), final)
    {
      hide Ok, GoodAt, Backed, Run;
      cost := CostOf(Now(), ratio);
    }

    /** Searching the reduced graph: from a valid cost, what is returned is exactly the change of
        the cost, it is no increase, and unless the rounds ran out every small neighbourhood is
        left at nearly its best. Nodes without edges always are, and without any edges the whole is. */
    method GreedyStrategy(nbhNum: int) returns (delta: real, emptied: bool, ghost run: seq<GreedyLoop.Moment>)
      requires Valid() && Charged(origin) && 0.0 <= ratio && NoParallel(Graph(node, edge))
      modifies this`final
      ensures Valid() && GreedyLoop.Inside(old(Now()), final)
      ensures GreedyLoop.Exact(Graph(node, edge), old(final), final, delta)
      ensures emptied && GraphCost(Graph(node, edge), old(final)) <= VALID_MAX_COPY_COST ==>
                forall i :: i in node ==> NbhLocal.Rested(old(Now()), i, GreedyLoop.AtLeast1(nbhNum), final)
      ensures GreedyLoop.Ran(old(Now()), GreedyLoop.AtLeast1(nbhNum), run)
              && GreedyLoop.Over(old(Now()), run, final, delta, emptied)
      ensures GraphCost(Graph(node, edge), old(final)) <= VALID_MAX_COPY_COST ==>
                forall i :: GreedyRuns.Alone(Graph(node, edge), i) ==>
                  NbhLocal.Rested(old(Now()), i, GreedyLoop.AtLeast1(nbhNum), final)
      ensures edge == map[] && (GraphCost(Graph(node, edge), old(final)) <= VALID_MAX_COPY_COST
                                || GreedyRuns.HasCheap(Graph(node, edge))) ==>
                NearlyLeast(Graph(node, edge), GraphCost(Graph(node, edge), final))
    {
      hide GraphCost, NbhLocal.Rested, Ok, Backed, Run, Charged, NonNegative, NoParallel, GreedyLoop.Exact,
          NbhCost.Net, Sigs, Lists, Good, GreedyLoop.Ran, GreedyLoop.Over, GreedyRuns.Alone, GreedyRuns.HasCheap,
          NearlyLeast;
      ghost var was := Now();
      OkParts(was, ratio);
      FreshNonNegative(was.g, ratio);
      FieldOf(was, ratio);
      final, delta, emptied, run := GreedyLoop.GreedyStrategy(Now(), nbhNum);
      StaysRanged(was, final, ratio);
      NewFinal(was, Now(), ratio);
      ghost var num := GreedyLoop.AtLeast1(nbhNum);
      if GraphCost(was.g, was.final) <= VALID_MAX_COPY_COST { AloneLeft(was, num, run, final, delta, emptied); }
      if edge == map[] && (GraphCost(was.g, was.final) <= VALID_MAX_COPY_COST || GreedyRuns.HasCheap(was.g)) {
        EdgelessLeft(was, num, run, final, delta, emptied);
      }
    }

    /** Undoing the whole history: the signatures of the live nodes stay, every original node
        gets one, and the original graph then costs what the reduced graph costs, which is the
        least that any completion of the live signatures costs. */
    method FinalizeSbp()
      requires Valid()
      modifies this`final
      ensures Valid() && (forall i :: i in node ==> At(final, i) == At(old(final), i))
      ensures Legal(origin, final)
      ensures GraphBase(origin, final, ratio) == GraphCost(Graph(node, edge), final)
      ensures GraphCost(Graph(node, edge), final) == GraphCost(Graph(node, edge), old(final))
      ensures forall z :: Legal(Graph(node, edge), z) && (forall i :: i in node ==> At(z, i) == At(final, i)) ==>
                Legal(origin, z) && GraphBase(origin, final, ratio) <= GraphBase(origin, z, ratio)
    {
      hide Ok, GoodAt, Backed, Run, Legal, GraphBase, GraphCost, RangedGraph;
      ghost var was := Now();
      final := FinalizeAll(Now(), ratio);
      NewFinal(was, Now(), ratio);
      LegalBack(origin, past, past.gs[0], Graph(node, edge), final, ratio);
      forall z | Legal(Graph(node, edge), z) && (forall i :: i in node ==> At(z, i) == At(final, i))
        ensures Legal(origin, z) && GraphBase(origin, final, ratio) <= GraphBase(origin, z, ratio)
      {
        LegalBack(origin, past, past.gs[0], Graph(node, edge), z, ratio);
        CompletedCost(Now(), z, ratio);
      }
    }

    /** A first strategy: it is found if there is one of valid cost, and leaves every edge valid. */
    method Find1Strategy4Greedy() returns (found: bool)
      requires Valid() && Charged(origin) && 0.0 <= ratio && NoParallel(Graph(node, edge))
      modifies this`final
      ensures Valid() && GreedyLoop.Inside(old(Now()), final)
      ensures HasValid(Graph(node, edge)) ==> found
      ensures found ==> forall k :: k in edge ==> EdgeCell(edge[k], final) < VALID_MAX_COPY_COST
    {
      hide GraphCost, Ok, Backed, Run, Charged, NonNegative, NoParallel, NbhCost.Net, Sigs, Lists, Good, EdgeCell,
           FirstStrategy.Connected, FirstStrategy.Reasonable, NbhCost.Ring;
      ghost var was := Now();
      OkParts(was, ratio);
      FreshNonNegative(was.g, ratio);
      FieldOf(was, ratio);
      var ring, rank;
      found, final, ring, rank := FirstStrategy.Find1Strategy4Greedy(Now());
      StaysRanged(was, final, ratio);
      NewFinal(was, Now(), ratio);
    }

    lemma ValidNow()
      requires Valid()
      ensures Ok(ratio)(Now()) && |past.gs| > 0 && Leads(past.gs[0], past, Graph(node, edge))
      ensures GoodAt(ratio)(past.gs[0]) && Backed(origin)(past.gs[0])
    {
      hide Ok, GoodAt, Backed, Run;
    }

    /** One search with neighbourhoods of four nodes. */
    method SearchOnce() returns (emptied: bool, ghost t: Try)
      requires Valid() && Charged(origin) && 0.0 <= ratio && NoParallel(Graph(node, edge))
      modifies this`final
      ensures Valid() && Searched(t) && t.v == old(Now()) && t.ratio == ratio
      ensures LeftAt(t, Now()) && (emptied <==> LastOf(t.run).queue == []) && Achieved(t, emptied, Now())
    {
      hide Ok, GoodAt, Backed, Run, ChargedAs, Charged, NoParallel, GraphCost, GreedyLoop.Exact, GreedyLoop.Inside,
          GreedyLoop.Ran, GreedyLoop.Over, NbhLocal.Rested, GreedyRuns.Alone, GreedyRuns.HasCheap, NearlyLeast,
          Achieved, Searched;
      ghost var was := Now();
      var delta;
      ghost var run;
      delta, emptied, run := GreedyStrategy(4);
      t := Try(was, ratio, run);
      OneTry(t, final, delta, emptied);
      NoDearer(Graph(node, edge), was.final, final, delta);
      SearchLeft(t, delta, emptied, Now());
    }

    /** Back to the search at a larger ratio. */
    method RaiseRatio(r: real, ghost t: Try, memory: real, available: real)
      requires Valid() && NoParallel(Graph(node, edge)) && LeftAt(t, Now()) && t.ratio < MAX_MEMORY_RATIO
      requires r == RatioAfter(t.ratio, memory, available)
      modifies this
      ensures Valid() && ratio == r && origin == old(origin) && NoParallel(Graph(node, edge))
      ensures TriedAgain(t, Now(), r, memory, available) && LegalAs(old(Graph(node, edge)))(Graph(node, edge))
    {
      hide Ok, GoodAt, Backed, Run, ChargedAs, NoParallel, LegalAs, SbpRefresh.LikeGraph, SbpRenew.SameTables;
      ghost var g := Graph(node, edge);
      ReComputeWeightedCost(r);
      LikeNoParallel(g, Graph(node, edge));
      LikeLegalAs(g, Graph(node, edge));
    }

    /** The loop of FindBestSbpSignature: memory(i) is the memory measured after the ith search, and
        log has every search, each from where the one before has left off. */
    method SearchRatios(adaptive: bool, memoryRatio: real, available: real, memory: nat -> real)
      returns (tries: nat, emptied: bool, ghost log: seq<Try>)
      requires Valid() && Charged(origin) && 0.0 <= ratio == memoryRatio && NoParallel(Graph(node, edge))
      modifies this
      ensures Valid() && origin == old(origin) && NoParallel(Graph(node, edge))
      ensures |log| == tries > 0 && log[0].v == old(Now()) && log[0].ratio == old(ratio) <= ratio
      ensures Tried(log, adaptive, available, memory) && Ended(log, adaptive, available, memory, emptied, Now(), ratio)
      ensures LegalAs(old(Graph(node, edge)))(Graph(node, edge))
    {
      hide Valid, Charged, NoParallel, LegalAs, Tried, Achieved, Searched, TriedAgain, RatioAfter;
      var current, done := memoryRatio, false;
      tries, emptied, log := 0, false, [];
      LegalAsSelf(Graph(node, edge));
      NothingTried(adaptive, available, memory);
      while !done
        invariant Valid() && origin == old(origin) && old(ratio) <= ratio == current && NoParallel(Graph(node, edge))
        invariant |log| == tries && Tried(log, adaptive, available, memory)
        invariant if tries == 0 then Now() == old(Now()) && ratio == old(ratio)
                  else log[0].v == old(Now()) && log[0].ratio == old(ratio)
        invariant LegalAs(old(Graph(node, edge)))(Graph(node, edge))
        invariant !done && tries > 0 ==>
                    && adaptive && memory(tries) >= available
                    && TriedAgain(log[tries - 1], Now(), ratio, memory(tries), available)
        invariant done ==> tries > 0 && Ended(log, adaptive, available, memory, emptied, Now(), ratio)
        decreases if done then 0 else 1 + Left(current)
      {
        ghost var t;
        emptied, t := SearchOnce();
        Tries(log, t, adaptive, available, memory);
        log, tries := log + [t], tries + 1;
        done := !adaptive || memory(tries) < available || current >= MAX_MEMORY_RATIO;
        if !done {
          RatioRises(current, memory(tries), available);
          current := RatioAfter(current, memory(tries), available);
          ghost var g := Graph(node, edge);
          RaiseRatio(current, t, memory(tries), available);
          LegalAsBoth(old(Graph(node, edge)), g, Graph(node, edge));
        }
      }
    }

    /** The reduction, and a first strategy if the given one is not valid. */
    method Prepare() returns (failed: Option<Outcome>, cost: real, ghost t: Trace)
      requires Valid() && Charged(origin) && 0.0 <= ratio
      modifies this
      ensures Valid() && origin == old(origin) && ratio == old(ratio)
      ensures failed == None || failed == Some(MergeAborted) || failed == Some(NoStrategy)
      ensures failed == Some(MergeAborted) ==> SbpMerging.Blocked(Graph(node, edge))
      ensures HasValid(old(Graph(node, edge))) ==> failed == None
      ensures NoParallel(Graph(node, edge)) && Leads(old(Graph(node, edge)), t, Graph(node, edge))
      ensures GraphCost(old(Graph(node, edge)), old(final)) < VALID_MAX_COPY_COST ==>
                && failed == None
                && GraphCost(Graph(node, edge), final) <= GraphCost(old(Graph(node, edge)), old(final))
    {
      hide Ok, GoodAt, Backed, Run, FollowAll, ChargedAs, Charged, NoParallel, GraphCost, Sigs, SbpDriver.Stuck,
          SbpMerging.Blocked, GreedyLoop.Inside, EdgeCell, HasValid;
      failed := None;
      cost := ComputeCost();
      HeldIsValid(Now(), ratio);
      var total, aborted;
      total, aborted, t := NodeAndEdgeEliminations();
      StuckParallel(Now());
      if aborted { return Some(MergeAborted), cost, t; }
      if cost > VALID_MAX_COPY_COST {
        var found := Find1Strategy4Greedy();
        if !found { failed := Some(NoStrategy); }
      }
    }

    /** SbpConstructor::FindBestSbpSignature: reduce, search, and, for as long as the memory does not
        fit, recompute at the next memory ratio and search again; then hand everything down. */
    method FindBestSbpSignature(adaptive: bool, memoryRatio: real, available: real, memory: nat -> real)
      returns (r: Outcome, cost: real, tries: nat, emptied: bool, ghost log: seq<Try>)
      requires Valid() && Charged(origin) && 0.0 <= ratio == memoryRatio
      modifies this
      ensures Valid() && origin == old(origin)
      // why it fails
      ensures r.MergeAborted? ==> SbpMerging.Blocked(Graph(node, edge))
      ensures HasValid(old(Graph(node, edge))) ==> r.Found? || r.TooDear?
      // what it finds
      ensures r.Found? || r.TooDear? ==>
                && Legal(origin, final) && cost == GraphBase(origin, final, ratio)
                && (r.Found? <==> cost < VALID_MAX_COPY_COST)
      ensures r.Found? || r.TooDear? ==>
                forall z :: Legal(Graph(node, edge), z) && (forall i :: i in node ==> At(z, i) == At(final, i)) ==>
                  Legal(origin, z) && cost <= GraphBase(origin, z, ratio)
      // how it searches
      ensures r.Found? || r.TooDear? ==>
                && |log| == tries > 0 && log[0].ratio == old(ratio) && Tried(log, adaptive, available, memory)
                && cost == GraphCost(Graph(node, edge), final)
                && Finished(log, adaptive, available, memory, emptied, Now(), ratio)
      // it does not do worse than what it started from
      ensures !adaptive && GraphCost(old(Graph(node, edge)), old(final)) < VALID_MAX_COPY_COST ==>
                r.Found? && ratio == old(ratio) && cost <= GraphCost(old(Graph(node, edge)), old(final))
      // where the reduction leaves no edge, nothing is much cheaper
      ensures (r.Found? || r.TooDear?) && edge == map[] && Original(origin) && old(Graph(node, edge)) == origin ==>
                Start(log) <= VALID_MAX_COPY_COST || HasCheapStrategy(origin, ratio) ==>
                  NearlyOptimal(origin, ratio, cost)
    {
      hide Valid, Charged, NoParallel, Legal, GraphBase, GraphCost, SbpMerging.Blocked, HasValid, Tried, Keeps, LegalAs,
          NearlyOptimal, Original, Achieved, Ok, Run, Backed, GoodAt, HasCheapStrategy;
      ghost var was, t := Now(), Still(Graph(node, edge));
      ValidNow();
      var failed;
      failed, cost, t := Prepare();
      if failed.Some? { return failed.value, cost, 0, false, []; }
      ghost var reduced, prepared := Graph(node, edge), GraphCost(Graph(node, edge), final);
      tries, emptied, log := SearchRatios(adaptive, memoryRatio, available, memory);
      ghost var left := Now();
      ValidNow();
      FinalizeSbp();
      cost := ComputeCost();
      r := if cost < VALID_MAX_COPY_COST then Found else TooDear;
      StillEnded(log, adaptive, available, memory, emptied, left, Now(), ratio);
      OneTryOnly(log, adaptive, available, memory);
      LeftNoDearer(log[tries - 1], emptied, Now());
      assert !adaptive ==> log[tries - 1].ratio == ratio == old(ratio) && Start(log) == prepared;
      assert !adaptive && prepared < VALID_MAX_COPY_COST ==> cost <= prepared && r.Found?;
      ValidNow();
      if edge == map[] && Original(origin) && was.g == origin
         && (Start(log) <= VALID_MAX_COPY_COST || HasCheapStrategy(origin, ratio)) {
        ValidKept(was, t, reduced, memoryRatio);
        Optimal(was.g, past, reduced, Now(), memoryRatio, ratio, log[tries - 1], emptied);
      }
    }
  }

  /** The last search has left w, and there is no reason for another. */
  ghost predicate Ended(log: seq<Try>, adaptive: bool, available: real, memory: nat -> real, emptied: bool, w: View,
                        ratio: real)
    requires log != []
  {
    LeftAt(log[|log| - 1], w) && Finished(log, adaptive, available, memory, emptied, w, ratio)
  }

  ghost predicate Finished(log: seq<Try>, adaptive: bool, available: real, memory: nat -> real, emptied: bool, w: View,
                           ratio: real)
    requires log != []
  {
    var last := log[|log| - 1];
    && last.ratio == ratio && last.run != [] && (emptied <==> LastOf(last.run).queue == [])
    && (!adaptive || memory(|log|) < available || ratio >= MAX_MEMORY_RATIO) && Achieved(last, emptied, w)
  }

  lemma StillEnded(log: seq<Try>, adaptive: bool, available: real, memory: nat -> real, emptied: bool, v: View, w: View,
                   ratio: real)
    requires log != [] && Ended(log, adaptive, available, memory, emptied, v, ratio) && Ok(ratio)(v)
    requires w == v.(final := w.final) && forall i :: i in v.g.node ==> At(w.final, i) == At(v.final, i)
    ensures Finished(log, adaptive, available, memory, emptied, w, ratio)
  {
    hide Achieved, Ok;
    StillLeft(log[|log| - 1], emptied, v, w, ratio);
  }

  lemma OneTryOnly(log: seq<Try>, adaptive: bool, available: real, memory: nat -> real)
    requires Tried(log, adaptive, available, memory)
    ensures adaptive || |log| <= 1
  {
    hide Searched, TriedAgain;
    if |log| > 1 { assert FollowsOn(log, 1, adaptive, available, memory); }
  }

  /** The cost before the last search. */
  ghost function Start(log: seq<Try>): real {
    if log == [] then 0.0 else GraphCost(log[|log| - 1].v.g, log[|log| - 1].v.final)
  }

  /** Handing down changes no live signature, so what the search has left stays. */
  lemma StillLeft(t: Try, emptied: bool, v: View, w: View, ratio: real)
    requires Achieved(t, emptied, v) && w == v.(final := w.final) && Ok(ratio)(v)
    requires forall i :: i in v.g.node ==> At(w.final, i) == At(v.final, i)
    ensures Achieved(t, emptied, w)
  {
    hide Ok, GraphCost, NbhLocal.Rested, GreedyRuns.Alone, GreedyRuns.HasCheap, NearlyLeast, Sigs, Wired;
    OkParts(v, ratio);
    GoodWired(v.g, ratio);
    SigsOf(v, ratio);
    CostAgrees(v.g, v.final, w.final);
    forall i | i in v.g.node && NbhLocal.Rested(v, i, 4, v.final) ensures NbhLocal.Rested(w, i, 4, w.final) {
      NbhLocal.RestsOn(v, i, 4, v.final, w.final);
      SameRest(v, w, i, 4, w.final);
    }
    forall i | GreedyRuns.Alone(v.g, i) ensures i in v.g.node { AloneLive(v.g, i); }
  }

  lemma AloneLive(g: Graph, i: Id)
    requires GreedyRuns.Alone(g, i)
    ensures i in g.node
  {
  }

  lemma ValidKept(v: View, t: Trace, g: Graph, ratio: real)
    requires Leads(v.g, t, g) && Original(v.g) && Charged(v.g) && 0.0 <= ratio && Ok(ratio)(v)
    ensures Keeps(v.g, ratio)(g) && Wired(v.g)
  {
    hide Ok, NonNegative, Charged, Indexed, Listed, Shrinks, Original, Keeps;
    OkParts(v, ratio);
    GoodWired(v.g, ratio);
    FreshNonNegative(v.g, ratio);
    RunKeepsValid(t.gs, t.steps, ratio);
  }

  lemma Optimal(g0: Graph, past: Trace, reduced: Graph, w: View, r0: real, r: real, t: Try, emptied: bool)
    requires Original(g0) && Wired(g0) && Charged(g0) && r0 <= r && Keeps(g0, r0)(reduced) && LegalAs(reduced)(w.g)
    requires |past.gs| > 0 && Leads(past.gs[0], past, w.g) && GoodAt(r)(past.gs[0]) && Backed(g0)(past.gs[0])
             && Ok(r)(w)
    requires Achieved(t, emptied, w) && w.g.edge == map[]
    requires GraphCost(t.v.g, t.v.final) <= VALID_MAX_COPY_COST || HasCheapStrategy(g0, r)
    ensures NearlyOptimal(g0, r, GraphCost(w.g, w.final))
  {
    hide Original, Wired, Charged, Backed, Run, Legal, GraphBase, GraphCost, NearlyLeast, NearlyOptimal, Ok, Keeps,
        LegalAs, Indexed, Listed, Sound, Fresh, Owned, HasCheapStrategy, NbhLocal.Rested, GreedyRuns.Alone,
        GreedyRuns.HasCheap;
    OkParts(w, r);
    KeepsOn(g0, r0, reduced, w.g);
    forall y | Legal(w.g, y) ensures GraphBase(w.g, y, r) == GraphBase(g0, y, r) {
      LegalBack(g0, past, past.gs[0], w.g, y, r);
    }
    if HasCheapStrategy(g0, r) { CheapCarried(g0, r0, w.g, r); }
    OptimumCarried(g0, r0, w.g, r, GraphCost(w.g, w.final));
  }

  lemma HeldIsValid(v: View, ratio: real)
    requires Ok(ratio)(v)
    ensures GraphCost(v.g, v.final) < VALID_MAX_COPY_COST ==> HasValid(v.g)
  {
    hide Ok, GraphCost, Sigs;
    SigsOf(v, ratio);
  }

  lemma StuckParallel(v: View)
    requires SbpDriver.Stuck(v)
    ensures NoParallel(v.g)
  {
  }

  lemma NoDearer(g: Graph, x: Assign, y: Assign, delta: real)
    requires GreedyLoop.Exact(g, x, y, delta)
    ensures GraphCost(g, x) <= VALID_MAX_COPY_COST ==> GraphCost(g, y) <= GraphCost(g, x)
  {
    hide GraphCost;
  }

  lemma CompletedCost(v: View, z: Assign, ratio: real)
    requires Ok(ratio)(v) && Legal(v.g, z) && forall i :: i in v.g.node ==> At(z, i) == At(v.final, i)
    ensures GraphCost(v.g, v.final) <= GraphBase(v.g, z, ratio)
  {
    hide Owned, Legal, GraphCost, GraphBase, RangedGraph;
    GraphMeaning(v.g, z, ratio);
    CostAgrees(v.g, v.final, z);
  }

  lemma LikeNoParallel(g: Graph, h: Graph)
    requires SbpRefresh.LikeGraph(g, h) && NoParallel(g)
    ensures NoParallel(h)
  {
    hide SbpRecompute.LikeNode, SbpRecompute.LikeEdge;
    forall k | k in h.edge ensures h.edge[k].start == g.edge[k].start && h.edge[k].end == g.edge[k].end {
      SbpRefresh.LikeEnds(g.edge[k], h.edge[k]);
    }
  }

  /** Recomputing changes no original cost, so the new live graph stands for the original too. */
  lemma BackedAfter(g0: Graph, t: Trace, g: Graph, ratio: real, h: Graph)
    requires |t.gs| > 0 && Leads(t.gs[0], t, g) && GoodAt(ratio)(t.gs[0]) && Backed(g0)(t.gs[0])
             && SbpRefresh.LikeGraph(g, h)
    ensures Backed(g0)(h)
  {
    hide Good, Shrinks, Legal, GraphBase, SbpRefresh.LikeGraph;
    var f := t.gs[0];
    forall x: Assign, r: real ensures Matches(g0, h)(x, r) {
      assert Matches(g0, f)(x, r);
      if Legal(h, x) {
        SbpRefresh.LikeLegal(g, h, x);
        SbpRefresh.LikeGraphBase(g, h, x, r);
        RunConserves(t.gs, t.steps, |t.steps|, x, ratio, r);
      }
    }
  }

  lemma StartsOk(v: View, r: real)
    requires Original(v.g) && Good(v.g, r) && Indexed(v.nodeList, v.listId, v.g.node.Keys) && Listed(v.g, v.out, v.into)
    requires Beyond(v.g, v.next) && v.final == map[]
    ensures Ok(r)(v) && GoodAt(r)(v.g) && Backed(v.g)(v.g)
  {
    hide Good, Indexed, Listed, Beyond, RangedGraph, Legal, GraphBase;
    StartsRanged(v.g, r);
  }

  lemma StartsRanged(g: Graph, r: real)
    requires Original(g) && Good(g, r)
    ensures RangedGraph(g, map[])
  {
    hide Owned, Fresh, ShapeNode, ShapeEdge, NodeIds, EdgeIds;
    forall i | i in g.node ensures RangedNodes(map[])(g.node[i]) {
      assert ShapeNode(g.node[i]);
      PlainRanged(g.node[i]);
    }
    forall k | k in g.edge ensures RangedEdges(map[])(g.edge[k]) { assert g.edge[k].body.Bare?; }
  }

  lemma PlainRanged(n: Node)
    requires ShapeNode(n) && n.body.Origin? && n.children == []
    ensures RangedNode(n, map[])
  {
  }

  lemma FirstOf(t: Trace, u: Trace)
    requires |t.gs| == |t.steps| + 1 && |u.gs| == |u.steps| + 1 && t.gs[|t.steps|] == u.gs[0]
    ensures |Then(t, u).gs| > 0 && Then(t, u).gs[0] == t.gs[0]
  {
  }

  lemma FieldOf(v: View, ratio: real)
    requires Ok(ratio)(v) && NonNegative(v.g) && NoParallel(v.g)
    ensures GreedyLoop.Field(v) && Sigs(v.g, v.final)
  {
    hide NonNegative, NoParallel, Ok, GoodAt, Indexed, Listed, ShapeNode, Beyond;
    OkParts(v, ratio);
    OkRest(v, ratio);
    GoodWired(v.g, ratio);
    forall k | k in v.g.edge
      ensures Sized(v.g.edge[k].cost, |v.g.node[v.g.edge[k].start].cost|, |v.g.node[v.g.edge[k].end].cost|)
    {
      EdgeSizes(v.g, k, ratio);
    }
    forall i | i in v.g.node ensures |v.g.node[i].cost| > 0 && At(v.final, i) < |v.g.node[i].cost| {
      GoodNode(v.g, ratio, i);
      assert RangedNodes(v.final)(v.g.node[i]);
    }
  }

  /** New signatures on live nodes leave everything swallowed in range. */
  lemma StaysRanged(v: View, y: Assign, ratio: real)
    requires Ok(ratio)(v) && GreedyLoop.Inside(v, y) && Sigs(v.g, y)
    ensures RangedGraph(v.g, y)
  {
    hide Ok, GoodAt, Indexed, Listed, Owned, Beyond, RangedNode, RangedEdge;
    OkRest(v, ratio);
    OkParts(v, ratio);
    GoodWired(v.g, ratio);
    SbpRenew.GoodOwned(v.g, ratio);
    forall i | i in v.g.node ensures RangedNodes(y)(v.g.node[i]) {
      assert RangedNodes(v.final)(v.g.node[i]);
      NodeStaysRanged(v.g, i, v.final, y);
    }
    forall k | k in v.g.edge ensures RangedEdges(y)(v.g.edge[k]) {
      assert RangedEdges(v.final)(v.g.edge[k]);
      EdgeStaysRanged(v.g, k, v.final, y);
    }
  }

  lemma NodeStaysRanged(g: Graph, i: Id, x: Assign, y: Assign)
    requires Wired(g) && Owned(g) && i in g.node && RangedNode(g.node[i], x) && At(y, i) < |g.node[i].cost|
    requires forall j :: j !in g.node ==> At(y, j) == At(x, j)
    ensures RangedNode(g.node[i], y)
  {
    hide RangedNode;
    forall l | l in g.node && l != i ensures l !in NodeIds(g.node[i]) { assert l in NodeIds(g.node[l]); }
    RangedRoot(g.node[i], x, y);
  }

  lemma EdgeStaysRanged(g: Graph, k: Id, x: Assign, y: Assign)
    requires Wired(g) && Owned(g) && k in g.edge && RangedEdge(g.edge[k], x)
    requires forall j :: j !in g.node ==> At(y, j) == At(x, j)
    ensures RangedEdge(g.edge[k], y)
  {
    hide RangedEdge;
    forall l | l in g.node ensures l !in EdgeIds(g.edge[k]) { assert l in NodeIds(g.node[l]); }
    RangedEdgeFrame(g.edge[k], x, y);
  }

  lemma NewFinal(v: View, w: View, ratio: real)
    requires Ok(ratio)(v) && RangedGraph(v.g, w.final) && w == v.(final := w.final)
    ensures Ok(ratio)(w)
  {
    hide Good, Indexed, Listed, Beyond, RangedGraph;
  }
}
