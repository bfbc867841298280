/** Two nodes and one edge between them that supports no pair of signatures. */
module SbpExamples {
  import opened Wrappers
  import opened SbpForest
  import opened SbpOwnership
  import opened SbpSteps
  import opened SbpRun
  import opened SbpLists
  import opened SbpState
  import opened SbpOps
  import opened SbpMerging
  import opened SbpPick
  import opened NbhLocal

  function Single(i: Id): Node { Node(i, [1.0], Origin([1.0], []), []) }

  function Broken(): Edge { Edge(2, 0, 1, [[UNSUPPORTED]], Bare([[UNSUPPORTED]], [])) }

  function TwoNodes(): Graph { Graph(map[0 := Single(0), 1 := Single(1)], map[2 := Broken()]) }

  /** Listed as the graph lists them. */
  function TwoNodesView(): View {
    View([0, 1], map[0 := 0, 1 := 1], TwoNodes(), map[0 := [2], 1 := []], map[0 := [], 1 := [2]], map[], 3)
  }

  lemma SingleOk(i: Id)
    ensures ShapeNode(Single(i)) && FreshNode(Single(i), 0.0) && ForestNode(Single(i)) && NodeIds(Single(i)) == {i}
    ensures PartsOf(Single(i)) == Whole(i, 1)
  {
  }

  lemma BrokenOk()
    ensures ShapeEdge(Broken(), Whole(0, 1), Whole(1, 1)) && FreshEdge(Broken(), Whole(0, 1), Whole(1, 1), 0.0)
    ensures ForestEdge(Broken()) && EdgeIds(Broken()) == {2}
  {
  }

  lemma TwoNodesWired()
    ensures Wired(TwoNodes()) && Original(TwoNodes())
    ensures forall i :: i in TwoNodes().node ==> TwoNodes().node[i] == Single(i) && (i == 0 || i == 1)
    ensures forall k :: k in TwoNodes().edge ==> k == 2 && TwoNodes().edge[k] == Broken()
  {
  }

  lemma TwoNodesSound()
    ensures Sound(TwoNodes())
  {
    hide ShapeNode, ShapeEdge, PartsOf, Original;
    TwoNodesWired();
    BrokenOk();
    var g := TwoNodes();
    forall i | i in g.node ensures ShapeNode(g.node[i]) { SingleOk(i); }
    SingleOk(0);
    SingleOk(1);
    assert EdgeHolds(g, ShapeEdge, 2);
  }

  lemma TwoNodesFresh()
    ensures Wired(TwoNodes()) && Fresh(TwoNodes(), 0.0)
  {
    hide FreshNode, FreshEdge, PartsOf, Original;
    TwoNodesWired();
    BrokenOk();
    var g := TwoNodes();
    forall i | i in g.node ensures FreshNodes(0.0)(g.node[i]) { SingleOk(i); }
    SingleOk(0);
    SingleOk(1);
    assert EdgeHolds(g, FreshEdges(0.0), 2);
  }

  lemma TwoNodesOwned()
    ensures Owned(TwoNodes()) && Beyond(TwoNodes(), 3)
  {
    hide ForestNode, ForestEdge, NodeIds, EdgeIds, Original, Wired, TwoNodes;
    TwoNodesWired();
    BrokenOk();
    var g := TwoNodes();
    forall i | i in g.node ensures ForestNode(g.node[i]) && NodeIds(g.node[i]) == {i} { SingleOk(i); }
  }

  /** It is a graph to start from. */
  lemma TwoNodesGood()
    ensures Original(TwoNodes()) && Good(TwoNodes(), 0.0) && Beyond(TwoNodes(), 3)
  {
    hide Sound, Owned, Fresh, Beyond;
    TwoNodesWired();
    TwoNodesSound();
    TwoNodesFresh();
    TwoNodesOwned();
  }

  lemma TwoNodesKeys()
    ensures var v := TwoNodesView();
            && v.g == TwoNodes() && v.g.node.Keys == v.out.Keys == v.into.Keys == {0, 1}
            && Indexed(v.nodeList, v.listId, v.g.node.Keys)
  {
  }

  lemma TwoNodesOut(i: Id)
    requires i == 0 || i == 1
    ensures OutList(TwoNodes().edge, i, TwoNodesView().out[i])
  {
  }

  lemma TwoNodesIn(i: Id)
    requires i == 0 || i == 1
    ensures InList(TwoNodes().edge, i, TwoNodesView().into[i])
  {
  }

  lemma TwoNodesListed()
    ensures var v := TwoNodesView(); Indexed(v.nodeList, v.listId, v.g.node.Keys) && Listed(v.g, v.out, v.into)
  {
    hide OutList, InList, Indexed, TwoNodesView, TwoNodes;
    TwoNodesKeys();
    var v := TwoNodesView();
    forall i | i in v.out ensures OutList(v.g.edge, i, v.out[i]) { TwoNodesOut(i); }
    forall i | i in v.into ensures InList(v.g.edge, i, v.into[i]) { TwoNodesIn(i); }
  }

  /** The two cannot be merged: no pair survives the edge between them. */
  lemma MergeAborts()
    ensures var g := TwoNodes();
            && AtMostOne(g, 0, 1) && IsCommon(g, 0, 1, Some(2)) && !SomeKept(g, 0, 1, Some(2)) && Blocked(g)
  {
    assert BlockedAt(TwoNodes(), 0, 2);
  }

  /** The set for node 0 misses its neighbour 1, to which its edge leads. */
  lemma ConsumerNotCounted()
    ensures var v := TwoNodesView(); Counted(v, 0) == {0} && Slots(v, Near(v, 0)) == {0, 1}
  {
    var v := TwoNodesView();
    assert Touches(v.g.edge[2], 0) && Other(v.g.edge[2], 0) == 1;
    assert Near(v, 0) == {0, 1};
    assert v.listId[0] == 0 && v.listId[1] == 1;
  }
}
