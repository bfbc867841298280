# Strategy search and scheduling in OneFlow, in Dafny

A model of the parts of OneFlow that search for a distribution strategy, order and weigh the
operators of a job, run gradients backwards and route tensors between distributions, with proofs
of what these parts promise. Arithmetic is exact: costs and times are reals, sizes are integers.

- **Reducing the SBP graph** (`Sbp*.dfy`). Nodes and edges carry cost tables over their
  signatures. A run of steps folds nodes of degree two into compound edges, collapses parallel
  edges, absorbs leaves and merges pairs of nodes. What a step swallows is owned by what replaces
  it, so the history is a forest of values (`SbpForest`); sub-edges keep naming the ends they had.
  `GraphCost` adds up the live tables, `GraphBase` the original costs of everything in the forest.
  The central theorem is `SbpExtend.ReducedCostIsMinimum`: after any run the reduced cost of any
  live signatures is the minimum of the original cost over all completions. The class
  `SbpGraph.SbpGraph` holds the lists the source mutates; every operation keeps `Valid()`, which
  ties the lists to the live graph, the live graph to the run that led to it, and the run to the
  original graph. `FinalizeSbp` undoes the run, `ReComputeWeightedCost` changes the memory ratio,
  `FindBestSbpSignature` puts the operations together. `SbpPick` and `CutRatio` choose what to
  merge, `SbpTrack` follows a strategy through the steps, `SbpMemory` splits costs into time and
  memory, `SbpOptimum` carries a bound back to the original graph, `SbpExamples` holds concrete graphs.
- **Searching the reduced graph** (`FirstStrategy.dfy`, `Nbh*.dfy`, `VisitQueue.dfy`,
  `Greedy*.dfy`). A backtracking search for a first strategy in breadth-first order, a pruned
  depth-first search over the signatures of a neighbourhood, and a worklist of neighbourhoods in a
  ring buffer.
- **The trunk** (`Trunk*.dfy`). The layers of the operators, and `FindTrunk`: which operators are on
  the trunk, how late the others may run, and how much of the wait time of each edge stays exposed.
- **Sets of sbps** (`Bits.dfy`, `BinaryWords.dfy`, `BinarySet.dfy`, `SbpCollector.dfy`). A set in
  32-bit words, and the search for the sets of sbps a proxy may hold.
- **Layers, order and memory** (`Op*.dfy`, `Straighten*.dfy`). Layers of operators, the
  straightened order with what its deciding parameters mean, and the two passes that find the memory support.
- **Autograd** (`Tape*.dfy`). Counting dependencies, pruning, the queue that runs nodes, and
  the gradients that leaf tensors accumulate.
- **Boxing** (`Boxing*.dfy`). The table of shortest routes between
  distributions, and the expressions that are checked and compiled to functions.

Mutable objects and arrays of the source are classes and arrays; loops are loops. Where an
operation of the SBP graph works on several vectors at once it is a method over the value `View`
of all of them, and the class reassigns its fields from the result.

## Model

| member | source | states |
|---|---|---|
| SbpRun.ReductionConserves | oneflow/core/auto_parallel/sbp_graph.cpp:127-293 | After any run of eliminations and merges, the cost of the reduced graph at an assignment is at most the original cost of every assignment that extends it within the kept signature pairs, with equality when every swallowed node holds the signature recorded for it |
| SbpExtend.ReducedCostIsMinimum | oneflow/core/auto_parallel/sbp_graph.cpp:127-293 | For every choice of signatures of the live nodes after any run: the reduced cost is the minimum of the original cost over all completions to the swallowed nodes within the kept pairs. It is a lower bound for all of them and one of them attains it |
| SbpExtend.Completion | oneflow/core/auto_parallel/sbp_graph.cpp:127-293 | The completion that attains the minimum, built back step by step through the whole run |
| SbpRun.RunConserves | oneflow/core/auto_parallel/sbp_graph.cpp:127-293 | An assignment legal for a later graph of a run is legal for the first graph, with the same original cost at every memory ratio |
| SbpMemory.CostIsTimeAndMemory | oneflow/core/auto_parallel/sbp_node.cpp:246-298 | The original cost of a graph at a memory ratio is its cost at ratio 0 plus the ratio times the memory of all original nodes and edges, however deep they have been swallowed |
| SbpMemory.OriginalBase | oneflow/core/auto_parallel/sbp_node.cpp:246-298 | For original nodes and edges: the times and copy times at the signatures held, plus the ratio times their memory |
| SbpMemory.MemoryConserved | oneflow/core/auto_parallel/sbp_graph.cpp:127-293 | No run of steps loses or invents original memory |
| SbpMemory.DearerAtLargerRatio | oneflow/core/auto_parallel/sbp_constructor.cpp:141-148 | With no negative memory a larger ratio makes no strategy cheaper |
| SbpComplete.NothingValidLost | oneflow/core/auto_parallel/sbp_node.cpp:42-147 | Every original assignment of valid cost survives the signature pairs that merges drop: it extends to a legal assignment of the reduced graph that costs no more there |
| SbpComplete.ReducedOptimumIsOptimal | oneflow/core/auto_parallel/sbp_graph.cpp:127-293 | If the settled assignment x is optimal in the reduced graph then no original assignment of valid cost is cheaper than x |
| SbpOptimum.OptimumCarried | oneflow/core/auto_parallel/sbp_constructor.cpp:120-158 | A nearly least cost in the reduced graph is nearly the least among all original strategies of valid cost, also after the ratio has been raised since the reduction |
| SbpOptimum.RunKeepsValid | oneflow/core/auto_parallel/sbp_graph.cpp:127-293 | Every original strategy of valid cost extends to a legal assignment of the reduced graph |
| SbpComplete.PairIsKept | oneflow/core/auto_parallel/sbp_node.cpp:60-82 | The pair of signatures that an assignment of valid cost gives the two halves of a merge is among the kept pairs |
| SbpTrack.RunCheaper | oneflow/core/auto_parallel/sbp_graph.cpp:127-293 | A strategy of valid cost that the graph holds is carried along any run of steps and never gets dearer |
| SbpTrack.StepCheaper | oneflow/core/auto_parallel/sbp_node.cpp:95-104 | One step, of any kind: the signatures followed through it are in range and cost no more than before |
| SbpTrack.NeverBlocked | oneflow/core/auto_parallel/sbp_node.cpp:60-82 | From a graph with some strategy of valid cost no run reaches a graph in which merging two nodes would abort |
| SbpSteps.GraphMeaning | oneflow/core/auto_parallel/sbp_graph.cpp:81-93 | The live tables never overstate the original cost of a legal assignment, and state it exactly when everything swallowed follows the recorded choices; so over nested merges, compound and parallel edges |
| SbpReduction.StepConserves | oneflow/core/auto_parallel/sbp_graph.cpp:127-293 | One step, of any of the four kinds: legality is kept backwards and the original cost at every ratio is unchanged |
| SbpReduction.StepKeepsOwned | oneflow/core/auto_parallel/sbp_graph.cpp:161-293 | Every step keeps the ownership forest: all ids of live and swallowed nodes and edges stay pairwise disjoint |
| SbpReduction.StepKeepsFresh | oneflow/core/auto_parallel/sbp_graph.cpp:127-293 | Every step leaves every table, live or swallowed, equal to what its parts give at the ratio |
| SbpDriver.NodeElimination | oneflow/core/auto_parallel/sbp_graph.cpp:127-178 | Either nothing happens, because the node does not have degree two, or a run of steps makes nodes plus edges fewer; the lists, positions and ids of the graph stay right |
| SbpCollapse.EdgeElimination | oneflow/core/auto_parallel/sbp_graph.cpp:212-267 | Afterwards no other edge, in either direction, joins this node to the end of one of its outgoing edges; the nodes are the same, and nodes plus edges are fewer unless nothing changed |
| SbpOps.ChildElimination | oneflow/core/auto_parallel/sbp_graph.cpp:269-279 | Exactly the nodes of degree one are absorbed by their neighbour; everything else keeps its place |
| SbpOps.AbsorbLeaf | oneflow/core/auto_parallel/sbp_node.cpp:223-243 | Absorbing a leaf is one step of the reduction: the leaf leaves node list and edge lists, and the father's costs are summarised with it |
| SbpFold.FoldNode | oneflow/core/auto_parallel/sbp_graph.cpp:146-174 | Folding a node of degree two into a compound edge is one step of the reduction, and only that node leaves |
| SbpMerging.NodeMerging | oneflow/core/auto_parallel/sbp_graph.cpp:282-293 | A merge succeeds exactly when some pair of signatures survives the edge between the two nodes; it is then one step of the reduction with fewer nodes plus edges. Otherwise nothing changes, and the edge between the two leaves no pair valid |
| SbpMerging.Construct | oneflow/core/auto_parallel/sbp_node.cpp:42-147 | The merging constructor: the common edge, the kept pairs and their costs, every edge of the two nodes redirected with its table re-indexed, and a fresh id |
| SbpMerging.TrackPair | oneflow/core/auto_parallel/sbp_node.cpp:95-104 | The merged node starts with the pair its halves hold if that pair was kept, and with 0 otherwise |
| SbpDriver.NodeAndEdgeEliminations | oneflow/core/auto_parallel/sbp_graph.cpp:180-210 | Terminates with nodes plus edges as measure. At the end every degree is 0 or at least 3 and no two edges join the same two nodes, whether it aborted or not; the whole is one run of steps; and it aborts only where some edge leaves no pair of signatures valid |
| SbpDriver.SmallHasNoEdges | oneflow/core/auto_parallel/sbp_graph.cpp:180-210 | Where the reduction ends with fewer than four nodes no edge is left |
| SbpDriver.PickAndMerge | oneflow/core/auto_parallel/sbp_graph.cpp:638-701 | The pair merged is the one the heuristics choose: the ends of the first edge of least cut ratio below 1, else the first pair with most common counted neighbours and fewest signature pairs, else none; nothing in a graph of fewer than four nodes. It aborts exactly when no signature pair of that pair survives; otherwise it is a run of steps that makes the graph smaller, or nothing changes |
| SbpPick.PickEdge | oneflow/core/auto_parallel/sbp_graph.cpp:640-652 | The first edge, in the order of the loops, whose cut ratio is least among all and below 1, if there is one |
| SbpPick.PickPair | oneflow/core/auto_parallel/sbp_graph.cpp:659-694 | Among the pairs with at most threshold signature pairs: most common counted neighbours, then fewest signature pairs, then the first one |
| SbpPick.CountedWhen | oneflow/core/auto_parallel/sbp_graph.cpp:660-670 | The set built for a node lies within its neighbourhood, and equals it if and only if no edge leaves the node |
| SbpExamples.ConsumerNotCounted | oneflow/core/auto_parallel/sbp_graph.cpp:667-669 | Two nodes joined by an edge: the set of the producer misses the consumer |
| SbpExamples.MergeAborts | oneflow/core/auto_parallel/sbp_node.cpp:60-82 | Two nodes of one signature each, joined by an edge that does not support them: no pair survives |
| CutRatio.FindCutRatio | oneflow/core/auto_parallel/sbp_edge.cpp:480-492 | The lifted share of valid entries, or 1 for a table with too many of them; the number of valid entries is recovered exactly from their share |
| CutRatio.CutLimits | oneflow/core/auto_parallel/sbp_edge.cpp:480-492 | A ratio below 1 means at most two valid pairs for each signature of one end, or at most threshold of them; with none valid it is the lift alone |
| CutRatio.EdgeCutRatio | oneflow/core/auto_parallel/sbp_edge.cpp:468-476 | The share of valid entries, between 0 and 1 |
| CutRatio.ShareLimits | oneflow/core/auto_parallel/sbp_edge.cpp:468-476 | 1 where every entry is valid, and 0 exactly where none is |
| CutRatio.NodeCutRatio | oneflow/core/auto_parallel/sbp_node.cpp:592-597 | The product of the shares of all edges at the node, between 0 and 1 |
| CutRatio.LeewayLimits | oneflow/core/auto_parallel/sbp_node.cpp:592-597 | At most the share of every single edge, and 1 if all shares are 1 |
| SbpOps.RemoveFromNodeList | oneflow/core/auto_parallel/sbp_graph.cpp:43-48 | Swap and pop: list and node_list_id_ stay inverse to each other, without the removed node, and positions before it are untouched |
| SbpLists.CheckAndRemoveFrom | oneflow/core/auto_parallel/algorithm_util.h:38-45 | Removes one occurrence, if there is one, and nothing else |
| SbpLists.TakeParallel | oneflow/core/auto_parallel/sbp_graph.cpp:221-244 | Splits a list behind a slot into the edges to one end node and the others, losing and repeating none |
| SbpLists.DropFrom | oneflow/core/auto_parallel/sbp_graph.cpp:214-220 | Drops exactly the edges that start at one node |
| SbpTables.SummarizeThrough | oneflow/core/auto_parallel/sbp_edge.cpp:52-166 | The table of a compound edge: for every pair of end signatures the recorded mid signature attains the least cost of mid node plus its two edges, also where these still name nodes merged since |
| SbpTables.SummarizeParallel | oneflow/core/auto_parallel/sbp_edge.cpp:52-166 | The table of collapsed edges is the entrywise sum, each edge read through the components and direction it names |
| SbpTables.AddChild | oneflow/core/auto_parallel/sbp_node.cpp:175-221 | For every father signature the recorded child signature is a cheapest one, and the father's cost rises by its cost |
| SbpTables.KeptPairs | oneflow/core/auto_parallel/sbp_node.cpp:60-93 | The signatures of a merged node: exactly the pairs the common edge leaves valid, in the order of the loops, each with the sum of both node costs and the edge cost |
| SbpTables.ComponentTables | oneflow/core/auto_parallel/sbp_node.cpp:301-327 | For every component of a merged node, at any depth, the table of the signatures it has under the merged ones |
| SbpTables.ComponentIs | oneflow/core/auto_parallel/sbp_node.cpp:855-871 | Looking a component up in the table gives what following the merges down gives, and IsComponent holds exactly for the nodes merged into it and itself |
| SbpTables.DuplicateStart | oneflow/core/auto_parallel/sbp_edge.cpp:168-215 | Re-indexing an edge, with everything inside it, when its start node has been merged: every new entry is the old entry at the half's signature |
| SbpTables.DuplicateEnd | oneflow/core/auto_parallel/sbp_edge.cpp:168-215 | The same when its end node has been merged |
| SbpTables.ColumnsThenRows | oneflow/core/auto_parallel/sbp_edge.cpp:168-215 | Re-indexing for the end and then for the start re-indexes for both |
| SbpFinalize.FinalizeNode | oneflow/core/auto_parallel/sbp_node.cpp:329-360 | Afterwards the node and the edges handed to it are settled (everything they own holds the recorded choice for what it now sees), and nothing outside what they own has changed |
| SbpFinalize.FinalizeEdge | oneflow/core/auto_parallel/sbp_edge.cpp:249-257 | Afterwards the edge is settled and nothing outside what it owns has changed |
| SbpHandDown.FinalizeLive | oneflow/core/auto_parallel/sbp_node.cpp:329-360 | One live node with its edges on top of those finalized before: all of them are settled at the end, although mid nodes may be written from stale ends first and rewritten later |
| SbpHandDown.HandDownConserves | oneflow/core/auto_parallel/sbp_graph.cpp:295-297 | After any run, a settled assignment costs on the original graph exactly what the reduced assignment costs |
| SbpGraph.FinalizeAll | oneflow/core/auto_parallel/sbp_graph.cpp:295-297 | The signatures of the live nodes stay, and the result is settled, legal and of unchanged reduced cost, which is its original cost |
| SbpGraph.SbpGraph.FinalizeSbp | oneflow/core/auto_parallel/sbp_graph.cpp:295-297 | Every original node gets a signature, live nodes keep theirs, the original cost of the result equals the reduced cost, and no other completion of the live signatures within the kept pairs costs less |
| SbpRecompute.RecomputeNode | oneflow/core/auto_parallel/sbp_node.cpp:246-298 | The same tree of owned objects with every table equal to what its parts give at the ratio |
| SbpRecompute.RecomputeEdge | oneflow/core/auto_parallel/sbp_edge.cpp:218-247 | The same for edges, whose parts may still name ends merged since |
| SbpUnique.SameNode | oneflow/core/auto_parallel/sbp_node.cpp:246-298 | Two versions of one node, both up to date at one ratio, have the same costs: recomputing reproduces them |
| SbpUnique.SameEdge | oneflow/core/auto_parallel/sbp_edge.cpp:218-247 | Two versions of one edge, both up to date at one ratio, have the same meaningful entries |
| SbpGraph.SbpGraph.ReComputeWeightedCost | oneflow/core/auto_parallel/sbp_graph.cpp:110-115 | At any ratio r: the structure stays, every table is up to date at r, the reduced graph still stands for the original at r, and at the old ratio every live table is reproduced |
| SbpGraph.SbpGraph.constructor | oneflow/core/auto_parallel/sbp_graph.cpp:36-41 | A graph of original nodes and edges is valid, with an empty history |
| SbpGraph.SbpGraph.NodeElimination | oneflow/core/auto_parallel/sbp_graph.cpp:127-178 | The object after the step is valid, its history is the old one followed by the new steps, and the original graph it stands for is the same |
| SbpGraph.SbpGraph.EdgeElimination | oneflow/core/auto_parallel/sbp_graph.cpp:212-267 | The same for collapsing parallel edges, with no parallel edge left at the node |
| SbpGraph.SbpGraph.ChildElimination | oneflow/core/auto_parallel/sbp_graph.cpp:269-279 | The same for absorbing a leaf; exactly that node leaves |
| SbpGraph.SbpGraph.NodeMerging | oneflow/core/auto_parallel/sbp_graph.cpp:282-293 | The same for merging. It succeeds exactly when some pair of signatures survives; an impossible merge changes nothing |
| SbpGraph.SbpGraph.NodeAndEdgeEliminations | oneflow/core/auto_parallel/sbp_graph.cpp:180-210 | The same for the whole reduction, which leaves nothing to eliminate. It aborts only where some edge leaves no pair valid, and never if the graph has a strategy of valid cost; it then still has one; and the strategy it holds, if valid, does not get dearer |
| SbpGraph.SbpGraph.Find1Strategy4Greedy | oneflow/core/auto_parallel/sbp_graph.cpp:484-543 | On the object: a strategy is found if one of valid cost exists, it changes live nodes only, and all its edges are valid |
| SbpGraph.SbpGraph.ComputeCost | oneflow/core/auto_parallel/sbp_graph.cpp:81-107 | The two nested loops compute the sum of all live node and edge tables at the current signatures, each edge once |
| SbpGraph.SbpGraph.GreedyStrategy | oneflow/core/auto_parallel/sbp_graph.cpp:324-422 | On the object: from a valid cost the returned value is exactly the change of cost and no increase; the object stays valid; when the worklist ran empty every small neighbourhood is nearly at its best, and nodes without edges are in any case. Without any edges the cost is nearly the least of all, from a valid cost or if any choice is cheap. The run is one of the runs of the loop |
| SbpGraph.SbpGraph.FindBestSbpSignature | oneflow/core/auto_parallel/sbp_constructor.cpp:120-158 | Reduce, find a first strategy if the given one is not valid, search, recompute at rising memory ratios until the memory fits or the largest ratio is reached, finalize, check. If the graph has a strategy of valid cost no merge aborts and a first strategy is found. Then every original node has a signature, the cost is the original cost at the last ratio, no other completion of the live signatures is cheaper, and success means a valid cost. Every search is a whole run of GreedyStrategy from where the one before has left off; what the last one achieves is kept. Where the reduction leaves no edge, no original strategy of valid cost is cheaper than 0.9999999 times the cost. At a fixed ratio a valid strategy is never made dearer |
| SbpGraph.SbpGraph.SearchRatios | oneflow/core/auto_parallel/sbp_constructor.cpp:131-149 | The log of all searches: each runs to its end on tables up to date at its ratio, starts where the one before has left off, and follows it exactly when the memory did not fit; the ratio is the prescribed one. The last search leaves no higher cost from a valid one, every small neighbourhood nearly at its best if its worklist ran empty, nodes without edges in any case |
| SbpGraph.RatioRises | oneflow/core/auto_parallel/sbp_constructor.cpp:141-146 | The ratio rises, to at most the largest one, by a factor of two or to the least one tried unless there is far too little memory; nine times at most |
| SbpCharges.FreshNonNegative | oneflow/core/auto_parallel/sbp_node.cpp:246-298 | Up-to-date tables over non-negative original costs and a non-negative ratio are non-negative, at every depth |
| SbpDestroy.Destroy | oneflow/core/auto_parallel/sbp_graph.cpp:50-53 | The destructors delete every live and swallowed node and edge exactly once and nothing else |
| NbhGreedy.NbhGreedyStrategy | oneflow/core/auto_parallel/sbp_graph.cpp:546-635 | If the cost of the neighbourhood is valid: the returned value is exactly the change of the cost of the whole graph and no increase, it is 0 only if nothing changed, and no assignment of the neighbourhood costs less than 0.9999999 times the one kept; only the neighbourhood changes. A valid cost of the whole graph implies a valid one of the neighbourhood. Wherever it starts, if some signatures of the neighbourhood cost at most 0.9999999 times the largest valid cost, it finds some of valid cost that are nearly the best |
| NbhSearch.Dfs | oneflow/core/auto_parallel/sbp_graph.cpp:424-456 | The pruned search keeps the best assignment found; if its lower bounds are admissible, no completion of the current choice costs less than 0.9999999 times what is kept |
| NbhGreedy.BoundsHold | oneflow/core/auto_parallel/sbp_graph.cpp:546-635 | If there is an assignment of valid cost at all, the accumulated lower bounds are admissible |
| NbhGreedy.Accumulate | oneflow/core/auto_parallel/sbp_graph.cpp:603-616 | Every lower bound is the sum of the least out-costs and of the minima of all edges inside the rest of the order |
| NbhGreedy.OriginalCost | oneflow/core/auto_parallel/sbp_graph.cpp:590-601 | The cost to start from, added up in the given order, is the one the search accumulates in visiting order |
| NbhCost.WholeChange | oneflow/core/auto_parallel/sbp_graph.cpp:546-635 | Changing signatures on a neighbourhood changes the cost of the whole graph by the change of the neighbourhood |
| NbhCost.Rises | oneflow/core/auto_parallel/sbp_graph.cpp:424-456 | Between two depths of the search the accumulated, clipped cost rises at least by the bound |
| NbhCost.ClipFacts | oneflow/core/auto_parallel/sbp_node.cpp:412-441 | A valid accumulated cost is the true one; once it is not, the true one is not valid either |
| NbhEval.EvalOutNbhCost | oneflow/core/auto_parallel/sbp_node.cpp:388-409 | The node and its edges to nodes outside the neighbourhood, each once |
| NbhEval.EvalInNbhCost | oneflow/core/auto_parallel/sbp_node.cpp:412-441 | The edges to nodes of the neighbourhood visited before, each once, cut off when no longer valid |
| NbhEval.EvalMinInNbhCost | oneflow/core/auto_parallel/sbp_node.cpp:443-469 | The sum of the least entries of the edges to nodes visited later, each once |
| NbhEval.MinWeightedCost | oneflow/core/auto_parallel/sbp_edge.cpp:310-317 | The least entry of the table |
| NbhCost.LeastCellAttained | oneflow/core/auto_parallel/sbp_edge.cpp:310-317 | The least entry is one of the entries |
| NbhEval.GetMinWeightedCost | oneflow/core/auto_parallel/sbp_edge.cpp:304-321 | The stored minimum is the least entry of the table for as long as the table changes with the memory ratio only; a negative one is computed again |
| NbhEval.DecideOrder | oneflow/core/auto_parallel/algorithm_util.h:60-66 | A permutation of the indices, sorted by the values they stand for |
| GreedyLoop.GreedyStrategy | oneflow/core/auto_parallel/sbp_graph.cpp:324-422 | A run of the loop: everybody waits in the order of the list; each turn visits the first one, which then rests, and changes only its ring; after a change exactly the nodes within two edges of a changed one join the queue, unless they wait. It ends when nobody waits or after n(n + 1) visits. From a valid cost the total is exactly the change of the cost and no increase; only live nodes change; and if nobody waits, around every node whose ring has at most nbh_num nodes no other signatures cost less than 0.9999999 times the present ones |
| GreedyRuns.EverybodyVisited | oneflow/core/auto_parallel/sbp_graph.cpp:336-351 | In every run the pth node of the list is visited at turn p: nobody is left out |
| GreedyRuns.AloneAtRest | oneflow/core/auto_parallel/sbp_graph.cpp:351-420 | A node without edges rests at the end of every run, whether or not the rounds ran out |
| GreedyRuns.EdgelessBest | oneflow/core/auto_parallel/sbp_graph.cpp:351-420 | Without edges, once every node rests no choice of signatures costs less than 0.9999999 times the present one |
| GreedyLoop.VisitRests | oneflow/core/auto_parallel/sbp_graph.cpp:390-412 | A node that does not wait has nothing changed within two edges of it, because a change would have queued it |
| GreedyLoop.WindowDistinct | oneflow/core/auto_parallel/sbp_graph.cpp:371-387 | Every sliding window holds the centre once and no node twice |
| GreedyLoop.AdjustWindows | oneflow/core/auto_parallel/sbp_graph.cpp:371-387 | The windows together: exact total change, no increase, only the ring changes |
| GreedyLoop.Schedule | oneflow/core/auto_parallel/sbp_graph.cpp:390-410 | Everything within two rings of a changed node waits, nobody waits twice, and the queue does not overrun |
| GreedyLoop.OneRing | oneflow/core/auto_parallel/sbp_node.cpp:471-483 | The node and all its neighbours, each once |
| GreedyLoop.NRing | oneflow/core/auto_parallel/sbp_node.cpp:487-511 | Exactly the nodes at most n edges away, each once, and the shared tags are all false again |
| NbhLocal.RestsOn | oneflow/core/auto_parallel/sbp_graph.cpp:390-410 | A neighbourhood stays nearly at its best for as long as nothing within two edges of its centre changes |
| VisitQueue.Push | oneflow/core/auto_parallel/sbp_graph.cpp:400-406 | The ring buffer of n + 1 slots takes an id that does not wait at its end without running into its head |
| VisitQueue.Pop | oneflow/core/auto_parallel/sbp_graph.cpp:411-417 | The head, and only it, stops waiting |
| VisitQueue.Room | oneflow/core/auto_parallel/sbp_graph.cpp:334-343 | An id that does not wait always finds a free slot |
| FirstStrategy.Find1Strategy4Greedy | oneflow/core/auto_parallel/sbp_graph.cpp:484-543 | Finds a strategy exactly when one is reasonable in the order of the search: every node with its edges to earlier nodes costs less than the largest valid cost. If there is one of valid cost it finds one, and under what it finds every edge is valid |
| FirstStrategy.DfsFindReasonableCost | oneflow/core/auto_parallel/sbp_graph.cpp:458-481 | The backtracking search returns true exactly when some strategy that agrees on the nodes before is reasonable, and then holds the last one: signatures are tried from the last one down |
| FirstStrategy.BreadthFirst | oneflow/core/auto_parallel/sbp_graph.cpp:484-530 | All nodes, each once, component by component, each component from its node of least cut ratio; nodes come in the order of the first node next to them, and by rising cut ratio for the same one |
| FirstStrategy.ValidIsReasonable | oneflow/core/auto_parallel/sbp_graph.cpp:465-470 | A strategy of valid cost is reasonable in every order |
| FirstStrategy.ReasonableEdge | oneflow/core/auto_parallel/sbp_graph.cpp:465-470 | Under a reasonable strategy of all nodes every edge is valid |
| TrunkStart.ApplyTrunkAlgo | oneflow/core/auto_parallel/sbp_constructor.cpp:347-355 | For every acyclic graph with a node, over edges, control edges and mutable dependencies, the layers computed are what FindTrunk needs, and every edge gets its wait time |
| TrunkStart.ComputeLayer | oneflow/core/auto_parallel/sbp_graph.cpp:711-729 | Min layers follow the last producer, max layers precede the first consumer or are the last layer; every max layer lies between the min layer and the last one, and the last one is attained |
| TrunkStart.GetMinLayer | oneflow/core/auto_parallel/sbp_node.cpp:514-543 | The recursion: one after the last producer, and what was known stays |
| TrunkStart.LayersUnique | oneflow/core/auto_parallel/sbp_node.cpp:514-579 | The graph determines min and max layers |
| TrunkFind.FindTrunk | oneflow/core/auto_parallel/sbp_graph.cpp:733-840 | Every edge gets one wait time within [0, wait_time]; the checks against double assignment and negative cost never fail; trunk, tributary layers, spread and reduction are as stated below |
| TrunkFind.TrunkEnd | oneflow/core/auto_parallel/sbp_graph.cpp:736-750 | The last layer from which the cost to the end exceeds half the wait time, or the last layer if there is none |
| TrunkLaws.InLayerIs | oneflow/core/auto_parallel/sbp_graph.cpp:736-739 | The cost of a layer is that of all operators with that min layer |
| TrunkLaws.TailIs | oneflow/core/auto_parallel/sbp_graph.cpp:744-750 | The accumulated cost is the sum of the layers from there on |
| TrunkFind.MarkTrunk | oneflow/core/auto_parallel/sbp_node.cpp:601-620 | On the trunk are exactly the operators from that layer on and those in the layer before a consumer that is on it |
| TrunkFind.TrunkUnique | oneflow/core/auto_parallel/sbp_node.cpp:601-620 | That equation has only one solution |
| TrunkLayers.TributaryLayers | oneflow/core/auto_parallel/sbp_node.cpp:808-837 | Tributary layers lie between the min layer and the last layer, allow every consumer its own, and are as late as that permits |
| TrunkOrder.AllSpread | oneflow/core/auto_parallel/sbp_node.cpp:623-632 | When nobody can start any more every link has been spread: the counters neither lose nor repeat one |
| TrunkWait.SpreadAvailWaitTime | oneflow/core/auto_parallel/sbp_node.cpp:635-712 | One recursive spread: no wait time is assigned twice, each is exactly what the remaining trunk cost does not hide, and each producer beside the trunk is left the least of what its consumers pass on |
| TrunkWait.SpreadWaitTimes | oneflow/core/auto_parallel/sbp_graph.cpp:786-799 | After the loop this holds for all edges of the graph |
| TrunkLaws.WaitIs | oneflow/core/auto_parallel/sbp_node.cpp:658-672 | Before the reduction on the trunk an edge waits 0 if the trunk cost left to its consumer and the layers between its ends cover the wait time, and else for the rest |
| TrunkLaws.LeavesIs | oneflow/core/auto_parallel/sbp_node.cpp:658-690 | What a producer beside the trunk is left: the part of that cover which the wait time did not need, and all of it along a control edge |
| TrunkLaws.BeginIs | oneflow/core/auto_parallel/sbp_node.cpp:643-654 | Nothing on the trunk; without a consumer the cost of all layers from the own one on; else what was left and the own layer |
| TrunkLaws.LaterCost | oneflow/core/auto_parallel/sbp_graph.cpp:786-790 | acc_trunk_cost of a layer is the sum of the later layers |
| TrunkReduce.ReduceTrunk | oneflow/core/auto_parallel/sbp_graph.cpp:801-839 | The wait time hidden in any interval of layers is at most the cost beside the trunk that can run in the interval; each layer hides all it could without breaking that; edges out of the trunk are shortened by exactly that; the accumulated cost is never negative |
| TrunkReduce.Summarize | oneflow/core/auto_parallel/sbp_graph.cpp:767-785 | The three cost tables by layer, each operator counted once |
| TrunkLaws.AlongIs | oneflow/core/auto_parallel/sbp_graph.cpp:776-779 | trunk_cost of a layer: all operators on the trunk with that min layer |
| TrunkLaws.FromIs | oneflow/core/auto_parallel/sbp_graph.cpp:780-782 | tributary_cost of a layer: all operators beside the trunk with that min layer |
| TrunkLaws.ToIs | oneflow/core/auto_parallel/sbp_graph.cpp:780-783 | outdated_tributary_cost of a layer: all operators beside the trunk with that tributary layer |
| TrunkLaws.BesideIs | oneflow/core/auto_parallel/sbp_graph.cpp:801-839 | What an interval of layers can hide: all operators beside the trunk whose layers meet it |
| BinaryWords.PopCountIs | oneflow/core/auto_parallel/binary_set.cpp:95-108 | The masked sums count the set bits of a word |
| BinaryWords.Lowest | oneflow/core/auto_parallel/binary_set.cpp:119-130 | w & (w - 1) takes away exactly the lowest set bit, and the difference is its power of two |
| BinarySet.BinarySet.constructor | oneflow/core/auto_parallel/binary_set.cpp:38-48 | The empty set over the given size |
| BinarySet.BinarySet.Clear | oneflow/core/auto_parallel/binary_set.cpp:51-51 | The empty set |
| BinarySet.BinarySet.CheckExistence | oneflow/core/auto_parallel/binary_set.cpp:54-58 | Membership |
| BinarySet.BinarySet.AddEntry | oneflow/core/auto_parallel/binary_set.cpp:61-65 | Adds exactly one element |
| BinarySet.BinarySet.DeleteEntry | oneflow/core/auto_parallel/binary_set.cpp:67-71 | Removes exactly one element |
| BinarySet.BinarySet.UnionTo | oneflow/core/auto_parallel/binary_set.cpp:73-77 | The union of sets of one size, written into a third or into the first |
| BinarySet.BinarySet.IfIntersect | oneflow/core/auto_parallel/binary_set.cpp:79-85 | True exactly when the intersection is not empty |
| BinarySet.BinarySet.IntersectionTo | oneflow/core/auto_parallel/binary_set.cpp:87-93 | For sets of any sizes: fails exactly when this set has more words than the other; otherwise the result holds the intersection and what it held beyond the words of this set. For sets of one size it is the intersection |
| BinarySet.IntersectionWhen | oneflow/core/auto_parallel/binary_set.cpp:87-93 | It is the intersection if and only if the result held nothing beyond the words of this set |
| BinarySet.StaleResult | oneflow/core/auto_parallel/binary_set.cpp:87-93 | Two empty sets of one word and a result of two words: an old element stays |
| BinarySet.BinarySet.Total | oneflow/core/auto_parallel/binary_set.cpp:95-108 | The number of elements |
| BinarySet.BinarySet.Output | oneflow/core/auto_parallel/binary_set.cpp:111-116 | The elements in ascending order, each once |
| BinarySet.BinarySet.QuickOutput | oneflow/core/auto_parallel/binary_set.cpp:119-130 | The same list, one set bit at a time |
| BinarySet.BinarySet.Equals | oneflow/core/auto_parallel/binary_set.cpp:138-144 | Equality of sizes and of elements |
| BinarySet.ListsUnique | oneflow/core/auto_parallel/binary_set.cpp:111-130 | A set has only one ascending list, so Output and QuickOutput agree, and its length is Total |
| SbpCollector.IfIntersectAll | oneflow/core/auto_parallel/sbp_collector.cpp:29-37 | True exactly when every consumer finds one of its sbps in the set |
| SbpCollector.No2SbpFromSameUniqueGroup | oneflow/core/auto_parallel/sbp_collector.cpp:80-91 | True exactly when no group has two members in the set |
| SbpCollector.FindUniqueSbpSets | oneflow/core/auto_parallel/sbp_collector.cpp:40-55 | Exactly the sbps that occur in one consumer only; the counters are as before |
| SbpCollector.HitsIs | oneflow/core/auto_parallel/sbp_collector.cpp:40-55 | The counter of an sbp is the number of consumers that accept it |
| SbpCollector.FindUniqueSbpGroups | oneflow/core/auto_parallel/sbp_collector.cpp:58-77 | The groups of unique sbps by consumer; buffer and counters are as before |
| SbpCollector.SbpCollector.DfsSbpSet | oneflow/core/auto_parallel/sbp_collector.cpp:369-399 | Emits, each exactly once, precisely the sets of size 1 to max_depth that extend the buffer by the remaining sbps, meet every consumer and hold no two of one unique group; buffer and accumulator are restored |
| SbpCollector.ChoiceIsKept | oneflow/core/auto_parallel/sbp_collector.cpp:58-91 | The sbps of any choice of one per consumer pass both filters |
| SbpCollector.SbpCollector.ProxyCandidates | oneflow/core/auto_parallel/sbp_collector.cpp:312-333 | Complete: whatever one sbp each consumer takes, if they are at most max_depth different ones their set is a candidate; and no candidate comes twice |
| OpLayers.ComputeLayer | oneflow/core/auto_parallel/auto_memory.cpp:297-308 | min <= max <= tributary layer for every operator, and along every edge min and tributary layers rise and the max layer stays below the consumer's min layer |
| OpLayers.ComputeMinLayer | oneflow/core/auto_parallel/auto_memory.cpp:167-173 | One more than the greatest min layer of the inputs, whatever the order of the hash set |
| OpLayers.ComputeTributaryLayer | oneflow/core/auto_parallel/auto_memory.cpp:190-199 | One less than the least tributary layer of the outputs, or the last layer |
| OpLayers.ComputeMaxLayer | oneflow/core/auto_parallel/auto_memory.cpp:176-187 | One less than the least min layer of the outputs, or the min layer if there is none |
| Straighten.CompOrdered | oneflow/core/auto_parallel/auto_memory.cpp:83-94 | comp never holds both ways, and under distinct names it holds one way |
| Straighten.CompTransitive | oneflow/core/auto_parallel/auto_memory.cpp:83-94 | comp is transitive; with the row above it is a strict total order |
| Straighten.StraightenOpNodes | oneflow/core/auto_parallel/auto_memory.cpp:349-388 | A permutation of the operators in which each is the least ready one under comp |
| StraightenOrder.FirstToRun | oneflow/core/auto_parallel/auto_memory.cpp:83-94 | Of two operators ready at the same moment the one that is before runs first: the first deciding parameter that favours one of them decides, and the names if none does |
| StraightenOrder.FirstParameterDecides | oneflow/core/auto_parallel/auto_memory.cpp:141-156 | The smaller tributary layer, min layer, memory increment or exceed time first, or the larger one for the descending parameters; all other parameters decide nothing |
| StraightenOrder.CompIs | oneflow/core/auto_parallel/auto_memory.cpp:83-94 | comp holds exactly when a is before b in that sense |
| StraightenOrder.NameLessIs | oneflow/core/auto_parallel/auto_memory.cpp:92-92 | Names: a proper prefix comes first, otherwise the first character that differs decides |
| Straighten.StraightRespects | oneflow/core/auto_parallel/auto_memory.cpp:349-388 | Such an order holds everything once and after all it waits for |
| Straighten.StraightUnique | oneflow/core/auto_parallel/auto_memory.cpp:349-388 | There is only one such order, so the order of hash sets cannot matter |
| Straighten.InitMemory | oneflow/core/auto_parallel/auto_memory.cpp:393-504 | Straightening and both memory passes together, for every acyclic graph of operators |
| OpMemory.Generate | oneflow/core/auto_parallel/auto_memory.cpp:420-433 | After GenerateBlobs the counter is the total size of the live blobs |
| OpMemory.Kill | oneflow/core/auto_parallel/auto_memory.cpp:434-467 | After KillBlobs the counter is the total size of the live blobs |
| OpMemory.FindPeak | oneflow/core/auto_parallel/auto_memory.cpp:468-479 | The maximum recorded is the greatest size ever alive, the memory ends at 0 and every count is used up |
| OpMemory.MarkSupport | oneflow/core/auto_parallel/auto_memory.cpp:481-504 | The second pass stops at the first peak; exactly the blobs of positive count are alive there |
| OpMemory.MemorySupport | oneflow/core/auto_parallel/auto_memory.cpp:393-504 | Both passes: the sizes of the marked blobs add up to the recorded maximum |
| OpMemory.OccurrencesIs | oneflow/core/auto_parallel/auto_memory.cpp:420-433 | A blob is counted as often as it is among the inputs |
| TapeDeps.ComputeDependencies | oneflow/core/autograd/autograd_engine.cpp:329-350 | Every reachable node counts its links from reachable nodes, with multiplicity, and exactly the reachable nodes are needed |
| TapePrune.ComputeDependenciesAndPruneNode | oneflow/core/autograd/autograd_engine.cpp:354-415 | The same counts; fails exactly for an unused input that is not allowed; a reachable node is needed exactly when it is captured or a path leads from it to a captured node |
| TapeRun.Apply | oneflow/core/autograd/autograd_engine.cpp:417-455 | Succeeds exactly when no unfed, needed root that loses its data is listed twice. Then every reachable needed node ran exactly once, after all its reachable consumers, on its adjoint, and the captured gradients are the adjoints |
| TapeRun.SeesAdjoint | oneflow/core/autograd/autograd_engine.cpp:185-232 | What a node finds in its buffers when it runs is its adjoint, whatever ran before in whatever order |
| TapeRun.AllRan | oneflow/core/autograd/autograd_engine.cpp:417-455 | When the queue runs empty nobody needed is left waiting |
| TapeRun.RootListedTwice | oneflow/core/autograd/autograd_engine.cpp:417-455 | One node listed as a root twice, without retain_graph: the run fails |
| TapeApply.AdjointIs | oneflow/core/autograd/autograd_engine.cpp:185-232 | The adjoint is the seed plus what all reachable consumers send along every link |
| TapeLaws.AdjointOfLinks | oneflow/core/autograd/autograd_engine.cpp:185-232 | The adjoint of an output is the seed plus one gradient for every link from a reachable node to it |
| TapeLaws.SentIs | oneflow/core/autograd/autograd_engine.cpp:215-230 | What a node sends to an output is the sum of its gradients over exactly the links that lead there |
| TapeLaws.OneLink | oneflow/core/autograd/autograd_engine.cpp:215-230 | With one link, the seed plus the gradient that the backward function gives for it |
| TapeLaws.ManyLinks | oneflow/core/autograd/autograd_engine.cpp:215-230 | m links with the same gradient add it m times |
| TapeLaws.NoLink | oneflow/core/autograd/autograd_engine.cpp:185-232 | Without a link the adjoint is the seed |
| TapeLaws.LinksIs | oneflow/core/autograd/autograd_engine.cpp:329-350 | Dependencies count links by their number |
| TapeApply.PushGrads | oneflow/core/autograd/autograd_engine.cpp:215-230 | Along every link the gradient is added once, with multiplicity |
| TapeApply.CountDown | oneflow/core/autograd/autograd_engine.cpp:447-452 | Every link is counted down once and who has none left is queued once |
| TapeApply.Capture | oneflow/core/autograd/autograd_engine.cpp:434-441 | Exactly the captured outputs hand their gradient to their inputs |
| TapeEngine.ReturnInputsGrad | oneflow/core/autograd/autograd_engine.cpp:474-488 | autograd.grad: each input gets the adjoint of what it captures, and None when the roots do not reach it |
| TapeEngine.SaveLeafGrads | oneflow/core/autograd/autograd_engine.cpp:457-472 | backward(): all reachable nodes run, each once, on their adjoints; exactly the reachable leaf tensors gain their adjoint, once, on top of what they had accumulated, also over several passes |
| TapeEngine.AccGrad4LeafTensors | oneflow/core/autograd/autograd_engine.cpp:86-106 | The first gradient of a leaf is copied and later ones are added, in the order of the runs; everything else stays |
| TapeEngine.PruningKeepsGradients | oneflow/core/autograd/autograd_engine.cpp:329-455 | A node that runs in a pruned and in a plain pass sees the same gradients, and both passes reach the same nodes |
| BoxingTable.BoxingCollector.GenerateCombination4SamePlacement | oneflow/core/auto_parallel/boxing_collector.cpp:269-353 | The non-empty check never fails. For every pair: a direct hop is left alone; otherwise all recorded routes use direct hops only and have the least possible number of middle nodes, the cost is the least among those, all cheapest routes are recorded, each recorded route with L middle nodes costs at most 1.0000001^L times the least, and without any route of allowed length the pair stays unsupported |
| BoxingTable.ImprovePair | oneflow/core/auto_parallel/boxing_collector.cpp:283-345 | One pair in one layer |
| BoxingTable.RouteCostIs | oneflow/core/auto_parallel/boxing_collector.cpp:283-345 | A route costs the sum of its hops |
| BoxingTable.IsRouteIs | oneflow/core/auto_parallel/boxing_collector.cpp:283-345 | A route is made of direct hops from the first to the last state |
| BoxingExpr.Registry.RegisterBoxingFunction | oneflow/core/boxing/eager_boxing_interpreter.cpp:87-96 | A name is taken once; a second attempt changes nothing |
| BoxingExpr.CheckPromises | oneflow/core/boxing/eager_boxing_interpreter.cpp:98-169 | A successful check leads from source to destination with one more name than middle states, every consecutive pair accepted by its named checker |
| BoxingExpr.DivideSucceeds | oneflow/core/boxing/boxing_interpreter_status.cpp:35-64 | The two checks of the composition never fail: a divided expression succeeds exactly when both parts do |
| BoxingWays.CheckComplete | oneflow/core/boxing/eager_boxing_interpreter.cpp:98-179 | A check succeeds exactly when some way leads through the expression: atoms that are registered and accept, halves that meet where the dividor says, either side of an alternative. So does the search for a function |
| BoxingWays.CheckFollows | oneflow/core/boxing/eager_boxing_interpreter.cpp:98-169 | The status is that of the leftmost such way: right only where nothing leads through the left |
| BoxingWays.LeftmostUnique | oneflow/core/boxing/eager_boxing_interpreter.cpp:164-169 | There is only one leftmost way |
| BoxingWays.OrPrefersLeft | oneflow/core/boxing/eager_boxing_interpreter.cpp:164-179 | The left side whenever it has a way, and the right side otherwise, for the status as for the function |
| BoxingExpr.CompilesIfChecked | oneflow/core/boxing/eager_boxing_interpreter.cpp:98-179 | GetBoxingFunction succeeds exactly when Check does, for every expression |
| BoxingExpr.RunsAsChecked | oneflow/core/boxing/eager_boxing_interpreter.cpp:108-179 | The compiled function does what the named functions do along exactly the states of the status |
| BoxingExpr.BoxingKeepsValue | oneflow/core/boxing/eager_boxing_interpreter.cpp:35-54 | If every atom keeps the logical value, so does every checked expression, and the result is at the destination |

## Findings

Places where the code does not do what one would hope for, with the exact condition.

| source | what happens | proved |
|---|---|---|
| oneflow/core/autograd/autograd_engine.cpp:419-421 | A root that nobody feeds is queued once for each time it is listed. With retain_graph false, the second run of such a needed root finds its data released and the whole pass fails | `TapeRun.RootListedTwice` gives the input; `TapeRun.Apply` fails if and only if such a root exists |
| oneflow/core/auto_parallel/sbp_node.cpp:81-82 | Merging two nodes aborts when the edge between them leaves no pair of signatures valid | `SbpExamples.MergeAborts` gives the input; `SbpMerging.NodeMerging` succeeds if and only if some pair survives; `SbpTrack.NeverBlocked`: it never happens if the graph has a strategy of valid cost |
| oneflow/core/auto_parallel/sbp_graph.cpp:667-669 | The neighbourhood of a node is meant to hold the ends of its outgoing edges, but their start, the node itself, is added again | `SbpExamples.ConsumerNotCounted` gives the input; `SbpPick.CountedWhen`: the set is the neighbourhood if and only if no edge leaves the node |
| oneflow/core/auto_parallel/binary_set.cpp:87-93 | The loop runs over the words of this set, whatever the size of the other one and of the result | `BinarySet.StaleResult` gives an input with a wrong result; `BinarySet.IntersectionTo` stays within bounds if and only if this set has no more words than the other; `BinarySet.IntersectionWhen`: the result is then right if and only if it held nothing beyond them. All callers use one size |

## Left out

- SbpGraph.SbpGraph.GreedyStrategy: requires a graph without parallel edges and non-negative original costs, which the reduction before it and the cost model provide; the local optimum after an empty worklist is promised for rings of at most nbh_num nodes only. While the windows of a larger ring are adjusted its centre still counts as waiting (sbp_graph.cpp:401 and 412), so a change in a later window does not queue it again.
- SbpGraph.SbpGraph.FindBestSbpSignature: the memory measured after each search is a parameter, because memory as such is not modelled.
- SbpGraph.SbpGraph.Find1Strategy4Greedy: the same conditions on the graph as for GreedyStrategy.
- SbpMerging.NodeMerging: returns false where the source aborts.
- SbpDriver.PickAndMerge: the threshold on signature pairs is positive, as the constructor sets it.
- NbhEval.EvalMinInNbhCost: calls the part of GetMinWeightedCost behind the stored value.
- How std::sort works: an insertion sort stands for it.
- Memory as a table of its own: costs are copy cost plus ratio times memory, and the original memory is conserved. That memory_ of the reduced graph equals it is not claimed; child elimination does not consult the support flag of the child edge.
- Where the original cost tables, memory sizes and copy costs come from, and the costs between proxies and their neighbours.
- TrunkStart.ComputeLayer: proxies, which have no operator and are loaded after the layers are computed, are not among the nodes.
- AddEntries and the hasher of BinarySet.
- Rewiring the graph around a proxy. Containers of binary sets hold their words.
- Memory increments, exceed times and deciding parameters of the straightening algorithm are inputs.
- TapeRun.Apply: gradients are reals and backward functions are arbitrary functions of the output gradients; hooks, retained gradients, lazy mode and global tensors are left out, and nothing is said about buffers of nodes that are not executed.
- TapeEngine.SaveLeafGrads: leaf tensors accumulate after the pass in the order of the runs instead of during it, which nothing in the pass reads.
- BoxingExpr.RunsAsChecked: a composed function keeps the logical shape by value, while the closure of the source refers to the shape of its caller.
- Boxing between different hierarchies and placements, the list of nd-sbps and its filter by shape.
- The atoms of boxing expressions: they are functions with a contract; collective communication is left out.
- Floating-point rounding, everywhere.
- Python packages, code generation, the virtual machine, kernels and the rest of the runtime.
