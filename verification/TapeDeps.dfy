/** ComputeDependencies and ComputeDependenciesAndPruneNode: counting, for every reachable
    node, the links that lead to it from reachable nodes. */
module TapeDeps {
  import opened Sums
  import opened Tape

  /** grad_fn2exec_info_: dependencies and need_execute of every node. */
  datatype Info = Info(dep: seq<int>, need: seq<bool>)

  /** dep counts the links from the nodes in s. */
  ghost predicate Counts(t: Tape, s: set<nat>, dep: seq<int>) {
    |dep| == |t.next| && forall n :: 0 <= n < |dep| ==> dep[n] as real == Sum(s, LinksTo(t, n))
  }

  /** Adding the links of one node, or some of them. */
  ghost predicate Added(links: seq<Link>, dep: seq<int>, dep': seq<int>) {
    |dep'| == |dep| && forall n :: 0 <= n < |dep| ==> dep'[n] == dep[n] + Links(links, n)
  }

  lemma CountsMore(t: Tape, s: set<nat>, c: nat, dep: seq<int>, dep': seq<int>)
    requires Counts(t, s, dep) && c !in s && c < |t.next| && Added(t.next[c], dep, dep')
    ensures Counts(t, s + {c}, dep')
  {
    forall n | 0 <= n < |dep'| ensures dep'[n] as real == Sum(s + {c}, LinksTo(t, n)) { SumAdd(s, c, LinksTo(t, n)); }
  }

  lemma AddedStep(links: seq<Link>, i: nat, dep: seq<int>, dep': seq<int>)
    requires i < |links| && Added(links[..i], dep, dep') && links[i].to < |dep|
    ensures Added(links[..i + 1], dep, dep'[links[i].to := dep'[links[i].to] + 1])
  {
    assert links[..i + 1][..i] == links[..i];
  }

  // ----- the plain traversal -----

  /** The stack only holds reachable nodes, and everything next to a seen node is seen or on it. */
  ghost predicate Frontier(t: Tape, roots: seq<nat>, seen: set<nat>, stack: seq<nat>) {
    && (forall n :: n in stack || n in seen ==> n < |t.next|)
    && (forall n :: n in roots ==> n in seen || n in stack)
    && (forall c, i :: c in seen && 0 <= i < |t.next[c]| ==> t.next[c][i].to in seen || t.next[c][i].to in stack)
    && forall u :: Closed(t, roots, u) ==> seen <= u && forall n :: n in stack ==> n in u
  }

  /** GraphTask::ComputeDependencies. */
  method ComputeDependencies(t: Tape, roots: seq<nat>, ghost level: seq<nat>)
    returns (info: Info, ghost reach: set<nat>)
    requires Acyclic(t, level) && forall n :: n in roots ==> n < |t.next|
    ensures IsReach(t, roots, reach) && Counts(t, reach, info.dep) && |info.need| == |t.next|
    ensures forall n :: 0 <= n < |t.next| ==> (info.need[n] <==> n in reach)
  {
    var seen: set<nat>, stack: seq<nat> := {}, roots;
    var dep: seq<int> := seq(|t.next|, _ => 0);
    var need := MarkRoots(roots, |t.next|);
    while stack != []
      invariant Frontier(t, roots, seen, stack) && Counts(t, seen, dep)
      invariant |need| == |t.next| && forall n :: 0 <= n < |need| ==> (need[n] <==> n in seen || n in stack)
      invariant seen <= FirstN(|t.next|)
      decreases FirstN(|t.next|) - seen, |stack|
    {
      hide Frontier, Counts, Added;
      var node := stack[|stack| - 1];
      ghost var was := stack;
      TopOf(t, roots, seen, was);
      stack := stack[..|stack| - 1];
      if node in seen { continue; }
      ghost var dep0 := dep;
      stack, dep, need := VisitNext(t, node, seen + {node}, stack, dep, need, level);
      CountsMore(t, seen, node, dep0, dep);
      Advanced(t, roots, seen, was, node, stack);
      seen := seen + {node};
    }
    info, reach := Info(dep, need), seen;
  }

  lemma TopOf(t: Tape, roots: seq<nat>, seen: set<nat>, stack: seq<nat>)
    requires Frontier(t, roots, seen, stack) && stack != []
    ensures var node, rest := stack[|stack| - 1], stack[..|stack| - 1];
            && node < |t.next| && (forall n :: n in stack <==> n == node || n in rest)
            && (node in seen ==> Frontier(t, roots, seen, rest))
  {
    var node, rest := stack[|stack| - 1], stack[..|stack| - 1];
    assert stack == rest + [node] && node in stack;
  }

  method MarkRoots(roots: seq<nat>, n: nat) returns (need: seq<bool>)
    requires forall r :: r in roots ==> r < n
    ensures |need| == n && forall i :: 0 <= i < n ==> (need[i] <==> i in roots)
  {
    need := seq(n, _ => false);
    for j := 0 to |roots|
      invariant |need| == n && forall i :: 0 <= i < n ==> (need[i] <==> i in roots[..j])
    {
      assert roots[j] in roots && roots[..j + 1] == roots[..j] + [roots[j]];
      need := need[roots[j] := true];
    }
    assert roots[..|roots|] == roots;
  }

  /** Count the links of one node and stack what has not been seen. */
  method VisitNext(t: Tape, c: nat, seen: set<nat>, stack: seq<nat>, dep: seq<int>, need: seq<bool>,
                   ghost level: seq<nat>)
    returns (stack': seq<nat>, dep': seq<int>, need': seq<bool>)
    requires Acyclic(t, level) && c < |t.next| && |dep| == |t.next| == |need|
    requires forall n :: 0 <= n < |need| ==> (need[n] <==> n in seen || n in stack)
    ensures Added(t.next[c], dep, dep') && |need'| == |need|
    ensures forall n :: n in stack' <==>
            n in stack
              || (n !in seen && exists i :: 0 <= i < |t.next[c]| && t.next[c][i].to == n)
    ensures forall n :: 0 <= n < |need| ==> (need'[n] <==> n in seen || n in stack')
  {
    stack', dep', need' := stack, dep, need;
    var links := t.next[c];
    for i := 0 to |links|
      invariant Added(links[..i], dep, dep') && |need'| == |need|
      invariant forall n :: n in stack' <==> n in stack || (n !in seen && exists j :: 0 <= j < i && links[j].to == n)
      invariant forall n :: 0 <= n < |need| ==> (need'[n] <==> n in seen || n in stack')
    {
      var n := links[i].to;
      AddedStep(links, i, dep, dep');
      dep', need' := dep'[n := dep'[n] + 1], need'[n := true];
      if n !in seen { stack' := stack' + [n]; }
    }
    assert links[..|links|] == links;
  }

  lemma Advanced(t: Tape, roots: seq<nat>, seen: set<nat>, was: seq<nat>, node: nat, stack: seq<nat>)
    requires Frontier(t, roots, seen, was) && |was| > 0 && node == was[|was| - 1] && node < |t.next|
    requires forall n :: n in stack <==>
             n in was[..|was| - 1]
               || (n !in seen + {node} && exists i :: 0 <= i < |t.next[node]| && t.next[node][i].to == n)
    requires forall i :: 0 <= i < |t.next[node]| ==> t.next[node][i].to < |t.next|
    ensures Frontier(t, roots, seen + {node}, stack)
  {
    assert was == was[..|was| - 1] + [node] && node in was;
    forall n | n in stack ensures n < |t.next| {
      if n in was[..|was| - 1] {
        assert n in was;
      } else {
        var i :| 0 <= i < |t.next[node]| && t.next[node][i].to == n;
      }
    }
    forall u | Closed(t, roots, u) ensures seen + {node} <= u && forall n :: n in stack ==> n in u {
      forall n | n in stack ensures n in u {
        if n !in was[..|was| - 1] { var i :| 0 <= i < |t.next[node]| && t.next[node][i].to == n; }
      }
    }
  }
}
