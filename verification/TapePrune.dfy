/** ComputeDependenciesAndPruneNode: one depth-first walk with explicit frames both counts the
    links and decides which nodes lie on a way to a captured tensor. */
module TapePrune {
  import opened Sums
  import opened Tape
  import opened TapeDeps

  /** n is captured, or a node next to it is wanted. */
  ghost predicate Wanted(t: Tape, level: seq<nat>, captured: set<nat>, n: nat)
    requires Acyclic(t, level) && n < |t.next|
    decreases level[n]
  {
    n in captured || exists i :: 0 <= i < |t.next[n]| && Wanted(t, level, captured, t.next[n][i].to)
  }

  /** NodeFrame: a node and how many of its next functions have been taken. */
  datatype Frame = Frame(node: nat, idx: nat)

  /** The links counted for the frames of the current path. */
  ghost function PathLinks(t: Tape, path: seq<Frame>, n: nat): nat {
    if path == [] then 0 else
      var f := path[|path| - 1];
      PathLinks(t, path[..|path| - 1], n)
          + (if f.node < |t.next| && f.idx <= |t.next[f.node]| then Links(t.next[f.node][..f.idx], n) else 0)
  }

  datatype Progress = Progress(stack: seq<Frame>, seen: set<nat>, dep: seq<int>, need: seq<bool>)

  /** The frames above the k untouched roots form a path of nodes still being worked on. */
  ghost predicate OnPath(t: Tape, seen: set<nat>, stack: seq<Frame>, k: nat) {
    && k <= |stack|
    && (forall j :: 0 <= j < |stack| ==> stack[j].node < |t.next| && stack[j].idx <= |t.next[stack[j].node]|)
    && (forall j :: 0 <= j < k ==> stack[j].idx == 0)
    && (forall j :: k <= j < |stack| ==> stack[j].node !in seen)
    && (forall j :: k <= j < |stack| - 1 ==>
       stack[j].idx > 0 && t.next[stack[j].node][stack[j].idx - 1].to == stack[j + 1].node)
    && (forall j, i :: k <= j < |stack| && 0 <= i < stack[j].idx ==>
          t.next[stack[j].node][i].to in seen || (j < |stack| - 1 && i == stack[j].idx - 1))
  }

  ghost predicate Accounted(t: Tape, seen: set<nat>, stack: seq<Frame>, k: nat, dep: seq<int>) {
    && k <= |stack| && |dep| == |t.next|
    && forall n :: 0 <= n < |dep| ==> dep[n] as real == Sum(seen, LinksTo(t, n)) + PathLinks(t, stack[k..], n) as real
  }

  ghost predicate Decided(t: Tape, level: seq<nat>, captured: set<nat>, seen: set<nat>, need: seq<bool>) {
    && Acyclic(t, level) && |need| == |t.next|
    && (forall n :: n in seen ==> n < |need|)
    && (forall n :: 0 <= n < |need| ==>
       (need[n] <==> if n in seen then Wanted(t, level, captured, n) else n in captured))
    && (forall c, i :: c in seen && 0 <= i < |t.next[c]| ==> t.next[c][i].to in seen)
  }

  ghost predicate Covered(t: Tape, roots: seq<nat>, seen: set<nat>, stack: seq<Frame>) {
    && (forall n :: n in roots ==> n in seen || exists j :: 0 <= j < |stack| && stack[j].node == n)
    && forall u :: Closed(t, roots, u) ==> seen <= u && forall j :: 0 <= j < |stack| ==> stack[j].node in u
  }

  ghost predicate Walk(t: Tape, roots: seq<nat>, level: seq<nat>, captured: set<nat>, s: Progress, k: nat) {
    && OnPath(t, s.seen, s.stack, k) && Accounted(t, s.seen, s.stack, k, s.dep)
    && Decided(t, level, captured, s.seen, s.need) && Covered(t, roots, s.seen, s.stack)
  }

  // ----- the three moves -----

  /** A root that was reached before. */
  lemma SkipRoot(t: Tape, roots: seq<nat>, level: seq<nat>, captured: set<nat>, s: Progress, k: nat)
    requires Walk(t, roots, level, captured, s, k) && |s.stack| > 0 && s.stack[|s.stack| - 1].node in s.seen
    ensures k == |s.stack| && Walk(t, roots, level, captured, s.(stack := s.stack[..|s.stack| - 1]), k - 1)
  {
    var st := s.stack[..|s.stack| - 1];
    assert s.stack[k..] == [] && st[k - 1..] == [];
    forall n | n in roots && n !in s.seen ensures exists j :: 0 <= j < |st| && st[j].node == n {
      var j :| 0 <= j < |s.stack| && s.stack[j].node == n;
      assert st[j].node == n;
    }
  }

  /** Take the next function of the top frame; stack it if it has not been seen. */
  function Taken(t: Tape, s: Progress): Progress
    requires |s.stack| > 0
  {
    var f := s.stack[|s.stack| - 1];
    if f.node < |t.next| && f.idx < |t.next[f.node]| && t.next[f.node][f.idx].to < |s.dep| then
      var n := t.next[f.node][f.idx].to;
      var moved := s.stack[|s.stack| - 1 := Frame(f.node, f.idx + 1)];
      Progress(if n in s.seen then moved else moved + [Frame(n, 0)], s.seen, s.dep[n := s.dep[n] + 1], s.need)
    else s
  }

  ghost function Base(s: Progress, k: nat): nat { if k == |s.stack| && k > 0 then k - 1 else k }

  lemma TakeNext(t: Tape, roots: seq<nat>, level: seq<nat>, captured: set<nat>, s: Progress, k: nat)
    requires Walk(t, roots, level, captured, s, k) && |s.stack| > 0
    requires var f := s.stack[|s.stack| - 1]; f.node !in s.seen && f.idx < |t.next[f.node]|
    ensures Walk(t, roots, level, captured, Taken(t, s), Base(s, k))
  {
    hide Sum, PathLinks, Wanted;
    TakePath(t, s, k, level);
    TakeAccounted(t, s, k);
    TakeCovered(t, roots, s, k);
  }

  lemma TakePath(t: Tape, s: Progress, k: nat, level: seq<nat>)
    requires Acyclic(t, level) && OnPath(t, s.seen, s.stack, k) && |s.stack| > 0 && |s.dep| == |t.next|
    requires var f := s.stack[|s.stack| - 1]; f.node !in s.seen && f.idx < |t.next[f.node]|
    ensures var s' := Taken(t, s); OnPath(t, s'.seen, s'.stack, Base(s, k))
  {
    var st := Taken(t, s).stack;
    TakeFrames(t, s, k, level, st);
    TakeSteps(t, s, k, level, st);
    TakeDone(t, s, k, level, st);
  }

  /** The top frame has moved on by one, and what it came to is on top if it is new. */
  ghost predicate Moved(t: Tape, s: Progress, st: seq<Frame>) {
    && |s.stack| > 0 && var top := |s.stack| - 1;
    var f := s.stack[top];
    && f.node < |t.next| && f.idx < |t.next[f.node]|
    && var n := t.next[f.node][f.idx].to;
    && |st| == (if n in s.seen then top + 1 else top + 2)
    && (forall j :: 0 <= j < top ==> st[j] == s.stack[j]) && st[top] == Frame(f.node, f.idx + 1)
    && (n !in s.seen ==> st[top + 1] == Frame(n, 0))
  }

  lemma TakeFrames(t: Tape, s: Progress, k: nat, level: seq<nat>, st: seq<Frame>)
    requires Acyclic(t, level) && OnPath(t, s.seen, s.stack, k) && |s.stack| > 0 && |s.dep| == |t.next|
    requires var f := s.stack[|s.stack| - 1]; f.node !in s.seen && f.idx < |t.next[f.node]|
    requires st == Taken(t, s).stack
    ensures Moved(t, s, st) && Base(s, k) <= |s.stack| - 1 && (Base(s, k) < |s.stack| - 1 ==> Base(s, k) == k)
    ensures forall j :: 0 <= j < |st| ==> st[j].node < |t.next| && st[j].idx <= |t.next[st[j].node]|
    ensures (forall j :: 0 <= j < Base(s, k) ==> st[j].idx == 0) && forall j :: Base(s, k) <= j < |st| ==>
            st[j].node !in s.seen
  {
  }

  lemma TakeSteps(t: Tape, s: Progress, k: nat, level: seq<nat>, st: seq<Frame>)
    requires Acyclic(t, level) && OnPath(t, s.seen, s.stack, k) && Moved(t, s, st) && Base(s, k) <= |s.stack| - 1
             && (Base(s, k) < |s.stack| - 1 ==> Base(s, k) == k)
    requires forall j :: 0 <= j < |st| ==> st[j].node < |t.next| && st[j].idx <= |t.next[st[j].node]|
    ensures forall j :: Base(s, k) <= j < |st| - 1 ==>
            st[j].idx > 0 && t.next[st[j].node][st[j].idx - 1].to == st[j + 1].node
  {
    var top := |s.stack| - 1;
    forall j | Base(s, k) <= j < |st| - 1
      ensures st[j].idx > 0 && t.next[st[j].node][st[j].idx - 1].to == st[j + 1].node
    {
      if j < top { assert st[j] == s.stack[j] && st[j + 1].node == s.stack[j + 1].node; }
    }
  }

  lemma TakeDone(t: Tape, s: Progress, k: nat, level: seq<nat>, st: seq<Frame>)
    requires Acyclic(t, level) && OnPath(t, s.seen, s.stack, k) && Moved(t, s, st) && Base(s, k) <= |s.stack| - 1
             && (Base(s, k) < |s.stack| - 1 ==> Base(s, k) == k)
    requires forall j :: 0 <= j < |st| ==> st[j].node < |t.next| && st[j].idx <= |t.next[st[j].node]|
    ensures forall j, i :: Base(s, k) <= j < |st| && 0 <= i < st[j].idx ==>
            t.next[st[j].node][i].to in s.seen || (j < |st| - 1 && i == st[j].idx - 1)
  {
    var top := |s.stack| - 1;
    forall j, i | Base(s, k) <= j < |st| && 0 <= i < st[j].idx ensures t.next[st[j].node][i].to in s.seen
        || (j < |st| - 1 && i == st[j].idx - 1) {
      if j < top { assert st[j] == s.stack[j]; }
    }
  }

  lemma TakeCovered(t: Tape, roots: seq<nat>, s: Progress, k: nat)
    requires OnPath(t, s.seen, s.stack, k) && |s.stack| > 0 && Covered(t, roots, s.seen, s.stack)
    requires s.stack[|s.stack| - 1].idx < |t.next[s.stack[|s.stack| - 1].node]|
    ensures var s' := Taken(t, s); Covered(t, roots, s'.seen, s'.stack)
  {
    var top, s' := |s.stack| - 1, Taken(t, s);
    var f := s.stack[top];
    assert forall j :: 0 <= j < |s.stack| ==> s'.stack[j].node == s.stack[j].node;
    forall r | r in roots && r !in s.seen ensures exists j :: 0 <= j < |s'.stack| && s'.stack[j].node == r {
      var j :| 0 <= j < |s.stack| && s.stack[j].node == r;
      assert s'.stack[j].node == r;
    }
    forall u | Closed(t, roots, u) ensures forall j :: 0 <= j < |s'.stack| ==> s'.stack[j].node in u {
      assert s.stack[top].node in u;
      assert t.next[f.node][f.idx].to in u;
    }
  }

  lemma LastLinks(t: Tape, path: seq<Frame>, f: Frame, n: nat)
    requires f.node < |t.next| && f.idx <= |t.next[f.node]|
    ensures PathLinks(t, path + [f], n) == PathLinks(t, path, n) + Links(t.next[f.node][..f.idx], n)
  {
    assert (path + [f])[..|path|] == path;
  }

  lemma TakeAccounted(t: Tape, s: Progress, k: nat)
    requires OnPath(t, s.seen, s.stack, k) && Accounted(t, s.seen, s.stack, k, s.dep) && |s.stack| > 0
    requires var f := s.stack[|s.stack| - 1]; f.idx < |t.next[f.node]| && t.next[f.node][f.idx].to < |t.next|
    ensures var s' := Taken(t, s); Accounted(t, s'.seen, s'.stack, Base(s, k), s'.dep)
  {
    var n := t.next[s.stack[|s.stack| - 1].node][s.stack[|s.stack| - 1].idx].to;
    forall m | 0 <= m < |s.dep|
      ensures PathLinks(t, Taken(t, s).stack[Base(s, k)..], m)
              == PathLinks(t, s.stack[k..], m) + (if m == n then 1 else 0)
    {
      TakeLinks(t, s, k, m);
    }
  }

  lemma TakeLinks(t: Tape, s: Progress, k: nat, m: nat)
    requires OnPath(t, s.seen, s.stack, k) && |s.stack| > 0 && |s.dep| == |t.next|
    requires var f := s.stack[|s.stack| - 1]; f.idx < |t.next[f.node]| && t.next[f.node][f.idx].to < |t.next|
    ensures var f := s.stack[|s.stack| - 1];
            PathLinks(t, Taken(t, s).stack[Base(s, k)..], m) == PathLinks(t, s.stack[k..], m)
                + (if m == t.next[f.node][f.idx].to then 1 else 0)
  {
    hide PathLinks, OnPath;
    OnPathTop(t, s, k);
    var top := |s.stack| - 1;
    var f, b, st := s.stack[top], Base(s, k), Taken(t, s).stack;
    var links, n, g := t.next[f.node], t.next[f.node][f.idx].to, Frame(f.node, f.idx + 1);
    var before, moved := s.stack[b..top], s.stack[top := g];
    assert s.stack[b..] == before + [f] && moved[b..] == before + [g];
    LastLinks(t, before, f, m);
    LastLinks(t, before, g, m);
    assert links[..f.idx + 1][..f.idx] == links[..f.idx];
    if k == |s.stack| {
      assert s.stack[k..] == [] && before == [] && links[..0] == [];
      NoPath(t, m);
    }
    if n !in s.seen {
      assert st[b..] == moved[b..] + [Frame(n, 0)];
      LastLinks(t, moved[b..], Frame(n, 0), m);
      assert t.next[n][..0] == [];
    } else {
      assert st[b..] == moved[b..];
    }
  }

  lemma OnPathTop(t: Tape, s: Progress, k: nat)
    requires OnPath(t, s.seen, s.stack, k) && |s.stack| > 0
    ensures k <= |s.stack| && s.stack[|s.stack| - 1].node < |t.next|
            && s.stack[|s.stack| - 1].idx <= |t.next[s.stack[|s.stack| - 1].node]|
    ensures k == |s.stack| ==> s.stack[|s.stack| - 1].idx == 0
  {
  }

  lemma NoPath(t: Tape, m: nat)
    ensures PathLinks(t, [], m) == 0
  {
  }

  /** All next functions have been taken: the node is done. */
  function Done(t: Tape, s: Progress, wanted: bool): Progress
    requires |s.stack| > 0
  {
    var c := s.stack[|s.stack| - 1].node;
    Progress(s.stack[..|s.stack| - 1], s.seen + {c}, s.dep, if c < |s.need| then s.need[c := wanted] else s.need)
  }

  lemma Finish(t: Tape, roots: seq<nat>, level: seq<nat>, captured: set<nat>, s: Progress, k: nat, wanted: bool)
    requires Walk(t, roots, level, captured, s, k) && |s.stack| > 0
    requires var f := s.stack[|s.stack| - 1];
             && f.node !in s.seen && f.idx == |t.next[f.node]|
             && (wanted <==> s.need[f.node] || exists i :: 0 <= i < |t.next[f.node]| && s.need[t.next[f.node][i].to])
    ensures Walk(t, roots, level, captured, Done(t, s, wanted), Base(s, k))
  {
    var top := |s.stack| - 1;
    var c, b, s' := s.stack[top].node, Base(s, k), Done(t, s, wanted);
    FinishPath(t, level, s, k, c);
    FinishAccounted(t, s, k, wanted);
    assert forall i :: 0 <= i < |t.next[c]| ==> t.next[c][i].to in s.seen;
    assert wanted <==> Wanted(t, level, captured, c);
    forall r | r in roots && r !in s'.seen ensures exists j :: 0 <= j < |s'.stack| && s'.stack[j].node == r {
      var j :| 0 <= j < |s.stack| && s.stack[j].node == r;
      assert s'.stack[j].node == r;
    }
    forall u | Closed(t, roots, u) ensures s'.seen <= u { assert s.stack[top].node in u; }
  }

  /** Levels fall along the path, so no node is on it twice. */
  lemma {:induction false} Falling(t: Tape, level: seq<nat>, s: Progress, k: nat, i: nat, j: nat)
    requires Acyclic(t, level) && OnPath(t, s.seen, s.stack, k) && k <= i < j < |s.stack|
    ensures level[s.stack[j].node] < level[s.stack[i].node]
    decreases j
  {
    if i < j - 1 { Falling(t, level, s, k, i, j - 1); }
    assert t.next[s.stack[j - 1].node][s.stack[j - 1].idx - 1].to == s.stack[j - 1 + 1].node;
  }

  lemma FinishPath(t: Tape, level: seq<nat>, s: Progress, k: nat, c: nat)
    requires Acyclic(t, level) && OnPath(t, s.seen, s.stack, k) && |s.stack| > 0 && c == s.stack[|s.stack| - 1].node
             && c !in s.seen
    requires s.stack[|s.stack| - 1].idx == |t.next[c]|
    ensures OnPath(t, s.seen + {c}, s.stack[..|s.stack| - 1], Base(s, k))
    ensures forall i :: 0 <= i < |t.next[c]| ==> t.next[c][i].to in s.seen
  {
    var top := |s.stack| - 1;
    forall j | k <= j < top ensures s.stack[j].node != s.stack[top].node { Falling(t, level, s, k, j, top); }
  }

  lemma FinishAccounted(t: Tape, s: Progress, k: nat, wanted: bool)
    requires OnPath(t, s.seen, s.stack, k) && Accounted(t, s.seen, s.stack, k, s.dep) && |s.stack| > 0
    requires s.stack[|s.stack| - 1].node !in s.seen
             && s.stack[|s.stack| - 1].idx == |t.next[s.stack[|s.stack| - 1].node]|
    ensures var s' := Done(t, s, wanted); Accounted(t, s'.seen, s'.stack, Base(s, k), s'.dep)
  {
    hide Sum, PathLinks, Links, LinksTo;
    var top := |s.stack| - 1;
    var f, b, s' := s.stack[top], Base(s, k), Done(t, s, wanted);
    var before := s.stack[b..top];
    assert s.stack[b..] == before + [f] && s'.stack[b..] == before;
    assert k < |s.stack| ==> b == k;
    assert k == |s.stack| ==> s.stack[k..] == [] && before == [] && f.idx == 0;
    forall m | 0 <= m < |s.dep| ensures s.dep[m] as real == Sum(s'.seen, LinksTo(t, m))
        + PathLinks(t, s'.stack[b..], m) as real {
      SumAdd(s.seen, f.node, LinksTo(t, m));
      PathTop(t, before, f, m);
    }
  }

  lemma PathTop(t: Tape, path: seq<Frame>, f: Frame, m: nat)
    requires f.node < |t.next| && f.idx == |t.next[f.node]|
    ensures PathLinks(t, path + [f], m) == PathLinks(t, path, m) + Links(t.next[f.node], m)
    ensures LinksTo(t, m)(f.node) == Links(t.next[f.node], m) as real && (f.idx == 0 ==> Links(t.next[f.node], m) == 0)
    ensures PathLinks(t, [], m) == 0
  {
    assert (path + [f])[..|path|] == path && t.next[f.node][..f.idx] == t.next[f.node];
  }

  // ----- the walk -----

  ghost predicate InLoop(t: Tape, roots: seq<nat>, level: seq<nat>, captured: set<nat>, s: Progress, k: nat) {
    Walk(t, roots, level, captured, s, k) && s.seen <= FirstN(|t.next|)
  }

  /** need_execute of a finished node: its own, or that of one of its next functions. */
  method AnyNext(links: seq<Link>, own: bool, need: seq<bool>) returns (wanted: bool)
    requires forall i :: 0 <= i < |links| ==> links[i].to < |need|
    ensures wanted <==> own || exists i :: 0 <= i < |links| && need[links[i].to]
  {
    wanted := own;
    for i := 0 to |links|
      invariant wanted <==> own || exists j :: 0 <= j < i && need[links[j].to]
    {
      wanted := wanted || need[links[i].to];
    }
  }

  lemma TopFacts(t: Tape, roots: seq<nat>, level: seq<nat>, captured: set<nat>, s: Progress, k: nat)
    requires Walk(t, roots, level, captured, s, k) && |s.stack| > 0
    ensures var f := s.stack[|s.stack| - 1];
            && f.node < |t.next| == |s.need| == |s.dep| && f.idx <= |t.next[f.node]|
            && (forall i :: 0 <= i < |t.next[f.node]| ==>
               t.next[f.node][i].to < |t.next| && level[t.next[f.node][i].to] < level[f.node])
  {
  }

  /** Where the walk stands: it never gets bigger in this order. */
  ghost function Ahead(t: Tape, level: seq<nat>, s: Progress, k: nat): (nat, nat) {
    if |s.stack| <= k then (0, 0) else
      var f := s.stack[|s.stack| - 1];
      (if f.node < |level| then level[f.node] else 0,
       if f.node < |t.next| && f.idx <= |t.next[f.node]| then |t.next[f.node]| - f.idx else 0)
  }

  lemma Smaller(t: Tape, roots: seq<nat>, level: seq<nat>, captured: set<nat>, s: Progress, k: nat)
    requires Walk(t, roots, level, captured, s, k) && |s.stack| > 0
    requires var f := s.stack[|s.stack| - 1]; f.node !in s.seen && f.idx < |t.next[f.node]|
    ensures Base(s, k) < k || (Base(s, k) == k
              && var a, b := Ahead(t, level, Taken(t, s), k), Ahead(t, level, s, k);
                 a.0 < b.0 || (a.0 == b.0 && a.1 < b.1))
  {
    hide Sum, PathLinks, Wanted, Covered, Accounted;
    TopFacts(t, roots, level, captured, s, k);
  }

  method Traverse(t: Tape, roots: seq<nat>, ghost captured: set<nat>, need: seq<bool>, ghost level: seq<nat>)
    returns (info: Info, ghost reach: set<nat>)
    requires Acyclic(t, level) && (forall n :: n in roots ==> n < |t.next|)
    requires |need| == |t.next| && forall n :: 0 <= n < |need| ==> (need[n] <==> n in captured)
    ensures IsReach(t, roots, reach) && Counts(t, reach, info.dep) && |info.need| == |t.next|
    ensures forall n :: n in reach ==> n < |t.next|
    ensures forall n :: 0 <= n < |t.next| ==>
            (info.need[n] <==> if n in reach then Wanted(t, level, captured, n) else n in captured)
  {
    hide Sum, PathLinks, Wanted, OnPath, Accounted, Decided, Covered;
    var s := Progress(seq(|roots|, i requires 0 <= i < |roots| => Frame(roots[i], 0)), {}, seq(|t.next|, _ => 0), need);
    ghost var k: nat := |roots|;
    Begin(t, roots, level, captured, s);
    while s.stack != []
      invariant InLoop(t, roots, level, captured, s, k)
      decreases FirstN(|t.next|) - s.seen, k, Ahead(t, level, s, k).0, Ahead(t, level, s, k).1
    {
      TopFacts(t, roots, level, captured, s, k);
      var f := s.stack[|s.stack| - 1];
      if f.node in s.seen {
        SkipRoot(t, roots, level, captured, s, k);
        s, k := s.(stack := s.stack[..|s.stack| - 1]), k - 1;
      } else if f.idx < |t.next[f.node]| {
        TakeNext(t, roots, level, captured, s, k);
        Smaller(t, roots, level, captured, s, k);
        k := Base(s, k);
        s := Taken(t, s);
      } else {
        var wanted := AnyNext(t.next[f.node], s.need[f.node], s.need);
        Finish(t, roots, level, captured, s, k, wanted);
        k := Base(s, k);
        s := Done(t, s, wanted);
      }
    }
    AtEnd(t, roots, level, captured, s, k);
    info, reach := Info(s.dep, s.need), s.seen;
  }

  lemma Begin(t: Tape, roots: seq<nat>, level: seq<nat>, captured: set<nat>, s: Progress)
    requires Acyclic(t, level) && (forall n :: n in roots ==> n < |t.next|) && s.seen == {}
    requires |s.stack| == |roots| && forall i :: 0 <= i < |roots| ==> s.stack[i] == Frame(roots[i], 0)
    requires |s.dep| == |t.next| == |s.need|
             && (forall n :: 0 <= n < |t.next| ==> s.dep[n] == 0 && (s.need[n] <==> n in captured))
    ensures InLoop(t, roots, level, captured, s, |roots|)
  {
    hide Wanted;
    forall j | 0 <= j < |roots| ensures s.stack[j].node in roots { assert roots[j] in roots; }
    assert s.stack[|roots|..] == [];
    forall n | n in roots ensures exists j :: 0 <= j < |s.stack| && s.stack[j].node == n {
      var j :| 0 <= j < |roots| && roots[j] == n;
      assert s.stack[j].node == n;
    }
  }

  lemma AtEnd(t: Tape, roots: seq<nat>, level: seq<nat>, captured: set<nat>, s: Progress, k: nat)
    requires InLoop(t, roots, level, captured, s, k) && s.stack == []
    ensures IsReach(t, roots, s.seen) && Counts(t, s.seen, s.dep) && |s.need| == |t.next|
    ensures forall n :: n in s.seen ==> n < |t.next|
    ensures forall n :: 0 <= n < |t.next| ==>
            (s.need[n] <==> if n in s.seen then Wanted(t, level, captured, n) else n in captured)
  {
    hide Wanted;
    assert s.stack[k..] == [];
  }

  // ----- inputs -----

  /** An input tensor: not used in the graph, or output slot of node. */
  datatype Input = Unused | Of(node: nat, slot: nat)

  /** capture_indices: for every node, which of its outputs goes to which input. */
  ghost predicate CapturesOf(inputs: seq<Input>, captures: seq<seq<(nat, nat)>>, upTo: nat) {
    && upTo <= |inputs|
    && forall n: nat, k: nat, idx: nat :: n < |captures| ==>
       ((k, idx) in captures[n] <==> idx < upTo && inputs[idx] == Of(n, k))
  }

  ghost function CapturedNodes(inputs: seq<Input>): set<nat> { set i | i in inputs && i.Of? :: i.node }

  /** GraphTask::ComputeDependenciesAndPruneNode; ok is false for an unused input that is not
      allowed. */
  method ComputeDependenciesAndPruneNode(t: Tape, roots: seq<nat>, inputs: seq<Input>, allowUnused: bool,
                                         ghost level: seq<nat>)
    returns (ok: bool, info: Info, captures: seq<seq<(nat, nat)>>, ghost reach: set<nat>)
    requires Acyclic(t, level) && (forall n :: n in roots ==> n < |t.next|)
    requires forall i :: i in inputs && i.Of? ==> i.node < |t.next|
    ensures ok <==> allowUnused || Unused !in inputs
    ensures ok ==>
              && IsReach(t, roots, reach) && Counts(t, reach, info.dep) && (forall n :: n in reach ==> n < |t.next|)
              && |info.need| == |t.next| == |captures| && CapturesOf(inputs, captures, |inputs|)
              && forall n :: 0 <= n < |t.next| ==>
                   (info.need[n] <==> if n in reach then Wanted(t, level, CapturedNodes(inputs), n)
                       else n in CapturedNodes(inputs))
  {
    hide Wanted;
    var need := seq(|t.next|, _ => false);
    captures := seq(|t.next|, _ => []);
    ok, info, reach := false, Info([], []), {};
    for idx := 0 to |inputs|
      invariant |need| == |captures| == |t.next| && CapturesOf(inputs, captures, idx)
      invariant forall n :: 0 <= n < |need| ==>
                (need[n] <==> exists p :: 0 <= p < idx && inputs[p].Of? && inputs[p].node == n)
      invariant allowUnused || forall p :: 0 <= p < idx ==> inputs[p].Of?
    {
      assert inputs[idx] in inputs;
      if inputs[idx].Unused? {
        if allowUnused { continue; }
        return;
      }
      var n := inputs[idx].node;
      need := need[n := true];
      captures := captures[n := captures[n] + [(inputs[idx].slot, idx)]];
    }
    ok := true;
    assert Unused in inputs ==> allowUnused;
    forall n | 0 <= n < |need| ensures need[n] <==> n in CapturedNodes(inputs) {
      if need[n] { var p :| 0 <= p < |inputs| && inputs[p].Of? && inputs[p].node == n; assert inputs[p] in inputs; }
    }
    info, reach := Traverse(t, roots, CapturedNodes(inputs), need, level);
  }
}
