/** ComputeWeightedCost: rebuilding every table, live or swallowed, at another memory ratio. */
module SbpRecompute {
  import opened Wrappers
  import opened SbpForest
  import opened SbpTables

  // ----- the same objects with other costs -----

  /** m is n, except for the contents of cost and choice tables. */
  ghost predicate LikeNode(n: Node, m: Node)
    decreases n
  {
    && m.id == n.id && |m.cost| == |n.cost|
    && (match n.body
        case Origin(_, _) => m.body == n.body
        case Merged(f, s, pairs, inner) =>
          && m.body.Merged? && m.body.pairs == pairs && LikeNode(f, m.body.first) && LikeNode(s, m.body.second)
          && m.body.inner.Some? == inner.Some? && (inner.Some? ==> LikeEdge(inner.value, m.body.inner.value)))
    && |m.children| == |n.children|
    && forall i :: 0 <= i < |n.children| ==>
       LikeNode(n.children[i].node, m.children[i].node) && LikeEdge(n.children[i].edge, m.children[i].edge)
  }

  ghost predicate LikeEdge(e: Edge, d: Edge)
    decreases e
  {
    && d.id == e.id && d.start == e.start && d.end == e.end
    && match e.body
       case Bare(_, _) => d.body == e.body
       case Parallel(list) =>
         && d.body.Parallel? && |d.body.list| == |list|
         && forall i :: 0 <= i < |list| ==> LikeEdge(list[i], d.body.list[i])
       case Through(mid, a, b, _) =>
         d.body.Through? && LikeNode(mid, d.body.mid) && LikeEdge(a, d.body.first) && LikeEdge(b, d.body.second)
  }

  lemma {:induction false} LikeParts(n: Node, m: Node)
    requires LikeNode(n, m)
    ensures PartsOf(m) == PartsOf(n)
    decreases n
  {
    match n.body
    case Origin(_, _) =>
    case Merged(f, s, _, _) => LikeParts(f, m.body.first); LikeParts(s, m.body.second);
  }

  // ----- leaves -----

  method WeighNode(time: seq<real>, memory: seq<int>, ratio: real) returns (cost: seq<real>)
    ensures |cost| == |time| && forall i :: 0 <= i < |time| ==> cost[i] == OriginCost(time, memory, i, ratio)
  {
    cost := [];
    for i := 0 to |time|
      invariant |cost| == i && forall p :: 0 <= p < i ==> cost[p] == OriginCost(time, memory, p, ratio)
    {
      cost := cost + [if i < |memory| then time[i] + ratio * (memory[i] as real) else time[i]];
    }
  }

  method WeighTable(time: Table, memory: seq<seq<int>>, ratio: real, ghost rows: nat, ghost columns: nat)
    returns (cost: Table)
    requires Sized(time, rows, columns)
    ensures Sized(cost, rows, columns)
    ensures forall i, j :: 0 <= i < rows && 0 <= j < columns ==> cost[i][j] == BareCost(time, memory, i, j, ratio)
  {
    cost := [];
    for i := 0 to |time|
      invariant Sized(cost, i, columns)
      invariant forall p, j :: 0 <= p < i && 0 <= j < columns ==> cost[p][j] == BareCost(time, memory, p, j, ratio)
    {
      var row: seq<real> := [];
      for j := 0 to |time[i]|
        invariant |row| == j && forall q :: 0 <= q < j ==> row[q] == BareCost(time, memory, i, q, ratio)
      {
        row := row + [if i < |memory| && j < |memory[i]| then time[i][j] + ratio * (memory[i][j] as real)
            else time[i][j]];
      }
      cost := cost + [row];
    }
  }

  // ----- nodes and edges -----

  method RecomputeNode(n: Node, ratio: real) returns (m: Node)
    requires ShapeNode(n)
    ensures LikeNode(n, m) && ShapeNode(m) && FreshNode(m, ratio)
    decreases n, 1
  {
    hide ShapeNode, FreshNode, LikeNode;
    var body, cost := RecomputeBody(n, ratio);
    var kids := RecomputeChildren(n, ratio);
    forall k | k in kids ensures |k.node.cost| > 0 {
      var i :| 0 <= i < |kids| && kids[i] == k;
      KidSized(n, n.children[i], k, ratio);
    }
    var children, sums := SummarizeChildren(cost, kids);
    m := Node(n.id, sums, body, children);
    NodeRecomputed(n, body, cost, kids, children, m, ratio);
  }

  /** The halves, the edge between them, and the cost before any child is added. */
  method RecomputeBody(n: Node, ratio: real) returns (body: NodeBody, cost: seq<real>)
    requires ShapeNode(n)
    ensures BodyDone(n, body, cost, ratio)
    decreases n, 0
  {
    match n.body
    case Origin(time, memory) =>
      body := n.body;
      cost := WeighNode(time, memory, ratio);
    case Merged(f, s, pairs, inner) =>
      var f' := RecomputeNode(f, ratio);
      var s' := RecomputeNode(s, ratio);
      var inner' := None;
      if inner.Some? {
        var d := RecomputeEdge(inner.value, PartsOf(n), PartsOf(n), ratio);
        inner' := Some(d);
      }
      body := Merged(f', s', pairs, inner');
      cost := PairCosts(f', s', pairs, inner');
      MergedDone(n, body, cost, ratio);
  }

  function PairSum(f: Node, s: Node, pairs: seq<(Sig, Sig)>, inner: Option<Edge>, p: nat): real {
    if p < |pairs| && pairs[p].0 < |f.cost| && pairs[p].1 < |s.cost| then
      f.cost[pairs[p].0] + s.cost[pairs[p].1] + (if inner.Some? then Cell(inner.value.cost, p, p) else 0.0)
    else 0.0
  }

  method PairCosts(f: Node, s: Node, pairs: seq<(Sig, Sig)>, inner: Option<Edge>) returns (cost: seq<real>)
    ensures |cost| == |pairs| && forall p :: 0 <= p < |pairs| ==> cost[p] == PairSum(f, s, pairs, inner, p)
  {
    cost := [];
    for p := 0 to |pairs|
      invariant |cost| == p && forall q :: 0 <= q < p ==> cost[q] == PairSum(f, s, pairs, inner, q)
    {
      cost := cost + [PairSum(f, s, pairs, inner, p)];
    }
  }

  /** The body of n, recomputed, and its cost. */
  ghost predicate BodyDone(n: Node, body: NodeBody, cost: seq<real>, ratio: real) {
    && |cost| == |n.cost|
    && match n.body
       case Origin(time, memory) => body == n.body && forall i :: 0 <= i < |cost| ==>
           cost[i] == OriginCost(time, memory, i, ratio)
       case Merged(f, s, pairs, inner) =>
         && body.Merged? && body.pairs == pairs && |pairs| == |n.cost|
         && LikeNode(f, body.first) && ShapeNode(body.first) && FreshNode(body.first, ratio)
         && LikeNode(s, body.second) && ShapeNode(body.second) && FreshNode(body.second, ratio)
         && body.inner.Some? == inner.Some?
         && (inner.Some? ==>
               && LikeEdge(inner.value, body.inner.value)
               && ShapeEdge(body.inner.value, PartsOf(n), PartsOf(n))
                  && FreshEdge(body.inner.value, PartsOf(n), PartsOf(n), ratio))
         && forall p :: 0 <= p < |cost| ==> cost[p] == PairSum(body.first, body.second, pairs, body.inner, p)
  }

  lemma MergedDone(n: Node, body: NodeBody, cost: seq<real>, ratio: real)
    requires ShapeNode(n) && n.body.Merged? && body.Merged? && body.pairs == n.body.pairs && |cost| == |body.pairs|
    requires LikeNode(n.body.first, body.first) && ShapeNode(body.first) && FreshNode(body.first, ratio)
    requires LikeNode(n.body.second, body.second) && ShapeNode(body.second) && FreshNode(body.second, ratio)
    requires body.inner.Some? == n.body.inner.Some?
    requires body.inner.Some? ==>
               && LikeEdge(n.body.inner.value, body.inner.value)
               && ShapeEdge(body.inner.value, PartsOf(n), PartsOf(n))
                  && FreshEdge(body.inner.value, PartsOf(n), PartsOf(n), ratio)
    requires forall p :: 0 <= p < |cost| ==> cost[p] == PairSum(body.first, body.second, body.pairs, body.inner, p)
    ensures BodyDone(n, body, cost, ratio)
  {
    hide LikeNode, LikeEdge, FreshNode, FreshEdge, PairSum, ShapeEdge;
  }

  /** One child and its edge, recomputed; the choices are still those of before. */
  ghost predicate KidDone(n: Node, c: Child, k: Child, ratio: real) {
    && LikeNode(c.node, k.node) && ShapeNode(k.node) && FreshNode(k.node, ratio)
    && LikeEdge(c.edge, k.edge)
    && var p, q := PartsOf(n), PartsOf(c.node);
    && ShapeEdge(k.edge, Pick(p, q, c.edge.start), Pick(p, q, c.edge.end))
    && FreshEdge(k.edge, Pick(p, q, c.edge.start), Pick(p, q, c.edge.end), ratio)
  }

  method RecomputeChildren(n: Node, ratio: real) returns (kids: seq<Child>)
    requires ShapeNode(n)
    ensures |kids| == |n.children| && forall i :: 0 <= i < |kids| ==> KidDone(n, n.children[i], kids[i], ratio)
    decreases n, 0
  {
    hide LikeNode, LikeEdge, FreshNode, FreshEdge, ShapeNode, ShapeEdge, Pick, KidDone;
    kids := [];
    for i := 0 to |n.children|
      invariant |kids| == i && forall j :: 0 <= j < i ==> KidDone(n, n.children[j], kids[j], ratio)
    {
      var c := n.children[i];
      ChildShaped(n, i);
      var p, q := PartsOf(n), PartsOf(c.node);
      var node := RecomputeNode(c.node, ratio);
      var edge := RecomputeEdge(c.edge, Pick(p, q, c.edge.start), Pick(p, q, c.edge.end), ratio);
      KidIsDone(n, c, Child(node, edge, []), ratio);
      kids := kids + [Child(node, edge, [])];
    }
  }

  lemma ChildShaped(n: Node, i: nat)
    requires ShapeNode(n) && i < |n.children|
    ensures var c := n.children[i];
            var p, q := PartsOf(n), PartsOf(c.node);
            ShapeNode(c.node) && ShapeEdge(c.edge, Pick(p, q, c.edge.start), Pick(p, q, c.edge.end))
  {
    hide Pick;
    assert n.children[i] in n.children;
  }

  lemma KidSized(n: Node, c: Child, k: Child, ratio: real)
    requires KidDone(n, c, k, ratio)
    ensures |k.node.cost| > 0
  {
  }

  lemma KidIsDone(n: Node, c: Child, k: Child, ratio: real)
    requires LikeNode(c.node, k.node) && ShapeNode(k.node) && FreshNode(k.node, ratio) && LikeEdge(c.edge, k.edge)
    requires var p, q := PartsOf(n), PartsOf(c.node);
             && ShapeEdge(k.edge, Pick(p, q, c.edge.start), Pick(p, q, c.edge.end))
             && FreshEdge(k.edge, Pick(p, q, c.edge.start), Pick(p, q, c.edge.end), ratio)
    ensures KidDone(n, c, k, ratio)
  {
    hide LikeNode, LikeEdge, FreshNode, FreshEdge, ShapeNode, ShapeEdge, Pick;
  }

  /** SbpNode::SummarizeCost over all children, after their choices were cleared. */
  method SummarizeChildren(cost: seq<real>, kids: seq<Child>) returns (children: seq<Child>, sums: seq<real>)
    requires forall k :: k in kids ==> |k.node.cost| > 0
    ensures |children| == |kids| && |sums| == |cost|
    ensures forall i :: 0 <= i < |kids| ==> ChosenKid(kids[i], children[i], |cost|)
    ensures forall i :: 0 <= i < |cost| ==> sums[i] == cost[i] + ChildrenCost(children, i)
  {
    children, sums := [], cost;
    for j := 0 to |kids|
      invariant |children| == j && |sums| == |cost|
      invariant forall i :: 0 <= i < j ==> ChosenKid(kids[i], children[i], |cost|)
      invariant forall i :: 0 <= i < |cost| ==> sums[i] == cost[i] + ChildrenCost(children, i)
    {
      hide ChosenKid;
      assert kids[j] in kids;
      var child, more := AddChild(sums, kids[j].node, kids[j].edge);
      Chosen(kids[j], child, |cost|);
      assert (children + [child])[..j] == children;
      children, sums := children + [child], more;
    }
  }

  ghost predicate ChosenKid(k: Child, c: Child, n: nat) {
    c.node == k.node && c.edge == k.edge && |c.sig| == n && forall i :: 0 <= i < n ==> ChildBest(c, i, c.sig[i])
  }

  lemma Chosen(k: Child, c: Child, n: nat)
    requires c.node == k.node && c.edge == k.edge && |c.sig| == n && forall i :: 0 <= i < n ==>
             ChildBest(c, i, c.sig[i])
    ensures ChosenKid(k, c, n)
  {
  }

  lemma NodeRecomputed(n: Node, body: NodeBody, cost: seq<real>, kids: seq<Child>, children: seq<Child>, m: Node,
                       ratio: real)
    requires ShapeNode(n) && BodyDone(n, body, cost, ratio) && m.id == n.id && m.body == body && m.children == children
    requires |kids| == |n.children| && forall i :: 0 <= i < |kids| ==> KidDone(n, n.children[i], kids[i], ratio)
    requires |children| == |kids| && |m.cost| == |cost| && forall i :: 0 <= i < |kids| ==>
             ChosenKid(kids[i], children[i], |cost|)
    requires forall i :: 0 <= i < |cost| ==> m.cost[i] == cost[i] + ChildrenCost(children, i)
    ensures LikeNode(n, m) && ShapeNode(m) && FreshNode(m, ratio)
  {
    BodyLike(n, body, cost, m, ratio);
    assert PartsOf(m) == PartsOf(n);
    forall i | 0 <= i < |n.children| ensures KidFits(n, n.children[i], m, children[i], ratio) {
      KidChosen(n, n.children[i], kids[i], children[i], m, ratio);
    }
    NodeAssembled(n, m, cost, ratio);
  }

  lemma BodyLike(n: Node, body: NodeBody, cost: seq<real>, m: Node, ratio: real)
    requires ShapeNode(n) && BodyDone(n, body, cost, ratio) && m.id == n.id && m.body == body && |m.cost| == |cost|
    ensures PartsOf(m) == PartsOf(n) && |m.cost| == |n.cost|
    ensures forall i :: 0 <= i < |cost| ==> cost[i] == BodyCost(m, i, ratio)
  {
    hide FreshNode, FreshEdge, ShapeEdge;
    match n.body
    case Origin(_, _) =>
    case Merged(f, s, _, _) => LikeParts(f, body.first); LikeParts(s, body.second);
  }

  /** What ShapeNode, FreshNode and LikeNode ask of one child. */
  ghost predicate KidFits(n: Node, c: Child, m: Node, d: Child, ratio: real) {
    && LikeNode(c.node, d.node) && LikeEdge(c.edge, d.edge)
    && ShapeNode(d.node) && FreshNode(d.node, ratio) && Comps(PartsOf(d.node)) !! Comps(PartsOf(m))
    && |d.sig| == |m.cost| && ChildFresh(m, d) && Ties(d.edge, d.node.id, {m.id})
    && ShapeEdge(d.edge, Pick(PartsOf(m), PartsOf(d.node), d.edge.start), Pick(PartsOf(m), PartsOf(d.node), d.edge.end))
    && FreshEdge(d.edge, Pick(PartsOf(m), PartsOf(d.node), d.edge.start),
       Pick(PartsOf(m), PartsOf(d.node), d.edge.end), ratio)
  }

  lemma KidChosen(n: Node, c: Child, k: Child, d: Child, m: Node, ratio: real)
    requires ShapeNode(n) && c in n.children && KidDone(n, c, k, ratio) && ChosenKid(k, d, |m.cost|)
    requires PartsOf(m) == PartsOf(n) && m.id == n.id
    ensures KidFits(n, c, m, d, ratio)
  {
    LikeParts(c.node, k.node);
    KidEnds(n, c, d);
    assert ChildFresh(m, d);
  }

  lemma KidEnds(n: Node, c: Child, d: Child)
    requires ShapeNode(n) && c in n.children && LikeNode(c.node, d.node) && LikeEdge(c.edge, d.edge)
    ensures d.node.id == c.node.id && d.edge.start == c.edge.start && d.edge.end == c.edge.end
    ensures Ties(d.edge, d.node.id, {n.id}) && Comps(PartsOf(c.node)) !! Comps(PartsOf(n))
  {
  }

  lemma NodeAssembled(n: Node, m: Node, cost: seq<real>, ratio: real)
    requires ShapeNode(n) && BodyDone(n, m.body, cost, ratio) && m.id == n.id && PartsOf(m) == PartsOf(n)
             && |m.cost| == |n.cost| == |cost|
    requires forall i :: 0 <= i < |cost| ==> cost[i] == BodyCost(m, i, ratio)
    requires forall i :: 0 <= i < |cost| ==> m.cost[i] == cost[i] + ChildrenCost(m.children, i)
    requires |m.children| == |n.children| && forall i :: 0 <= i < |n.children| ==>
             KidFits(n, n.children[i], m, m.children[i], ratio)
    ensures LikeNode(n, m) && ShapeNode(m) && FreshNode(m, ratio)
  {
    hide KidFits, BodyDone, BodyCost, ChildrenCost;
    forall d | d in m.children ensures exists c :: KidFits(n, c, m, d, ratio) {
      var i :| 0 <= i < |m.children| && m.children[i] == d;
      assert KidFits(n, n.children[i], m, d, ratio);
    }
    AssembledLike(n, m, cost, ratio);
    AssembledShape(n, m, cost, ratio);
    AssembledFresh(n, m, cost, ratio);
  }

  lemma AssembledLike(n: Node, m: Node, cost: seq<real>, ratio: real)
    requires BodyDone(n, m.body, cost, ratio) && m.id == n.id && |m.cost| == |n.cost|
    requires |m.children| == |n.children| && forall i :: 0 <= i < |n.children| ==>
             KidFits(n, n.children[i], m, m.children[i], ratio)
    ensures LikeNode(n, m)
  {
    hide ShapeNode, FreshNode, ShapeEdge, FreshEdge, Comps, Pick, Ties, ChildFresh, PairSum;
  }

  lemma AssembledShape(n: Node, m: Node, cost: seq<real>, ratio: real)
    requires ShapeNode(n) && BodyDone(n, m.body, cost, ratio) && PartsOf(m) == PartsOf(n)
             && |m.cost| == |n.cost| == |cost|
    requires forall d :: d in m.children ==> exists c :: KidFits(n, c, m, d, ratio)
    ensures ShapeNode(m)
  {
    hide LikeNode, FreshNode, LikeEdge, FreshEdge, Comps, Pick, Ties, PairSum;
    forall d | d in m.children
      ensures && ShapeNode(d.node) && Comps(PartsOf(d.node)) !! Comps(PartsOf(m))
              && |d.sig| == |m.cost| && (forall i :: 0 <= i < |d.sig| ==> d.sig[i] < |d.node.cost|)
              && Ties(d.edge, d.node.id, {m.id})
              && ShapeEdge(d.edge, Pick(PartsOf(m), PartsOf(d.node), d.edge.start),
                 Pick(PartsOf(m), PartsOf(d.node), d.edge.end))
    {
      var c :| KidFits(n, c, m, d, ratio);
    }
  }

  lemma AssembledFresh(n: Node, m: Node, cost: seq<real>, ratio: real)
    requires BodyDone(n, m.body, cost, ratio) && PartsOf(m) == PartsOf(n) && |m.cost| == |cost|
    requires forall i :: 0 <= i < |cost| ==> cost[i] == BodyCost(m, i, ratio)
    requires forall i :: 0 <= i < |cost| ==> m.cost[i] == cost[i] + ChildrenCost(m.children, i)
    requires forall d :: d in m.children ==> exists c :: KidFits(n, c, m, d, ratio)
    ensures FreshNode(m, ratio)
  {
    hide LikeNode, ShapeNode, LikeEdge, ShapeEdge, Comps, Pick, Ties, PairSum, BodyCost, ChildrenCost, ChildFresh;
    forall d | d in m.children
      ensures && ChildFresh(m, d) && FreshNode(d.node, ratio)
              && FreshEdge(d.edge, Pick(PartsOf(m), PartsOf(d.node), d.edge.start),
                 Pick(PartsOf(m), PartsOf(d.node), d.edge.end), ratio)
    {
      var c :| KidFits(n, c, m, d, ratio);
    }
    assert NodeFreshHere(m, ratio);
  }

  method RecomputeEdge(e: Edge, s: Parts, t: Parts, ratio: real) returns (d: Edge)
    requires ShapeEdge(e, s, t)
    ensures LikeEdge(e, d) && ShapeEdge(d, s, t) && FreshEdge(d, s, t, ratio)
    decreases e, 1
  {
    match e.body
    case Bare(time, memory) =>
      var cost := WeighTable(time, memory, ratio, Size(s), Size(t));
      d := e.(cost := cost);
    case Parallel(list) =>
      var es := RecomputeList(e, s, t, ratio);
      d := SummarizeParallel(e.id, es, s, t);
      ListRecomputed(e, s, t, es, d, ratio);
    case Through(mid, a, b, _) =>
      d := RecomputeThrough(e, s, t, ratio);
  }

  method RecomputeList(e: Edge, s: Parts, t: Parts, ratio: real) returns (es: seq<Edge>)
    requires ShapeEdge(e, s, t) && e.body.Parallel?
    ensures |es| == |e.body.list|
    ensures forall i :: 0 <= i < |es| ==> PartDone(e.body.list[i], es[i], s, t, ratio)
    decreases e, 0
  {
    var list := e.body.list;
    es := [];
    for i := 0 to |list|
      invariant |es| == i && forall j :: 0 <= j < i ==> PartDone(list[j], es[j], s, t, ratio)
    {
      hide LikeEdge, FreshEdge, Pick;
      assert list[i] in list;
      var a := RecomputeEdge(list[i], Pick(s, t, list[i].start), Pick(s, t, list[i].end), ratio);
      es := es + [a];
    }
  }

  ghost predicate PartDone(a: Edge, d: Edge, s: Parts, t: Parts, ratio: real) {
    && LikeEdge(a, d) && Joins(a, s, t)
    && ShapeEdge(d, Pick(s, t, a.start), Pick(s, t, a.end))
       && FreshEdge(d, Pick(s, t, a.start), Pick(s, t, a.end), ratio)
  }

  lemma ListRecomputed(e: Edge, s: Parts, t: Parts, es: seq<Edge>, d: Edge, ratio: real)
    requires ShapeEdge(e, s, t) && e.body.Parallel? && |es| == |e.body.list|
    requires forall i :: 0 <= i < |es| ==> PartDone(e.body.list[i], es[i], s, t, ratio)
    requires d.id == e.id && d.start == s.id && d.end == t.id && d.body == Parallel(es)
             && Sized(d.cost, Size(s), Size(t))
    requires forall i, j :: 0 <= i < Size(s) && 0 <= j < Size(t) ==> d.cost[i][j] == ListCost(es, s, t, i, j)
    ensures LikeEdge(e, d) && ShapeEdge(d, s, t) && FreshEdge(d, s, t, ratio)
  {
    hide Pick, ListCost, Joins, ShapeEdge, FreshEdge;
    ListJoins(e, s, t);
    ListLike(e, s, t, es, ratio);
    ListParts(e, s, t, es, ratio);
    ListShaped(e, s, t, es, d);
    ListFresh(s, t, es, d, ratio);
  }

  lemma ListParts(e: Edge, s: Parts, t: Parts, es: seq<Edge>, ratio: real)
    requires ShapeEdge(e, s, t) && e.body.Parallel? && |es| == |e.body.list|
    requires forall i :: 0 <= i < |es| ==> PartDone(e.body.list[i], es[i], s, t, ratio)
    ensures forall a :: a in es ==>
              && Joins(a, s, t) && ShapeEdge(a, Pick(s, t, a.start), Pick(s, t, a.end))
              && FreshEdge(a, Pick(s, t, a.start), Pick(s, t, a.end), ratio)
  {
    hide Pick, ListCost, Joins, FreshEdge, ShapeEdge;
    ListJoins(e, s, t);
    forall a | a in es
      ensures Joins(a, s, t) && ShapeEdge(a, Pick(s, t, a.start), Pick(s, t, a.end))
              && FreshEdge(a, Pick(s, t, a.start), Pick(s, t, a.end), ratio)
    {
      var i :| 0 <= i < |es| && es[i] == a;
      assert PartDone(e.body.list[i], a, s, t, ratio) && e.body.list[i] in e.body.list;
      SameJoins(e.body.list[i], a, s, t);
    }
  }

  lemma ListJoins(e: Edge, s: Parts, t: Parts)
    requires ShapeEdge(e, s, t) && e.body.Parallel?
    ensures e.start == s.id && e.end == t.id && forall a :: a in e.body.list ==> Joins(a, s, t)
  {
    hide Pick, Joins;
  }

  lemma ListShaped(e: Edge, s: Parts, t: Parts, es: seq<Edge>, d: Edge)
    requires ShapeEdge(e, s, t) && e.body.Parallel? && |es| == |e.body.list|
    requires forall a :: a in es ==> Joins(a, s, t) && ShapeEdge(a, Pick(s, t, a.start), Pick(s, t, a.end))
    requires d.start == s.id && d.end == t.id && d.body == Parallel(es) && Sized(d.cost, Size(s), Size(t))
    ensures ShapeEdge(d, s, t)
  {
    hide Pick, Joins;
  }

  lemma ListFresh(s: Parts, t: Parts, es: seq<Edge>, d: Edge, ratio: real)
    requires forall a :: a in es ==> FreshEdge(a, Pick(s, t, a.start), Pick(s, t, a.end), ratio)
    requires d.body == Parallel(es) && Sized(d.cost, Size(s), Size(t))
    requires forall i, j :: 0 <= i < Size(s) && 0 <= j < Size(t) ==> d.cost[i][j] == ListCost(es, s, t, i, j)
    ensures FreshEdge(d, s, t, ratio)
  {
    hide Pick, ListCost;
  }

  lemma ListLike(e: Edge, s: Parts, t: Parts, es: seq<Edge>, ratio: real)
    requires e.body.Parallel? && |es| == |e.body.list|
    requires forall i :: 0 <= i < |es| ==> PartDone(e.body.list[i], es[i], s, t, ratio)
    ensures forall i :: 0 <= i < |es| ==> LikeEdge(e.body.list[i], es[i])
  {
    hide LikeEdge, ShapeEdge, FreshEdge, Pick;
  }

  lemma SameJoins(a: Edge, d: Edge, s: Parts, t: Parts)
    requires LikeEdge(a, d) && Joins(a, s, t)
    ensures Joins(d, s, t)
  {
  }

  method RecomputeThrough(e: Edge, s: Parts, t: Parts, ratio: real) returns (d: Edge)
    requires ShapeEdge(e, s, t) && e.body.Through?
    ensures LikeEdge(e, d) && ShapeEdge(d, s, t) && FreshEdge(d, s, t, ratio)
    decreases e, 0
  {
    hide FreshEdge, FreshNode, LikeNode, Pick;
    var mid, a, b, m := e.body.mid, e.body.first, e.body.second, PartsOf(e.body.mid);
    var a' := RecomputeEdge(a, Pick(s, m, a.start), Pick(s, m, a.end), ratio);
    var b' := RecomputeEdge(b, Pick(t, m, b.start), Pick(t, m, b.end), ratio);
    var mid' := RecomputeNode(mid, ratio);
    LikeParts(mid, mid');
    d := SummarizeThrough(e.id, mid', a', b', s, t);
    ThroughRecomputed(e, s, t, mid', a', b', d, ratio);
  }

  lemma ThroughRecomputed(e: Edge, s: Parts, t: Parts, mid: Node, a: Edge, b: Edge, d: Edge, ratio: real)
    requires ShapeEdge(e, s, t) && e.body.Through?
    requires LikeNode(e.body.mid, mid) && ShapeNode(mid) && FreshNode(mid, ratio) && PartsOf(mid) == PartsOf(e.body.mid)
    requires var m := PartsOf(mid);
             && LikeEdge(e.body.first, a) && ShapeEdge(a, Pick(s, m, a.start), Pick(s, m, a.end))
                && FreshEdge(a, Pick(s, m, a.start), Pick(s, m, a.end), ratio)
             && LikeEdge(e.body.second, b) && ShapeEdge(b, Pick(t, m, b.start), Pick(t, m, b.end))
                && FreshEdge(b, Pick(t, m, b.start), Pick(t, m, b.end), ratio)
    requires d.id == e.id && d.start == s.id && d.end == t.id && d.body.Through? && d.body.mid == mid
             && d.body.first == a && d.body.second == b
    requires ThroughFresh(d, s, t) && Below(d.body.sig, |mid.cost|)
    ensures LikeEdge(e, d) && ShapeEdge(d, s, t) && FreshEdge(d, s, t, ratio)
  {
    hide Pick, Comps, FreshNode;
  }
}
