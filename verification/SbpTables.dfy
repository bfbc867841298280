/** The dynamic programming over signature tables: what the nested loops of the nodes and
    edges compute. */
module SbpTables {
  import opened Wrappers
  import opened SbpForest
  import opened SbpSteps

  // ----- component tables -----

  /** Under signature i of the whole, k has signature pick[i] and its component c has t[c][i]. */
  ghost predicate Tabulates(t: map<Id, seq<Sig>>, k: Parts, pick: seq<Sig>) {
    forall c :: c in t ==> (|t[c]| == |pick| && forall i :: 0 <= i < |pick| ==> t[c][i] == Comp(k, pick[i], c))
  }

  /** SbpNode::GenerateComponentRelationship: for every node the merged node was made from, the
      signature it has under each signature of the whole. */
  method ComponentTables(k: Parts) returns (t: map<Id, seq<Sig>>)
    requires PartsOk(k)
    ensures t.Keys == Comps(k) - {k.id} && Tabulates(t, k, Identity(Size(k)))
    decreases k
  {
    match k
    case Whole(_, _) => t := map[];
    case Pair(_, f, s, pairs) =>
      var u := ComponentTables(f);
      var v := ComponentTables(s);
      var a := Compose(f, Firsts(pairs), u);
      var b := Compose(s, Seconds(pairs), v);
      t := a + b;
      Composed(k, a, b, t);
  }

  /** The half itself, and for each of its components the half's table looked up through pick. */
  method Compose(k: Parts, pick: seq<Sig>, u: map<Id, seq<Sig>>) returns (t: map<Id, seq<Sig>>)
    requires forall i :: 0 <= i < |pick| ==> pick[i] < Size(k)
    requires k.id in Comps(k) && u.Keys == Comps(k) - {k.id} && Tabulates(u, k, Identity(Size(k)))
    ensures t.Keys == Comps(k) && Tabulates(t, k, pick)
  {
    t := map[k.id := pick];
    var rest := u.Keys;
    while rest != {}
      invariant rest <= u.Keys && t.Keys == Comps(k) - rest
      invariant Tabulates(t, k, pick)
      decreases |rest|
    {
      var c :| c in rest;
      rest := rest - {c};
      t := t[c := seq(|pick|, i requires 0 <= i < |pick| => u[c][pick[i]])];
    }
  }

  lemma Composed(k: Parts, a: map<Id, seq<Sig>>, b: map<Id, seq<Sig>>, t: map<Id, seq<Sig>>)
    requires PartsOk(k) && k.Pair? && t == a + b
    requires a.Keys == Comps(k.first) && Tabulates(a, k.first, Firsts(k.pairs))
    requires b.Keys == Comps(k.second) && Tabulates(b, k.second, Seconds(k.pairs))
    ensures t.Keys == Comps(k) - {k.id} && Tabulates(t, k, Identity(Size(k)))
  {
    forall c | c in t
      ensures |t[c]| == Size(k) && forall i :: 0 <= i < Size(k) ==> t[c][i] == Comp(k, i, c)
    {
      if c in Comps(k.first) { assert t[c] == a[c]; } else { assert t[c] == b[c]; }
    }
  }

  ghost predicate IsTable(k: Parts, t: map<Id, seq<Sig>>) {
    PartsOk(k) && t.Keys == Comps(k) - {k.id} && Tabulates(t, k, Identity(Size(k)))
  }

  /** SbpNode::GetComponentSbpId. */
  function GetComponentSbpId(k: Parts, t: map<Id, seq<Sig>>, i: Sig, c: Id): Sig {
    if c == k.id then i else if c in t && i < |t[c]| then t[c][i] else 0
  }

  predicate IsComponent(k: Parts, t: map<Id, seq<Sig>>, c: Id) { c == k.id || c in t }

  lemma {:induction false} NoComponent(k: Parts, i: Sig, c: Id)
    requires PartsOk(k) && c != k.id && (c !in Comps(k) || i >= Size(k))
    ensures Comp(k, i, c) == 0
    decreases k
  {
    match k
    case Whole(_, _) =>
    case Pair(_, f, s, pairs) =>
      if i < |pairs| { assert s.id in Comps(s); NoComponent(s, pairs[i].1, c); }
  }

  /** Looking a signature up is what following the merges down gives. */
  lemma ComponentIs(k: Parts, t: map<Id, seq<Sig>>, i: Sig, c: Id)
    requires IsTable(k, t)
    ensures GetComponentSbpId(k, t, i, c) == Comp(k, i, c) && (IsComponent(k, t, c) <==> c in Comps(k))
  {
    assert k.id in Comps(k);
    if c != k.id && (c !in Comps(k) || i >= Size(k)) { NoComponent(k, i, c); }
  }

  // ----- edges -----

  function SideVia(a: Edge, mid: Id, k: Parts, ct: map<Id, seq<Sig>>, i: Sig, m: Sig): real {
    if a.end == mid then Cell(a.cost, GetComponentSbpId(k, ct, i, a.start), m)
        else Cell(a.cost, m, GetComponentSbpId(k, ct, i, a.end))
  }

  lemma SideViaIs(a: Edge, mid: Id, k: Parts, ct: map<Id, seq<Sig>>, i: Sig, m: Sig)
    requires IsTable(k, ct)
    ensures SideVia(a, mid, k, ct, i, m) == SideCost(a, mid, k, i, m)
  {
    hide IsTable;
    ComponentIs(k, ct, i, a.start);
    ComponentIs(k, ct, i, a.end);
  }

  function PartVia(a: Edge, s: Parts, cs: map<Id, seq<Sig>>, t: Parts, ct: map<Id, seq<Sig>>, i: Sig, j: Sig): real {
    if IsComponent(s, cs, a.start)
        then Cell(a.cost, GetComponentSbpId(s, cs, i, a.start), GetComponentSbpId(t, ct, j, a.end))
    else Cell(a.cost, GetComponentSbpId(t, ct, j, a.start), GetComponentSbpId(s, cs, i, a.end))
  }

  lemma PartViaIs(a: Edge, s: Parts, cs: map<Id, seq<Sig>>, t: Parts, ct: map<Id, seq<Sig>>, i: Sig, j: Sig)
    requires IsTable(s, cs) && IsTable(t, ct)
    ensures PartVia(a, s, cs, t, ct, i, j) == PartCost(a, s, t, i, j)
  {
    hide IsTable;
    ComponentIs(s, cs, i, a.start);
    ComponentIs(s, cs, i, a.end);
    ComponentIs(t, ct, j, a.start);
    ComponentIs(t, ct, j, a.end);
  }

  /** The two ends of a compound edge with their component tables. */
  datatype Ends = Ends(s: Parts, cs: map<Id, seq<Sig>>, t: Parts, ct: map<Id, seq<Sig>>)

  ghost predicate Tabled(d: Ends) { IsTable(d.s, d.cs) && IsTable(d.t, d.ct) }

  method EndsOf(s: Parts, t: Parts) returns (d: Ends)
    requires PartsOk(s) && PartsOk(t)
    ensures d.s == s && d.t == t && Tabled(d)
  {
    var cs := ComponentTables(s);
    var ct := ComponentTables(t);
    d := Ends(s, cs, t, ct);
  }

  /** The first signature of the mid node of least cost, for fixed signatures of the two ends. */
  method BestMid(mid: Node, a: Edge, b: Edge, d: Ends, i: Sig, j: Sig) returns (best: Sig, least: real)
    requires |mid.cost| > 0 && Tabled(d)
    ensures best < |mid.cost| && least == ThroughCost(mid, a, b, d.s, d.t, i, best, j)
    ensures forall m :: 0 <= m < |mid.cost| ==> least <= ThroughCost(mid, a, b, d.s, d.t, i, m, j)
    ensures forall m :: 0 <= m < best ==> least < ThroughCost(mid, a, b, d.s, d.t, i, m, j)
  {
    hide IsTable, SideVia, SideCost;
    best, least := 0, 0.0;
    for m := 0 to |mid.cost|
      invariant m == 0 || (best < m && least == ThroughCost(mid, a, b, d.s, d.t, i, best, j))
      invariant forall p :: 0 <= p < m ==> least <= ThroughCost(mid, a, b, d.s, d.t, i, p, j)
      invariant forall p :: 0 <= p < best ==> least < ThroughCost(mid, a, b, d.s, d.t, i, p, j)
    {
      var sum := mid.cost[m] + SideVia(a, mid.id, d.s, d.cs, i, m) + SideVia(b, mid.id, d.t, d.ct, j, m);
      SideViaIs(a, mid.id, d.s, d.cs, i, m);
      SideViaIs(b, mid.id, d.t, d.ct, j, m);
      if m == 0 || sum < least { best, least := m, sum; }
    }
  }

  /** One row of a folded edge. */
  method ThroughRow(mid: Node, a: Edge, b: Edge, d: Ends, i: Sig) returns (cost: seq<real>, sig: seq<Sig>)
    requires |mid.cost| > 0 && Tabled(d)
    ensures |cost| == Size(d.t) && |sig| == Size(d.t)
    ensures forall j :: 0 <= j < Size(d.t) ==>
            sig[j] < |mid.cost| && cost[j] == ThroughCost(mid, a, b, d.s, d.t, i, sig[j], j)
    ensures forall j, m :: 0 <= j < Size(d.t) && 0 <= m < |mid.cost| ==>
            cost[j] <= ThroughCost(mid, a, b, d.s, d.t, i, m, j)
  {
    hide Tabled, ThroughCost;
    cost, sig := [], [];
    for j := 0 to Size(d.t)
      invariant |cost| == j && |sig| == j
      invariant forall p :: 0 <= p < j ==>
                sig[p] < |mid.cost| && cost[p] == ThroughCost(mid, a, b, d.s, d.t, i, sig[p], p)
      invariant forall p, m :: 0 <= p < j && 0 <= m < |mid.cost| ==>
                cost[p] <= ThroughCost(mid, a, b, d.s, d.t, i, m, p)
    {
      var best, least := BestMid(mid, a, b, d, i, j);
      cost, sig := cost + [least], sig + [best];
    }
  }

  /** The edge that replaces mid and its two edges, with its table summarised. */
  method SummarizeThrough(id: Id, mid: Node, a: Edge, b: Edge, s: Parts, t: Parts) returns (e: Edge)
    requires |mid.cost| > 0 && PartsOk(s) && PartsOk(t)
    ensures e.id == id && e.start == s.id && e.end == t.id
    ensures e.body.Through? && e.body.mid == mid && e.body.first == a && e.body.second == b
    ensures ThroughFresh(e, s, t) && Below(e.body.sig, |mid.cost|)
  {
    hide Tabled, ThroughCost;
    var d := EndsOf(s, t);
    var cost: Table, sig: seq<seq<Sig>> := [], [];
    for i := 0 to Size(s)
      invariant Sized(cost, i, Size(t)) && Sized(sig, i, Size(t))
      invariant forall p, j :: 0 <= p < i && 0 <= j < Size(t) ==>
                  sig[p][j] < |mid.cost| && cost[p][j] == ThroughCost(mid, a, b, s, t, p, sig[p][j], j)
      invariant forall p, j, m :: 0 <= p < i && 0 <= j < Size(t) && 0 <= m < |mid.cost| ==>
                  cost[p][j] <= ThroughCost(mid, a, b, s, t, p, m, j)
    {
      var row, choice := ThroughRow(mid, a, b, d, i);
      cost, sig := cost + [row], sig + [choice];
    }
    e := Edge(id, s.id, t.id, cost, Through(mid, a, b, sig));
  }

  /** One entry of the sum of parallel edges. */
  method ParallelCell(list: seq<Edge>, d: Ends, i: Sig, j: Sig) returns (sum: real)
    requires Tabled(d)
    ensures sum == ListCost(list, d.s, d.t, i, j)
  {
    hide IsTable, PartVia, PartCost;
    sum := 0.0;
    for p := 0 to |list|
      invariant sum == ListCost(list[..p], d.s, d.t, i, j)
    {
      PartViaIs(list[p], d.s, d.cs, d.t, d.ct, i, j);
      sum := sum + PartVia(list[p], d.s, d.cs, d.t, d.ct, i, j);
      assert list[..p + 1][..p] == list[..p];
    }
    assert list[..|list|] == list;
  }

  method ParallelRow(list: seq<Edge>, d: Ends, i: Sig) returns (row: seq<real>)
    requires Tabled(d)
    ensures |row| == Size(d.t) && forall j :: 0 <= j < Size(d.t) ==> row[j] == ListCost(list, d.s, d.t, i, j)
  {
    hide Tabled, ListCost;
    row := [];
    for j := 0 to Size(d.t)
      invariant |row| == j && forall q :: 0 <= q < j ==> row[q] == ListCost(list, d.s, d.t, i, q)
    {
      var sum := ParallelCell(list, d, i, j);
      row := row + [sum];
    }
  }

  /** The edge that replaces several edges between the same two nodes. */
  method SummarizeParallel(id: Id, list: seq<Edge>, s: Parts, t: Parts) returns (e: Edge)
    requires PartsOk(s) && PartsOk(t)
    ensures e.id == id && e.start == s.id && e.end == t.id && e.body == Parallel(list)
    ensures Sized(e.cost, Size(s), Size(t))
    ensures forall i, j :: 0 <= i < Size(s) && 0 <= j < Size(t) ==> e.cost[i][j] == ListCost(list, s, t, i, j)
  {
    hide Tabled, ListCost;
    var d := EndsOf(s, t);
    var cost: Table := [];
    for i := 0 to Size(s)
      invariant Sized(cost, i, Size(t))
      invariant forall p, j :: 0 <= p < i && 0 <= j < Size(t) ==> cost[p][j] == ListCost(list, s, t, p, j)
    {
      var row := ParallelRow(list, d, i);
      cost := cost + [row];
    }
    e := Edge(id, s.id, t.id, cost, Parallel(list));
  }

  // ----- re-indexing -----

  /** Every row taken from row rows[i]. */
  method PickRows<T>(t: seq<seq<T>>, rows: seq<Sig>, ghost width: nat) returns (u: seq<seq<T>>)
    requires Sized(t, |t|, width) && forall i :: 0 <= i < |rows| ==> rows[i] < |t|
    ensures Picked(t, u, rows, Identity(width))
  {
    u := [];
    for i := 0 to |rows|
      invariant |u| == i && forall p :: 0 <= p < i ==> u[p] == t[rows[p]]
    {
      u := u + [t[rows[i]]];
    }
  }

  method PickRow<T>(row: seq<T>, cols: seq<Sig>) returns (u: seq<T>)
    requires forall j :: 0 <= j < |cols| ==> cols[j] < |row|
    ensures |u| == |cols| && forall j :: 0 <= j < |cols| ==> u[j] == row[cols[j]]
  {
    u := [];
    for j := 0 to |cols|
      invariant |u| == j && forall q :: 0 <= q < j ==> u[q] == row[cols[q]]
    {
      u := u + [row[cols[j]]];
    }
  }

  /** Every column taken from column cols[j]. */
  method PickColumns<T>(t: seq<seq<T>>, cols: seq<Sig>) returns (u: seq<seq<T>>)
    requires forall i, j :: 0 <= i < |t| && 0 <= j < |cols| ==> cols[j] < |t[i]|
    ensures Picked(t, u, Identity(|t|), cols)
  {
    u := [];
    for i := 0 to |t|
      invariant |u| == i
      invariant forall p :: 0 <= p < i ==> |u[p]| == |cols| && forall j :: 0 <= j < |cols| ==> u[p][j] == t[p][cols[j]]
    {
      var row := PickRow(t[i], cols);
      u := u + [row];
    }
  }

  /** Every table an edge has of its own has the given size. */
  ghost predicate SizedEdge(e: Edge, rows: nat, columns: nat) {
    && Sized(e.cost, rows, columns)
    && match e.body
       case Bare(time, memory) => Sized(time, rows, columns) && (memory == [] || Sized(memory, rows, columns))
       case Parallel(_) => true
       case Through(_, _, _, sig) => Sized(sig, rows, columns)
  }

  /** SbpEdge::DuplicateCost when the start node has been merged. */
  method DuplicateStart(e: Edge, start: Id, rows: seq<Sig>, ghost width: nat) returns (d: Edge)
    requires SizedEdge(e, |e.cost|, width) && |rows| > 0 && forall i :: 0 <= i < |rows| ==> rows[i] < |e.cost|
    ensures Copied(e, d, start, e.end, rows, Identity(width)) && SizedEdge(d, |rows|, width)
  {
    var cost := PickRows(e.cost, rows, width);
    var body := e.body;
    match e.body {
      case Bare(time, memory) =>
        var newTime := PickRows(time, rows, width);
        var newMemory := memory;
        if memory != [] { newMemory := PickRows(memory, rows, width); }
        body := Bare(newTime, newMemory);
      case Parallel(_) =>
      case Through(mid, a, b, sig) =>
        var newSig := PickRows(sig, rows, width);
        body := Through(mid, a, b, newSig);
    }
    d := Edge(e.id, start, e.end, cost, body);
  }

  /** SbpEdge::DuplicateCost when the end node has been merged. */
  method DuplicateEnd(e: Edge, end: Id, cols: seq<Sig>, ghost width: nat) returns (d: Edge)
    requires SizedEdge(e, |e.cost|, width) && |e.cost| > 0 && forall j :: 0 <= j < |cols| ==> cols[j] < width
    ensures Copied(e, d, e.start, end, Identity(|e.cost|), cols) && SizedEdge(d, |e.cost|, |cols|)
  {
    var cost := PickColumns(e.cost, cols);
    var body := e.body;
    match e.body {
      case Bare(time, memory) =>
        var newTime := PickColumns(time, cols);
        var newMemory := memory;
        if memory != [] { newMemory := PickColumns(memory, cols); }
        body := Bare(newTime, newMemory);
      case Parallel(_) =>
      case Through(mid, a, b, sig) =>
        var newSig := PickColumns(sig, cols);
        body := Through(mid, a, b, newSig);
    }
    d := Edge(e.id, e.start, end, cost, body);
  }

  /** Re-indexing the columns and then the rows re-indexes both. */
  lemma ColumnsThenRows(e: Edge, c: Edge, d: Edge, start: Id, end: Id, rows: seq<Sig>, cols: seq<Sig>)
    requires |rows| > 0 && |e.cost| > 0
    requires Copied(e, c, e.start, end, Identity(|e.cost|), cols)
    requires Copied(c, d, start, end, rows, Identity(|cols|))
    ensures Copied(e, d, start, end, rows, cols)
  {
    PickedTwice(e.cost, c.cost, d.cost, rows, cols);
    match e.body
    case Bare(time, memory) =>
      PickedTwice(time, c.body.time, d.body.time, rows, cols);
      if memory != [] { PickedTwice(memory, c.body.memory, d.body.memory, rows, cols); }
    case Parallel(_) =>
    case Through(_, _, _, sig) => PickedTwice(sig, c.body.sig, d.body.sig, rows, cols);
  }

  lemma PickedTwice<T>(t: seq<seq<T>>, u: seq<seq<T>>, v: seq<seq<T>>, rows: seq<Sig>, cols: seq<Sig>)
    requires exists n: nat :: Picked(t, u, Identity(n), cols)
    requires Picked(u, v, rows, Identity(|cols|))
    ensures Picked(t, v, rows, cols)
  {
    var n: nat :| Picked(t, u, Identity(n), cols);
    assert Sized(v, |rows|, |cols|);
    forall i, j | 0 <= i < |rows| && 0 <= j < |cols|
      ensures rows[i] < |t| && cols[j] < |t[rows[i]]| && v[i][j] == t[rows[i]][cols[j]]
    {
      PickedOnce(u, v, rows, Identity(|cols|), i, j);
      PickedOnce(t, u, Identity(n), cols, rows[i], j);
    }
    if |cols| > 0 {
      forall i | 0 <= i < |rows| ensures rows[i] < |t| {
        PickedOnce(u, v, rows, Identity(|cols|), i, 0);
        PickedOnce(t, u, Identity(n), cols, rows[i], 0);
      }
    }
  }

  lemma PickedOnce<T>(t: seq<seq<T>>, u: seq<seq<T>>, rows: seq<Sig>, cols: seq<Sig>, i: nat, j: nat)
    requires Picked(t, u, rows, cols) && i < |rows| && j < |cols|
    ensures rows[i] < |t| && cols[j] < |t[rows[i]]| && |u| == |rows| && |u[i]| == |cols|
            && u[i][j] == t[rows[i]][cols[j]]
  {
  }

  /** Re-indexing the rows and then the columns re-indexes both. */
  lemma RowsThenColumns(e: Edge, c: Edge, d: Edge, start: Id, end: Id, rows: seq<Sig>, cols: seq<Sig>, width: nat)
    requires |rows| > 0 && width > 0
    requires Copied(e, c, start, e.end, rows, Identity(width))
    requires Copied(c, d, start, end, Identity(|rows|), cols)
    ensures Copied(e, d, start, end, rows, cols)
  {
    PickedAcross(e.cost, c.cost, d.cost, rows, cols, width);
    match e.body
    case Bare(time, memory) =>
      PickedAcross(time, c.body.time, d.body.time, rows, cols, width);
      if memory != [] { PickedAcross(memory, c.body.memory, d.body.memory, rows, cols, width); }
    case Parallel(_) =>
    case Through(_, _, _, sig) => PickedAcross(sig, c.body.sig, d.body.sig, rows, cols, width);
  }

  lemma PickedAcross<T>(t: seq<seq<T>>, u: seq<seq<T>>, v: seq<seq<T>>, rows: seq<Sig>, cols: seq<Sig>, width: nat)
    requires Picked(t, u, rows, Identity(width))
    requires Picked(u, v, Identity(|rows|), cols)
    ensures Picked(t, v, rows, cols)
  {
    assert Sized(v, |rows|, |cols|);
    forall i, j | 0 <= i < |rows| && 0 <= j < |cols|
      ensures rows[i] < |t| && cols[j] < |t[rows[i]]| && v[i][j] == t[rows[i]][cols[j]]
    {
      PickedCell(t, u, v, rows, cols, width, i, j);
    }
    if |cols| > 0 {
      forall i | 0 <= i < |rows| ensures rows[i] < |t| { PickedCell(t, u, v, rows, cols, width, i, 0); }
    }
  }

  lemma PickedCell<T>(t: seq<seq<T>>, u: seq<seq<T>>, v: seq<seq<T>>, rows: seq<Sig>, cols: seq<Sig>, width: nat,
                      i: nat, j: nat)
    requires Picked(t, u, rows, Identity(width))
    requires Picked(u, v, Identity(|rows|), cols)
    requires i < |rows| && j < |cols|
    ensures rows[i] < |t| && cols[j] < |t[rows[i]]| && v[i][j] == t[rows[i]][cols[j]]
  {
    PickedOnce(u, v, Identity(|rows|), cols, i, j);
    PickedOnce(t, u, rows, Identity(width), i, cols[j]);
  }

  // ----- nodes -----

  /** The first signature of a child of least cost, for a fixed signature of its father. */
  method BestChild(c: Child, i: Sig) returns (best: Sig, least: real)
    requires |c.node.cost| > 0
    ensures ChildBest(c, i, best) && least == ChildCost(c, i, best)
    ensures forall m :: 0 <= m < best ==> least < ChildCost(c, i, m)
  {
    best, least := 0, ChildCost(c, i, 0);
    for m := 1 to |c.node.cost|
      invariant best < m && least == ChildCost(c, i, best)
      invariant forall p :: 0 <= p < m ==> least <= ChildCost(c, i, p)
      invariant forall p :: 0 <= p < best ==> least < ChildCost(c, i, p)
    {
      var sum := ChildCost(c, i, m);
      if sum < least { best, least := m, sum; }
    }
  }

  /** SbpNode::SummarizeCost for one new child: its choices and the father's new costs. */
  method AddChild(cost: seq<real>, c: Node, k: Edge) returns (child: Child, sums: seq<real>)
    requires |c.cost| > 0
    ensures child.node == c && child.edge == k && |child.sig| == |cost| && |sums| == |cost|
    ensures forall i :: 0 <= i < |cost| ==>
              ChildBest(child, i, child.sig[i]) && sums[i] == cost[i] + ChildCost(child, i, child.sig[i])
  {
    var sig: seq<Sig> := [];
    sums := [];
    var bare := Child(c, k, []);
    for i := 0 to |cost|
      invariant |sig| == i && |sums| == i
      invariant forall p :: 0 <= p < i ==> ChildBest(bare, p, sig[p]) && sums[p] == cost[p] + ChildCost(bare, p, sig[p])
    {
      var best, least := BestChild(bare, i);
      sig, sums := sig + [best], sums + [cost[i] + least];
    }
    child := Child(c, k, sig);
    forall i | 0 <= i < |cost| ensures ChildBest(child, i, sig[i]) { SameChild(bare, child, i, sig[i]); }
  }

  lemma SameChild(c: Child, d: Child, i: Sig, best: Sig)
    requires c.node == d.node && c.edge == d.edge && ChildBest(c, i, best)
    ensures ChildBest(d, i, best)
  {
    forall m | 0 <= m < |d.node.cost| ensures ChildCost(d, i, best) <= ChildCost(d, i, m) {
      assert ChildCost(c, i, best) <= ChildCost(c, i, m);
    }
  }

  /** The pairs (i, j), over all j, that the edge between the halves leaves valid. */
  method KeptRow(f: Node, s: Node, common: Option<Edge>, i: Sig) returns (pairs: seq<(Sig, Sig)>, cost: seq<real>)
    requires i < |f.cost|
    ensures |cost| == |pairs| && (forall p :: 0 <= p < |pairs| ==> pairs[p].0 == i && pairs[p].1 < |s.cost|)
    ensures forall p :: 0 <= p < |pairs| ==> cost[p] == PairCost(f, s, common, pairs[p].0, pairs[p].1)
    ensures forall j :: 0 <= j < |s.cost| ==> ((i, j) in pairs <==> Kept(f.id, common, i, j))
    ensures forall p, q :: 0 <= p < q < |pairs| ==> pairs[p].1 < pairs[q].1
  {
    pairs, cost := [], [];
    for j := 0 to |s.cost|
      invariant |cost| == |pairs| && (forall p :: 0 <= p < |pairs| ==> pairs[p].0 == i && pairs[p].1 < j)
      invariant forall p :: 0 <= p < |pairs| ==> cost[p] == PairCost(f, s, common, pairs[p].0, pairs[p].1)
      invariant forall q :: 0 <= q < j ==> ((i, q) in pairs <==> Kept(f.id, common, i, q))
      invariant forall p, q :: 0 <= p < q < |pairs| ==> pairs[p].1 < pairs[q].1
    {
      ghost var before := pairs;
      if Kept(f.id, common, i, j) {
        pairs := pairs + [(i, j)];
        cost := cost + [f.cost[i] + s.cost[j] + (if common.Some? then HalfEdgeCost(common.value, f.id, i, j) else 0.0)];
      }
      assert forall q :: 0 <= q < j ==> ((i, q) in pairs <==> (i, q) in before);
    }
  }

  /** The signatures of a merged node, in the order of the two nested loops, and their costs. */
  method KeptPairs(f: Node, s: Node, common: Option<Edge>) returns (pairs: seq<(Sig, Sig)>, cost: seq<real>)
    ensures |cost| == |pairs| && (forall p :: 0 <= p < |pairs| ==> pairs[p].0 < |f.cost| && pairs[p].1 < |s.cost|)
    ensures forall p :: 0 <= p < |pairs| ==> cost[p] == PairCost(f, s, common, pairs[p].0, pairs[p].1)
    ensures forall i, j :: 0 <= i < |f.cost| && 0 <= j < |s.cost| ==> ((i, j) in pairs <==> Kept(f.id, common, i, j))
    ensures forall p, q :: 0 <= p < q < |pairs| ==>
              pairs[p].0 < pairs[q].0 || (pairs[p].0 == pairs[q].0 && pairs[p].1 < pairs[q].1)
  {
    hide PairCost, Kept;
    pairs, cost := [], [];
    for i := 0 to |f.cost|
      invariant |cost| == |pairs| && (forall p :: 0 <= p < |pairs| ==> pairs[p].0 < i && pairs[p].1 < |s.cost|)
      invariant forall p :: 0 <= p < |pairs| ==> cost[p] == PairCost(f, s, common, pairs[p].0, pairs[p].1)
      invariant forall q, j :: 0 <= q < i && 0 <= j < |s.cost| ==> ((q, j) in pairs <==> Kept(f.id, common, q, j))
      invariant forall p, q :: 0 <= p < q < |pairs| ==>
                  pairs[p].0 < pairs[q].0 || (pairs[p].0 == pairs[q].0 && pairs[p].1 < pairs[q].1)
    {
      ghost var before := pairs;
      var row, sums := KeptRow(f, s, common, i);
      pairs, cost := pairs + row, cost + sums;
      assert forall q, j :: 0 <= q < i ==> ((q, j) in pairs <==> (q, j) in before);
      assert forall j :: (i, j) in pairs <==> (i, j) in row;
    }
  }
}
