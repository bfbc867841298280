/** BoxingCollector: the table of the shortest ways to transfer one nd-sbp into another through
    others, built layer by layer. */
module BoxingTable {

  import opened Wrappers
  import opened Sums

  // the slack for nearly cheapest routes
  const SLACK: real := 1.0000001

  type Costs = seq<seq<real>>
  type Route = seq<nat>

  function At(c: Costs, i: nat, j: nat): real { if i < |c| && j < |c[i]| then c[i][j] else UNSUPPORTED }

  /** A supported direct transfer. */
  predicate Hop(c: Costs, i: nat, j: nat) { i < |c| && j < |c[i]| && c[i][j] < VALID_MAX_COPY_COST }

  /** i -> mids -> j, by supported direct transfers. */
  ghost predicate IsRoute(c: Costs, i: nat, mids: Route, j: nat) {
    if mids == [] then Hop(c, i, j) else
      var k := mids[|mids| - 1];
      IsRoute(c, i, mids[..|mids| - 1], k) && Hop(c, k, j)
  }

  ghost function RouteCost(c: Costs, i: nat, mids: Route, j: nat): real {
    if mids == [] then At(c, i, j) else
      var k := mids[|mids| - 1];
      RouteCost(c, i, mids[..|mids| - 1], k) + At(c, k, j)
  }

  /** All the states along a route, and the cost of its kth hop. */
  ghost function Along(i: nat, mids: Route, j: nat): seq<nat> { [i] + mids + [j] }

  ghost function HopCost(c: Costs, path: seq<nat>): nat -> real {
    (k: nat) => if k + 1 < |path| then At(c, path[k], path[k + 1]) else 0.0
  }

  lemma AlongShorter(i: nat, mids: Route, j: nat)
    requires mids != []
    ensures var l := |mids| - 1; Along(i, mids, j) == Along(i, mids[..l], mids[l]) + [j]
  {
  }

  lemma OneHop(c: Costs, i: nat, j: nat)
    ensures Sum(FirstN(1), HopCost(c, [i, j])) == At(c, i, j)
  {
    hide At;
    assert FirstN(1) == {} + {0};
    SumAdd({}, 0, HopCost(c, [i, j]));
  }

  lemma OneHopMore(c: Costs, path: seq<nat>, j: nat, n: nat)
    requires |path| == n + 1
    ensures Sum(FirstN(n + 1), HopCost(c, path + [j])) == Sum(FirstN(n), HopCost(c, path)) + At(c, path[n], j)
  {
    hide Sum, At;
    SumSame(FirstN(n), HopCost(c, path), HopCost(c, path + [j]));
    assert FirstN(n + 1) == FirstN(n) + {n};
    SumAdd(FirstN(n), n, HopCost(c, path + [j]));
  }

  /** A route costs what its hops cost. */
  lemma {:induction false} RouteCostIs(c: Costs, i: nat, mids: Route, j: nat)
    ensures RouteCost(c, i, mids, j) == Sum(FirstN(|mids| + 1), HopCost(c, Along(i, mids, j)))
    decreases |mids|
  {
    hide Sum, At, HopCost, FirstN;
    if mids == [] {
      assert Along(i, mids, j) == [i, j];
      OneHop(c, i, j);
    } else {
      var l := |mids| - 1;
      RouteCostIs(c, i, mids[..l], mids[l]);
      AlongShorter(i, mids, j);
      OneHopMore(c, Along(i, mids[..l], mids[l]), j, l + 1);
    }
  }

  ghost predicate HopAt(c: Costs, path: seq<nat>, k: nat) { k + 1 < |path| && Hop(c, path[k], path[k + 1]) }

  /** It is made of direct hops. */
  lemma {:induction false} IsRouteIs(c: Costs, i: nat, mids: Route, j: nat)
    ensures IsRoute(c, i, mids, j) <==> forall k: nat :: k <= |mids| ==> HopAt(c, Along(i, mids, j), k)
    decreases |mids|
  {
    hide Hop;
    var path := Along(i, mids, j);
    if mids == [] {
      assert HopAt(c, path, 0) <==> Hop(c, i, j);
    } else {
      var l := |mids| - 1;
      var shorter := Along(i, mids[..l], mids[l]);
      IsRouteIs(c, i, mids[..l], mids[l]);
      AlongShorter(i, mids, j);
      assert forall k: nat :: k <= l ==> (HopAt(c, shorter, k) <==> HopAt(c, path, k));
      assert HopAt(c, path, l + 1) <==> Hop(c, mids[l], j);
    }
  }

  /** j can be reached from i through exactly l others. */
  ghost predicate Far(c: Costs, i: nat, j: nat, l: nat) { exists r: Route :: |r| == l && IsRoute(c, i, r, j) }

  /** ... and not through fewer. */
  ghost predicate Nearest(c: Costs, i: nat, j: nat, l: nat) {
    Far(c, i, j, l) && forall m: nat :: m < l ==> !Far(c, i, j, m)
  }

  /** A square table; a transfer is free of charge at best, and either supported or infinite;
      routes of supported transfers stay valid. */
  ghost predicate Sound(c: Costs, most: nat) {
    && (forall i :: 0 <= i < |c| ==> |c[i]| == |c|)
    && (forall i, j :: 0 <= i < |c| && 0 <= j < |c| ==> 0.0 <= c[i][j] && (Hop(c, i, j) || c[i][j] == UNSUPPORTED))
    && forall i: nat, r: Route, j: nat :: |r| <= most && IsRoute(c, i, r, j) ==>
       RouteCost(c, i, r, j) < VALID_MAX_COPY_COST
  }

  ghost function Power(l: nat): real { if l == 0 then 1.0 else Power(l - 1) * SLACK }

  lemma {:induction false} PowerAtLeastOne(l: nat)
    ensures Power(l) >= 1.0
    decreases l
  {
    if l > 0 { PowerAtLeastOne(l - 1); }
  }

  // ----- routes -----

  lemma RouteStep(c: Costs, i: nat, r: Route, k: nat, j: nat)
    ensures IsRoute(c, i, r + [k], j) <==> IsRoute(c, i, r, k) && Hop(c, k, j)
    ensures RouteCost(c, i, r + [k], j) == RouteCost(c, i, r, k) + At(c, k, j)
  {
    assert (r + [k])[..|r|] == r;
  }

  lemma FarStep(c: Costs, i: nat, k: nat, j: nat, l: nat)
    requires Far(c, i, k, l) && Hop(c, k, j)
    ensures Far(c, i, j, l + 1)
  {
    var r: Route :| |r| == l && IsRoute(c, i, r, k);
    RouteStep(c, i, r, k, j);
    assert |r + [k]| == l + 1;
  }

  lemma Direct(c: Costs, i: nat, j: nat)
    requires Hop(c, i, j)
    ensures Far(c, i, j, 0)
  {
    var none: Route := [];
    assert |none| == 0 && IsRoute(c, i, none, j);
  }

  /** The last middle node of a shortest route is one step closer. */
  lemma LastStep(c: Costs, i: nat, r: Route, j: nat)
    requires |r| > 0 && IsRoute(c, i, r, j) && Nearest(c, i, j, |r|)
    ensures var p, k := r[..|r| - 1], r[|r| - 1];
            && r == p + [k] && IsRoute(c, i, p, k) && Hop(c, k, j) && Nearest(c, i, k, |r| - 1) && k != i && k != j
  {
    var p, k := r[..|r| - 1], r[|r| - 1];
    assert r == p + [k];
    assert Far(c, i, k, |r| - 1) by { assert |p| == |r| - 1; }
    forall m: nat | m < |r| - 1 ensures !Far(c, i, k, m) { if Far(c, i, k, m) { FarStep(c, i, k, j, m); } }
    if Hop(c, i, j) { Direct(c, i, j); }
    assert |p| == |r| - 1 && (k == j ==> IsRoute(c, i, p, j));
  }

  lemma {:induction false} RouteNonNegative(c: Costs, i: nat, r: Route, j: nat, most: nat)
    requires Sound(c, most) && IsRoute(c, i, r, j)
    ensures 0.0 <= RouteCost(c, i, r, j)
    decreases |r|
  {
    if r != [] { RouteNonNegative(c, i, r[..|r| - 1], r[|r| - 1], most); }
  }

  // ----- what one entry of the table means -----

  /** The best routes of exactly l middle nodes: the cost is their least, every recorded one is
      nearly as cheap, and every cheapest one is recorded. */
  ghost predicate Best(c: Costs, i: nat, j: nat, l: nat, cost: real, routes: seq<Route>) {
    && routes != [] && cost < VALID_MAX_COPY_COST && 0.0 <= cost
    && (forall r :: r in routes ==> |r| == l && IsRoute(c, i, r, j) && RouteCost(c, i, r, j) <= Power(l) * cost)
    && (forall r: Route :: |r| == l && IsRoute(c, i, r, j) ==> cost <= RouteCost(c, i, r, j))
    && (forall r: Route :: |r| == l && IsRoute(c, i, r, j) && RouteCost(c, i, r, j) == cost ==> r in routes)
    && (exists r: Route :: |r| == l && IsRoute(c, i, r, j) && RouteCost(c, i, r, j) == cost)
  }

  /** The entry for (i, j) once routes of up to h middle nodes have been considered. */
  ghost predicate Entry(c: Costs, i: nat, j: nat, h: nat, cost: real, routes: seq<Route>) {
    if Hop(c, i, j) then cost == At(c, i, j) && routes == []
    else if exists l: nat :: 1 <= l <= h && Nearest(c, i, j, l) then
      forall l: nat :: 1 <= l <= h && Nearest(c, i, j, l) ==> Best(c, i, j, l, cost, routes)
    else cost == UNSUPPORTED && routes == []
  }

  lemma NearestUnique(c: Costs, i: nat, j: nat, l: nat, m: nat)
    requires Nearest(c, i, j, l) && Nearest(c, i, j, m)
    ensures l == m
  {
  }

  // ----- one pair -----

  type Middles = seq<seq<seq<Route>>>

  function RoutesAt(m: Middles, i: nat, j: nat): seq<Route> { if i < |m| && j < |m[i]| then m[i][j] else [] }

  /** NotMiddleNode: k can not be the last of num + 1 middle nodes on the way from i to j. */
  predicate NotMiddleNode(m: Middles, i: nat, j: nat, k: nat, num: nat) {
    || k == j || k == i
    || RoutesAt(m, k, j) != []
    || (if num > 0 then RoutesAt(m, i, k) == [] || |RoutesAt(m, i, k)[0]| != num else RoutesAt(m, i, k) != [])
  }

  /** The least cost through one more middle node. */
  method LeastVia(cost: Costs, m: Middles, i: nat, j: nat, num: nat, n: nat) returns (least: real)
    ensures least <= At(cost, i, j)
    ensures forall k :: 0 <= k < n && !NotMiddleNode(m, i, j, k, num) ==> least <= At(cost, i, k) + At(cost, k, j)
    ensures least == At(cost, i, j) ||
            exists k ::
              && 0 <= k < n && !NotMiddleNode(m, i, j, k, num)
              && least == At(cost, i, k) + At(cost, k, j)
  {
    least := At(cost, i, j);
    for k := 0 to n
      invariant least <= At(cost, i, j)
      invariant forall q :: 0 <= q < k && !NotMiddleNode(m, i, j, q, num) ==> least <= At(cost, i, q) + At(cost, q, j)
      invariant least == At(cost, i, j) ||
                exists q ::
                  && 0 <= q < k && !NotMiddleNode(m, i, j, q, num)
                  && least == At(cost, i, q) + At(cost, q, j)
    {
      hide NotMiddleNode;
      if NotMiddleNode(m, i, j, k, num) { continue; }
      var sum := At(cost, i, k) + At(cost, k, j);
      if sum < least { least := sum; }
    }
  }

  /** k is a middle node, and going through it is nearly as cheap as least. */
  predicate Cheap(cost: Costs, m: Middles, i: nat, j: nat, k: nat, num: nat, least: real) {
    !NotMiddleNode(m, i, j, k, num) && At(cost, i, k) + At(cost, k, j) <= least * SLACK
  }

  /** r goes from i to its last node by a recorded route, or directly. */
  ghost predicate Extends(m: Middles, i: nat, r: Route) {
    |r| > 0 && var p, k := r[..|r| - 1], r[|r| - 1]; if RoutesAt(m, i, k) == [] then p == [] else p in RoutesAt(m, i, k)
  }

  /** Every recorded way to a cheap last middle node, with that node appended. */
  method RoutesVia(cost: Costs, m: Middles, i: nat, j: nat, num: nat, n: nat, least: real) returns (routes: seq<Route>)
    ensures forall r :: r in routes <==>
            && Extends(m, i, r) && r[|r| - 1] < n
            && Cheap(cost, m, i, j, r[|r| - 1], num, least)
  {
    routes := [];
    for k := 0 to n
      invariant forall r :: r in routes <==>
                && Extends(m, i, r) && r[|r| - 1] < k
                && Cheap(cost, m, i, j, r[|r| - 1], num, least)
    {
      if Cheap(cost, m, i, j, k, num, least) {
        var more := Appended(RoutesAt(m, i, k), k);
        AppendedFacts(m, i, k, more);
        routes := routes + more;
      }
    }
  }

  /** The routes with k at the end, or just k when there is none. */
  method Appended(routes: seq<Route>, k: nat) returns (more: seq<Route>)
    ensures forall r :: r in more <==> |r| > 0 && r[|r| - 1] == k && if routes == [] then r == [k]
            else r[..|r| - 1] in routes
  {
    if routes == [] { return [[k]]; }
    more := [];
    for q := 0 to |routes|
      invariant forall r :: r in more <==> |r| > 0 && r[|r| - 1] == k && r[..|r| - 1] in routes[..q]
    {
      var new' := routes[q] + [k];
      assert routes[..q + 1] == routes[..q] + [routes[q]] && new'[..|new'| - 1] == routes[q];
      forall r: Route | |r| > 0 && r[|r| - 1] == k && r[..|r| - 1] == routes[q]
        ensures r == new'
      {
        assert r == r[..|r| - 1] + [k];
      }
      more := more + [new'];
    }
    assert routes[..|routes|] == routes;
  }

  lemma AppendedFacts(m: Middles, i: nat, k: nat, more: seq<Route>)
    requires forall r :: r in more <==> |r| > 0 && r[|r| - 1] == k && if RoutesAt(m, i, k) == [] then r == [k]
             else r[..|r| - 1] in RoutesAt(m, i, k)
    ensures forall r :: r in more <==> Extends(m, i, r) && r[|r| - 1] == k
  {
    forall r: Route | |r| > 0 && r[|r| - 1] == k && r[..|r| - 1] == []
      ensures r == [k]
    {
      assert r == r[..|r| - 1] + [k];
    }
  }

  // ----- why it is right -----

  /** The table while layer num + 1 is under way: every entry knows num or num + 1 layers. */
  ghost predicate Mixed(c: Costs, cost: Costs, m: Middles, num: nat) {
    forall i: nat, j: nat :: i < |c| && j < |c| ==>
      Entry(c, i, j, num, At(cost, i, j), RoutesAt(m, i, j))
          || Entry(c, i, j, num + 1, At(cost, i, j), RoutesAt(m, i, j))
  }

  lemma Horizon(c: Costs, cost: Costs, m: Middles, num: nat, i: nat, j: nat) returns (h: nat)
    requires Mixed(c, cost, m, num) && i < |c| && j < |c|
    ensures (h == num || h == num + 1) && Entry(c, i, j, h, At(cost, i, j), RoutesAt(m, i, j))
  {
    hide Entry;
    h := if Entry(c, i, j, num, At(cost, i, j), RoutesAt(m, i, j)) then num else num + 1;
  }

  /** What an entry tells when it has no route: a direct transfer, or nothing yet. */
  lemma Bare(c: Costs, i: nat, j: nat, h: nat, cost: real, routes: seq<Route>)
    requires Entry(c, i, j, h, cost, routes) && routes == []
    ensures cost == if Hop(c, i, j) then At(c, i, j) else UNSUPPORTED
  {
  }

  /** ... and when it has: they are the shortest there are. */
  lemma Known(c: Costs, i: nat, j: nat, h: nat, cost: real, routes: seq<Route>)
    requires Entry(c, i, j, h, cost, routes) && routes != []
    ensures !Hop(c, i, j) && Nearest(c, i, j, |routes[0]|) && 1 <= |routes[0]| <= h
            && Best(c, i, j, |routes[0]|, cost, routes)
  {
    var l: nat :| 1 <= l <= h && Nearest(c, i, j, l);
    assert Best(c, i, j, l, cost, routes) && routes[0] in routes;
  }

  lemma Reached(c: Costs, i: nat, j: nat, h: nat, cost: real, routes: seq<Route>, l: nat)
    requires Entry(c, i, j, h, cost, routes) && Nearest(c, i, j, l) && 1 <= l <= h
    ensures Best(c, i, j, l, cost, routes) && !Hop(c, i, j)
  {
    if Hop(c, i, j) { Direct(c, i, j); }
  }

  /** A shortest route to j of num + 1 middle nodes: its last node is one the loop considers. */
  lemma LastIsMiddle(c: Costs, cost: Costs, m: Middles, i: nat, j: nat, num: nat, r: Route, most: nat)
    requires Sound(c, most) && Mixed(c, cost, m, num) && i < |c| && j < |c| && |r| == num + 1 && IsRoute(c, i, r, j)
             && Nearest(c, i, j, num + 1)
    ensures var k := r[|r| - 1];
            && k < |c| && !NotMiddleNode(m, i, j, k, num) && At(cost, k, j) == At(c, k, j)
            && At(cost, i, k) + At(c, k, j) <= RouteCost(c, i, r, j)
    ensures var k := r[|r| - 1]; At(cost, i, k) == RouteCost(c, i, r[..num], k) ==> Extends(m, i, r)
  {
    LastStep(c, i, r, j);
    var p, k := r[..num], r[num];
    assert p == r[..|r| - 1];
    MiddleFacts(c, cost, m, i, j, k, num);
    if num == 0 {
      assert p == [];
    } else {
      var h := Horizon(c, cost, m, num, i, k);
      Reached(c, i, k, h, At(cost, i, k), RoutesAt(m, i, k), num);
    }
  }

  /** The nodes the loop considers, and whose transfer to j is supported, are the right ones. */
  lemma MiddleFacts(c: Costs, cost: Costs, m: Middles, i: nat, j: nat, k: nat, num: nat)
    requires Mixed(c, cost, m, num) && i < |c| && j < |c| && k < |c| && k != i && k != j && Nearest(c, i, k, num)
             && Hop(c, k, j)
    ensures !NotMiddleNode(m, i, j, k, num) && At(cost, k, j) == At(c, k, j)
    ensures num == 0 ==> Hop(c, i, k) && At(cost, i, k) == At(c, i, k) && RoutesAt(m, i, k) == []
    ensures num > 0 ==> Best(c, i, k, num, At(cost, i, k), RoutesAt(m, i, k))
  {
    var g := Horizon(c, cost, m, num, k, j);
    if num == 0 {
      var q: Route :| |q| == 0 && IsRoute(c, i, q, k);
      assert Hop(c, i, k);
      var h := Horizon(c, cost, m, num, i, k);
    } else {
      var h := Horizon(c, cost, m, num, i, k);
      Reached(c, i, k, h, At(cost, i, k), RoutesAt(m, i, k), num);
      assert RoutesAt(m, i, k)[0] in RoutesAt(m, i, k);
    }
  }

  /** Conversely, a node the loop considers at a valid cost is on a shortest route. */
  lemma ConsideredFacts(c: Costs, cost: Costs, m: Middles, i: nat, j: nat, k: nat, num: nat, most: nat)
    requires Sound(c, most) && Mixed(c, cost, m, num) && i < |c| && j < |c| && k < |c|
             && !NotMiddleNode(m, i, j, k, num)
    requires At(cost, i, k) + At(cost, k, j) < UNSUPPORTED && (forall l: nat :: l <= num ==> !Far(c, i, j, l))
    ensures Nearest(c, i, k, num) && Hop(c, k, j) && At(cost, k, j) == At(c, k, j) && Nearest(c, i, j, num + 1)
            && k != i && k != j
  {
    var h := Horizon(c, cost, m, num, k, j);
    var g := Horizon(c, cost, m, num, i, k);
    Bare(c, k, j, h, At(cost, k, j), RoutesAt(m, k, j));
    if num == 0 {
      Bare(c, i, k, g, At(cost, i, k), RoutesAt(m, i, k));
      CostsNonNegative(c, cost, m, i, k, g, most);
      CostsNonNegative(c, cost, m, k, j, h, most);
      assert Hop(c, i, k);
      Direct(c, i, k);
    } else {
      Known(c, i, k, g, At(cost, i, k), RoutesAt(m, i, k));
    }
    assert Hop(c, k, j);
    FarStep(c, i, k, j, num);
  }

  lemma CostsNonNegative(c: Costs, cost: Costs, m: Middles, i: nat, j: nat, h: nat, most: nat)
    requires Sound(c, most) && i < |c| && j < |c| && Entry(c, i, j, h, At(cost, i, j), RoutesAt(m, i, j))
    ensures 0.0 <= At(cost, i, j)
  {
    if RoutesAt(m, i, j) == [] {
      Bare(c, i, j, h, At(cost, i, j), []);
    } else {
      Known(c, i, j, h, At(cost, i, j), RoutesAt(m, i, j));
    }
  }

  // ----- the new entry -----

  ghost predicate Attained(c: Costs, cost: Costs, m: Middles, i: nat, j: nat, num: nat, least: real) {
    exists k :: 0 <= k < |c| && !NotMiddleNode(m, i, j, k, num) && least == At(cost, i, k) + At(cost, k, j)
  }

  /** What the two loops over k have found for (i, j). */
  ghost predicate Found(c: Costs, cost: Costs, m: Middles, i: nat, j: nat, num: nat, least: real, routes: seq<Route>) {
    && (forall k :: 0 <= k < |c| && !NotMiddleNode(m, i, j, k, num) ==> least <= At(cost, i, k) + At(cost, k, j))
    && Attained(c, cost, m, i, j, num, least)
    && (forall r :: r in routes <==>
       && Extends(m, i, r) && r[|r| - 1] < |c|
       && Cheap(cost, m, i, j, r[|r| - 1], num, least))
  }

  lemma FoundRoute(c: Costs, cost: Costs, m: Middles, i: nat, j: nat, num: nat, least: real, routes: seq<Route>,
                   r: Route)
    requires Found(c, cost, m, i, j, num, least, routes)
    ensures r in routes <==> Extends(m, i, r) && r[|r| - 1] < |c| && !NotMiddleNode(m, i, j, r[|r| - 1], num)
                             && At(cost, i, r[|r| - 1]) + At(cost, r[|r| - 1], j) <= least * SLACK
  {
    hide NotMiddleNode, Extends;
  }

  lemma FoundAttained(c: Costs, cost: Costs, m: Middles, i: nat, j: nat, num: nat, least: real, routes: seq<Route>)
    requires Found(c, cost, m, i, j, num, least, routes)
    ensures Attained(c, cost, m, i, j, num, least)
  {
    hide NotMiddleNode, Extends, Attained;
  }

  lemma FoundLeast(c: Costs, cost: Costs, m: Middles, i: nat, j: nat, num: nat, least: real, routes: seq<Route>, k: nat)
    requires Found(c, cost, m, i, j, num, least, routes) && k < |c| && !NotMiddleNode(m, i, j, k, num)
    ensures least <= At(cost, i, k) + At(cost, k, j)
  {
    hide NotMiddleNode, Extends;
  }

  lemma SoundCost(c: Costs, most: nat, k: nat, j: nat)
    requires Sound(c, most) && k < |c| && j < |c|
    ensures 0.0 <= At(c, k, j)
  {
  }

  /** Some cheapest route goes through the node that attains the least. */
  lemma Cheapest(c: Costs, cost: Costs, m: Middles, i: nat, j: nat, num: nat, least: real, most: nat) returns (r: Route)
    requires Sound(c, most) && Mixed(c, cost, m, num) && i < |c| && j < |c| && Attained(c, cost, m, i, j, num, least)
    requires least < UNSUPPORTED && num < most && forall l: nat :: l <= num ==> !Far(c, i, j, l)
    ensures |r| == num + 1 && IsRoute(c, i, r, j) && RouteCost(c, i, r, j) == least && Nearest(c, i, j, num + 1)
            && 0.0 <= least < VALID_MAX_COPY_COST
  {
    hide Sound, Mixed, Nearest, Far, NotMiddleNode, Extends, IsRoute, RouteCost;
    var k: nat :| 0 <= k < |c| && !NotMiddleNode(m, i, j, k, num) && least == At(cost, i, k) + At(cost, k, j);
    ConsideredFacts(c, cost, m, i, j, k, num, most);
    MiddleFacts(c, cost, m, i, j, k, num);
    var p: Route;
    if num == 0 {
      p := [];
      RouteOfOne(c, i, k, j);
    } else {
      p :| |p| == num && IsRoute(c, i, p, k) && RouteCost(c, i, p, k) == At(cost, i, k);
    }
    r := p + [k];
    RouteStep(c, i, p, k, j);
    RouteNonNegative(c, i, r, j, most);
    StaysValid(c, i, r, j, most);
  }

  lemma StaysValid(c: Costs, i: nat, r: Route, j: nat, most: nat)
    requires Sound(c, most) && |r| <= most && IsRoute(c, i, r, j)
    ensures RouteCost(c, i, r, j) < VALID_MAX_COPY_COST
  {
  }

  lemma Recorded(c: Costs, cost: Costs, m: Middles, i: nat, j: nat, num: nat, least: real, routes: seq<Route>,
                 most: nat, r: Route)
    requires Sound(c, most) && Mixed(c, cost, m, num) && i < |c| && j < |c|
             && Found(c, cost, m, i, j, num, least, routes)
    requires 0.0 <= least < VALID_MAX_COPY_COST && (forall l: nat :: l <= num ==> !Far(c, i, j, l)) && r in routes
    ensures |r| == num + 1 && IsRoute(c, i, r, j) && RouteCost(c, i, r, j) <= Power(num + 1) * least
  {
    hide Sound, Mixed, Found, Nearest, Far, NotMiddleNode, IsRoute, RouteCost, Power;
    FoundRoute(c, cost, m, i, j, num, least, routes, r);
    var p, k := r[..|r| - 1], r[|r| - 1];
    assert r == p + [k];
    assert least * SLACK < UNSUPPORTED;
    ConsideredFacts(c, cost, m, i, j, k, num, most);
    MiddleFacts(c, cost, m, i, j, k, num);
    RouteStep(c, i, p, k, j);
    PowerAtLeastOne(num);
    PowerStep(num);
    SoundCost(c, most, k, j);
    if num == 0 {
      RouteOfOne(c, i, k, j);
    } else {
      Compound(RouteCost(c, i, p, k), At(c, k, j), At(cost, i, k), Power(num), least);
    }
  }

  lemma PowerStep(l: nat)
    ensures Power(0) == 1.0 && Power(l + 1) == Power(l) * SLACK
  {
  }

  lemma RouteOfOne(c: Costs, i: nat, k: nat, j: nat)
    ensures RouteCost(c, i, [], k) == At(c, i, k) && (IsRoute(c, i, [], k) <==> Hop(c, i, k))
  {
  }

  lemma Compound(route: real, hop: real, part: real, power: real, least: real)
    requires route <= power * part && 0.0 <= hop && 1.0 <= power && part + hop <= least * SLACK
    ensures route + hop <= power * SLACK * least
  {
    assert hop <= power * hop;
    assert power * (part + hop) <= power * (least * SLACK);
  }

  /** The entry for (i, j) after its turn in layer num + 1, when it had no route before. */
  lemma NewEntry(c: Costs, cost: Costs, m: Middles, i: nat, j: nat, num: nat, least: real, routes: seq<Route>,
                 most: nat)
    requires Sound(c, most) && Mixed(c, cost, m, num) && i < |c| && j < |c| && num < most && !Hop(c, i, j)
    requires Found(c, cost, m, i, j, num, least, routes) && least < UNSUPPORTED && forall l: nat :: l <= num ==>
             !Far(c, i, j, l)
    ensures Entry(c, i, j, num + 1, least, routes) && routes != [] && least < VALID_MAX_COPY_COST
  {
    hide Sound, Mixed, Found, Attained, Nearest, Far, IsRoute, RouteCost, Power, Hop;
    FoundAttained(c, cost, m, i, j, num, least, routes);
    var best := Cheapest(c, cost, m, i, j, num, least, most);
    forall r: Route | |r| == num + 1 && IsRoute(c, i, r, j)
      ensures least <= RouteCost(c, i, r, j) && (RouteCost(c, i, r, j) == least ==> r in routes)
    {
      Compared(c, cost, m, i, j, num, least, routes, most, r);
    }
    forall r | r in routes
      ensures |r| == num + 1 && IsRoute(c, i, r, j) && RouteCost(c, i, r, j) <= Power(num + 1) * least
    {
      Recorded(c, cost, m, i, j, num, least, routes, most, r);
    }
    assert best in routes;
    assert Best(c, i, j, num + 1, least, routes);
    forall l: nat | 1 <= l <= num + 1 && Nearest(c, i, j, l)
      ensures l == num + 1
    {
      NearestUnique(c, i, j, l, num + 1);
    }
  }

  lemma Compared(c: Costs, cost: Costs, m: Middles, i: nat, j: nat, num: nat, least: real, routes: seq<Route>,
                 most: nat, r: Route)
    requires Sound(c, most) && Mixed(c, cost, m, num) && i < |c| && j < |c|
             && Found(c, cost, m, i, j, num, least, routes)
    requires 0.0 <= least && Nearest(c, i, j, num + 1) && |r| == num + 1 && IsRoute(c, i, r, j)
    ensures least <= RouteCost(c, i, r, j) && (RouteCost(c, i, r, j) == least ==> r in routes)
  {
    hide Sound, Mixed, Found, Nearest, Far, NotMiddleNode, IsRoute, RouteCost, Extends;
    LastIsMiddle(c, cost, m, i, j, num, r, most);
    var p, k := r[..num], r[num];
    assert r == p + [k];
    RouteStep(c, i, p, k, j);
    FoundLeast(c, cost, m, i, j, num, least, routes, k);
    FoundRoute(c, cost, m, i, j, num, least, routes, r);
  }

  /** ... and when the loop over k finds nothing, there is nothing to find. */
  lemma NothingFound(c: Costs, cost: Costs, m: Middles, i: nat, j: nat, num: nat, most: nat)
    requires Sound(c, most) && Mixed(c, cost, m, num) && i < |c| && j < |c| && num < most && !Hop(c, i, j)
    requires forall l: nat :: l <= num ==> !Far(c, i, j, l)
    requires forall k :: 0 <= k < |c| && !NotMiddleNode(m, i, j, k, num) ==>
             UNSUPPORTED <= At(cost, i, k) + At(cost, k, j)
    ensures Entry(c, i, j, num + 1, UNSUPPORTED, [])
  {
    if Far(c, i, j, num + 1) {
      var r: Route :| |r| == num + 1 && IsRoute(c, i, r, j);
      LastIsMiddle(c, cost, m, i, j, num, r, most);
    }
  }

  // ----- the layers -----

  ghost predicate Square(c: Costs, cost: Costs, m: Middles) {
    && |cost| == |c| && |m| == |c|
    && forall i :: 0 <= i < |c| ==> |cost[i]| == |c| && |m[i]| == |c|
  }

  /** How many layers the entry (p, q) knows when (i, j) is next in layer num + 1. */
  ghost function Layers(num: nat, i: nat, j: nat, p: nat, q: nat): nat {
    if p < i || (p == i && q < j) then num + 1 else num
  }

  ghost predicate Partly(c: Costs, cost: Costs, m: Middles, num: nat, i: nat, j: nat) {
    && Square(c, cost, m)
    && forall p: nat, q: nat :: p < |c| && q < |c| ==>
       Entry(c, p, q, Layers(num, i, j, p, q), At(cost, p, q), RoutesAt(m, p, q))
  }

  /** The table of all pairs for up to most middle nodes. */
  ghost predicate Complete(c: Costs, most: nat, cost: Costs, m: Middles) { Partly(c, cost, m, most, 0, 0) }

  lemma PartlyMixed(c: Costs, cost: Costs, m: Middles, num: nat, i: nat, j: nat)
    requires Partly(c, cost, m, num, i, j)
    ensures Mixed(c, cost, m, num)
  {
    hide Entry;
    forall p: nat, q: nat | p < |c| && q < |c|
      ensures Entry(c, p, q, num, At(cost, p, q), RoutesAt(m, p, q))
              || Entry(c, p, q, num + 1, At(cost, p, q), RoutesAt(m, p, q))
    {
      assert Entry(c, p, q, Layers(num, i, j, p, q), At(cost, p, q), RoutesAt(m, p, q));
    }
  }

  /** A valid entry stays as it is for all later layers; an invalid one knows of no route. */
  lemma OldEntry(c: Costs, i: nat, j: nat, num: nat, cost: real, routes: seq<Route>)
    requires Entry(c, i, j, num, cost, routes)
    ensures cost < VALID_MAX_COPY_COST ==> Entry(c, i, j, num + 1, cost, routes)
    ensures cost >= VALID_MAX_COPY_COST ==>
              && cost == UNSUPPORTED && routes == [] && !Hop(c, i, j)
              && forall l: nat :: l <= num ==> !Far(c, i, j, l)
  {
    if cost < VALID_MAX_COPY_COST {
      if !Hop(c, i, j) {
        var l: nat :| 1 <= l <= num && Nearest(c, i, j, l);
        forall k: nat | 1 <= k <= num + 1 && Nearest(c, i, j, k) ensures k == l { NearestUnique(c, i, j, k, l); }
      }
    } else {
      forall l: nat | l <= num ensures !Far(c, i, j, l) { NotFar(c, i, j, num, l); }
    }
  }

  lemma {:induction false} NotFar(c: Costs, i: nat, j: nat, num: nat, l: nat)
    requires !Hop(c, i, j) && l <= num && forall k: nat :: 1 <= k <= num ==> !Nearest(c, i, j, k)
    ensures !Far(c, i, j, l)
    decreases l
  {
    forall k: nat | k < l ensures !Far(c, i, j, k) { NotFar(c, i, j, num, k); }
    assert Far(c, i, j, l) ==> Nearest(c, i, j, l);
  }

  /** The pair (i, j) in layer num + 1: its cost and routes afterwards. */
  method ImprovePair(c: Costs, cost: Costs, m: Middles, i: nat, j: nat, num: nat, ghost most: nat)
    returns (ok: bool, least: real, routes: seq<Route>)
    requires Sound(c, most) && num < most && i < |c| && j < |c| && Partly(c, cost, m, num, i, j)
    ensures ok && Entry(c, i, j, num + 1, least, routes)
  {
    hide Sound, Partly, Entry, Mixed, NotMiddleNode, Cheap, Extends;
    ok, least, routes := true, At(cost, i, j), RoutesAt(m, i, j);
    EntryHere(c, cost, m, num, i, j);
    OldEntry(c, i, j, num, least, routes);
    if least < VALID_MAX_COPY_COST { return; }
    PartlyMixed(c, cost, m, num, i, j);
    least := LeastVia(cost, m, i, j, num, |c|);
    if least > VALID_MAX_COPY_COST {
      TooFar(c, cost, m, i, j, num, least, most);
      return;
    }
    routes := RoutesVia(cost, m, i, j, num, |c|, least);
    assert Found(c, cost, m, i, j, num, least, routes);
    NewEntry(c, cost, m, i, j, num, least, routes, most);
    ok := routes != [];
  }

  lemma EntryHere(c: Costs, cost: Costs, m: Middles, num: nat, i: nat, j: nat)
    requires Partly(c, cost, m, num, i, j) && i < |c| && j < |c|
    ensures Entry(c, i, j, num, At(cost, i, j), RoutesAt(m, i, j))
  {
    hide Entry;
    assert Layers(num, i, j, i, j) == num;
  }

  /** A least cost that is not valid is infinite: no node led to j. */
  lemma TooFar(c: Costs, cost: Costs, m: Middles, i: nat, j: nat, num: nat, least: real, most: nat)
    requires Sound(c, most) && Mixed(c, cost, m, num) && i < |c| && j < |c| && num < most && !Hop(c, i, j)
             && At(cost, i, j) == UNSUPPORTED
    requires (forall l: nat :: l <= num ==> !Far(c, i, j, l)) && least > VALID_MAX_COPY_COST && least <= UNSUPPORTED
    requires forall k :: 0 <= k < |c| && !NotMiddleNode(m, i, j, k, num) ==> least <= At(cost, i, k) + At(cost, k, j)
    requires least == UNSUPPORTED || Attained(c, cost, m, i, j, num, least)
    ensures least == UNSUPPORTED && Entry(c, i, j, num + 1, least, [])
  {
    hide Sound, Mixed, Attained, NotMiddleNode, Extends, Cheap, Entry, Far, Hop, IsRoute, RouteCost, Nearest;
    if least < UNSUPPORTED { var r := Cheapest(c, cost, m, i, j, num, least, most); }
    NothingFound(c, cost, m, i, j, num, most);
  }

  // ----- the whole table -----

  lemma Updated(c: Costs, cost: Costs, m: Middles, num: nat, i: nat, j: nat, least: real, routes: seq<Route>)
    requires i < |c| && j < |c| && Partly(c, cost, m, num, i, j) && Entry(c, i, j, num + 1, least, routes)
    ensures Partly(c, cost[i := cost[i][j := least]], m[i := m[i][j := routes]], num, i, j + 1)
  {
    hide Entry;
    var cost', m' := cost[i := cost[i][j := least]], m[i := m[i][j := routes]];
    forall p: nat, q: nat | p < |c| && q < |c|
      ensures Entry(c, p, q, Layers(num, i, j + 1, p, q), At(cost', p, q), RoutesAt(m', p, q))
    {
      if p != i || q != j {
        assert Entry(c, p, q, Layers(num, i, j, p, q), At(cost, p, q), RoutesAt(m, p, q));
        assert At(cost', p, q) == At(cost, p, q) && RoutesAt(m', p, q) == RoutesAt(m, p, q);
        assert Layers(num, i, j + 1, p, q) == Layers(num, i, j, p, q);
      }
    }
  }

  /** The same table seen from the next row or layer. */
  lemma Onward(c: Costs, cost: Costs, m: Middles, num: nat, i: nat, j: nat, num': nat, i': nat, j': nat)
    requires Partly(c, cost, m, num, i, j)
    requires forall p: nat, q: nat :: p < |c| && q < |c| ==> Layers(num, i, j, p, q) == Layers(num', i', j', p, q)
    ensures Partly(c, cost, m, num', i', j')
  {
    hide Entry;
    forall p: nat, q: nat | p < |c| && q < |c|
      ensures Entry(c, p, q, Layers(num', i', j', p, q), At(cost, p, q), RoutesAt(m, p, q))
    {
      assert Entry(c, p, q, Layers(num, i, j, p, q), At(cost, p, q), RoutesAt(m, p, q));
    }
  }

  lemma Initial(c: Costs, most: nat, m: Middles)
    requires Sound(c, most) && Square(c, c, m) && forall i: nat, j: nat :: RoutesAt(m, i, j) == []
    ensures Partly(c, c, m, 0, 0, 0)
  {
    forall p: nat, q: nat | p < |c| && q < |c| ensures Entry(c, p, q, 0, At(c, p, q), RoutesAt(m, p, q)) {
      assert Hop(c, p, q) || c[p][q] == UNSUPPORTED;
    }
  }

  class BoxingCollector {
    var minimumCopyCost: Costs
    var middleNodes: Middles

    /** The check inside never fails, and every entry ends up with the shortest routes of at most
        most middle nodes, the cheapest of them, and their cost. */
    method GenerateCombination4SamePlacement(c: Costs, most: nat) returns (ok: bool)
      requires Sound(c, most)
      modifies this
      ensures ok && Complete(c, most, minimumCopyCost, middleNodes)
    {
      hide Sound, Partly, Entry;
      minimumCopyCost, middleNodes := c, Empty(|c|);
      Start(c, most);
      ok := true;
      for num := 0 to most
        invariant ok && Partly(c, minimumCopyCost, middleNodes, num, 0, 0)
      {
        for i := 0 to |c|
          invariant ok && Partly(c, minimumCopyCost, middleNodes, num, i, 0)
        {
          for j := 0 to |c|
            invariant ok && Partly(c, minimumCopyCost, middleNodes, num, i, j)
          {
            var least, routes;
            PartlySquare(c, minimumCopyCost, middleNodes, num, i, j);
            ok, least, routes := ImprovePair(c, minimumCopyCost, middleNodes, i, j, num, most);
            Updated(c, minimumCopyCost, middleNodes, num, i, j, least, routes);
            minimumCopyCost := minimumCopyCost[i := minimumCopyCost[i][j := least]];
            middleNodes := middleNodes[i := middleNodes[i][j := routes]];
          }
          Onward(c, minimumCopyCost, middleNodes, num, i, |c|, num, i + 1, 0);
        }
        Onward(c, minimumCopyCost, middleNodes, num, |c|, 0, num + 1, 0, 0);
      }
    }
  }

  function Empty(n: nat): (m: Middles)
    ensures |m| == n && forall i :: 0 <= i < n ==> |m[i]| == n && forall j :: 0 <= j < n ==> m[i][j] == []
  {
    seq(n, _ => seq(n, _ => []))
  }

  lemma Start(c: Costs, most: nat)
    requires Sound(c, most)
    ensures Partly(c, c, Empty(|c|), 0, 0, 0)
  {
    Initial(c, most, Empty(|c|));
  }

  lemma PartlySquare(c: Costs, cost: Costs, m: Middles, num: nat, i: nat, j: nat)
    requires Partly(c, cost, m, num, i, j)
    ensures Square(c, cost, m)
  {
  }
}
