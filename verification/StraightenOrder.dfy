/** Who goes first: what the deciding parameters mean for the order of execution. */
module StraightenOrder {
  import opened Sums
  import opened Straighten

  // The values of enum StraightenOrder.
  const TRIBUTARY_LAYER_ASCEND := 0
  const LAYER_ASCEND := 2
  const MEMORY_INCREMENT_ASCEND := 3
  const EXCEED_TIME_ASCEND := 4
  const TRIBUTARY_LAYER_DESCEND := 100
  const LAYER_DESCEND := 102
  const MEMORY_INCREMENT_DESCEND := 103
  const EXCEED_TIME_DESCEND := 104

  /** The parameter puts a before b: the smaller one if it ascends, the larger one if it descends.
      All other values, among them those for the distance to overlap, put nobody before anybody. */
  ghost predicate Favours(so: int, a: Topo, b: Topo) {
    || (so == TRIBUTARY_LAYER_ASCEND && a.tributaryLayer < b.tributaryLayer)
    || (so == LAYER_ASCEND && a.minLayer < b.minLayer)
    || (so == MEMORY_INCREMENT_ASCEND && a.memoryIncrement < b.memoryIncrement)
    || (so == EXCEED_TIME_ASCEND && a.exceedTime < b.exceedTime)
    || (so == TRIBUTARY_LAYER_DESCEND && a.tributaryLayer > b.tributaryLayer)
    || (so == LAYER_DESCEND && a.minLayer > b.minLayer)
    || (so == MEMORY_INCREMENT_DESCEND && a.memoryIncrement > b.memoryIncrement)
    || (so == EXCEED_TIME_DESCEND && a.exceedTime > b.exceedTime)
  }

  ghost predicate Undecided(so: int, a: Topo, b: Topo) { !Favours(so, a, b) && !Favours(so, b, a) }

  lemma FavoursIs(so: int, a: Topo, b: Topo)
    ensures Favours(so, a, b) <==> DecidingParameter(a, so) < DecidingParameter(b, so)
    ensures Undecided(so, a, b) <==> DecidingParameter(a, so) == DecidingParameter(b, so)
  {
  }

  /** A proper prefix comes first; otherwise the first character that differs decides. */
  ghost predicate NameBefore(a: string, b: string) {
    || (|a| < |b| && a == b[..|a|])
    || exists d: nat :: d < |a| && d < |b| && SmallerAt(a, b, d)
  }

  ghost predicate SmallerAt(a: string, b: string, d: nat)
    requires d < |a| && d < |b|
  {
    a[..d] == b[..d] && a[d] < b[d]
  }

  lemma {:induction false} NameLessIs(a: string, b: string)
    ensures NameLess(a, b) <==> NameBefore(a, b)
    decreases |a|
  {
    if a != [] && b != [] {
      if a[0] == b[0] {
        NameLessIs(a[1..], b[1..]);
        HeadsEqual(a, b);
      } else {
        HeadsDiffer(a, b);
      }
    }
  }

  lemma HeadsEqual(a: string, b: string)
    requires a != [] && b != [] && a[0] == b[0]
    ensures NameBefore(a, b) <==> NameBefore(a[1..], b[1..])
  {
    var x, y := a[1..], b[1..];
    assert a == [a[0]] + x && b == [b[0]] + y;
    assert |a| < |b| ==> b[..|a|] == [b[0]] + y[..|x|];
    if d: nat :| d < |a| && d < |b| && SmallerAt(a, b, d) {
      assert x[..d - 1] == a[..d][1..] && y[..d - 1] == b[..d][1..];
      assert SmallerAt(x, y, d - 1);
    }
    if d: nat :| d < |x| && d < |y| && SmallerAt(x, y, d) {
      assert a[..d + 1] == [a[0]] + x[..d] && b[..d + 1] == [b[0]] + y[..d];
      assert SmallerAt(a, b, d + 1);
    }
  }

  lemma SameHead(a: string, b: string, d: nat)
    requires d < |a| && d < |b| && SmallerAt(a, b, d)
    ensures d == 0 || a[0] == b[0]
  {
    if d > 0 { assert a[..d][0] == a[0] && b[..d][0] == b[0]; }
  }

  lemma HeadsDiffer(a: string, b: string)
    requires a != [] && b != [] && a[0] != b[0]
    ensures NameBefore(a, b) <==> a[0] < b[0]
  {
    if a[0] < b[0] { assert SmallerAt(a, b, 0); }
    if d: nat :| d < |a| && d < |b| && SmallerAt(a, b, d) { SameHead(a, b, d); }
    assert |a| < |b| ==> b[..|a|][0] == b[0];
  }

  /** The first parameter that favours one of the two favours a, or none does and a's name is first. */
  ghost predicate Before(params: seq<int>, a: Topo, b: Topo) {
    || (exists i :: 0 <= i < |params| && FirstToFavour(params, i, a, b))
    || (NameBefore(a.name, b.name) && forall i :: 0 <= i < |params| ==> Undecided(params[i], a, b))
  }

  ghost predicate FirstToFavour(params: seq<int>, i: nat, a: Topo, b: Topo)
    requires i < |params|
  {
    Favours(params[i], a, b) && forall h :: 0 <= h < i ==> Undecided(params[h], a, b)
  }

  lemma {:induction false} CompIs(params: seq<int>, a: Topo, b: Topo)
    ensures Comp(params, a, b) <==> Before(params, a, b)
    decreases |params|
  {
    hide Favours, NameBefore, DecidingParameter;
    if params == [] {
      NameLessIs(a.name, b.name);
    } else {
      FavoursIs(params[0], a, b);
      FavoursIs(params[0], b, a);
      CompIs(params[1..], a, b);
      if Undecided(params[0], a, b) { SkipFirst(params, a, b); } else { FirstDecides(params, a, b); }
    }
  }

  lemma SkipFirst(params: seq<int>, a: Topo, b: Topo)
    requires params != [] && Undecided(params[0], a, b)
    ensures Before(params, a, b) <==> Before(params[1..], a, b)
  {
    hide Favours, NameBefore;
    var rest := params[1..];
    if i: nat :| i < |params| && FirstToFavour(params, i, a, b) {
      assert forall h :: 0 <= h < i - 1 ==> rest[h] == params[h + 1];
      assert i > 0 && FirstToFavour(rest, i - 1, a, b);
    }
    if i: nat :| i < |rest| && FirstToFavour(rest, i, a, b) {
      assert forall h :: 0 < h < i + 1 ==> params[h] == rest[h - 1];
      assert FirstToFavour(params, i + 1, a, b);
    }
    assert forall i :: 0 <= i < |rest| ==> rest[i] == params[i + 1];
    assert forall i :: 0 < i < |params| ==> params[i] == rest[i - 1];
  }

  lemma FirstDecides(params: seq<int>, a: Topo, b: Topo)
    requires params != [] && !Undecided(params[0], a, b)
    ensures Before(params, a, b) <==> Favours(params[0], a, b)
  {
    hide Favours, NameBefore;
    if Favours(params[0], a, b) { assert FirstToFavour(params, 0, a, b); }
    if i: nat :| i < |params| && FirstToFavour(params, i, a, b) { assert i == 0; }
  }

  /** Of two operators that are ready at the same moment, the one that is before runs first. */
  lemma FirstToRun(j: Job, order: seq<nat>, k: nat, p: nat, q: nat)
    requires Straight(j, order) && k <= p < |order| && k <= q < |order| && p != q
    requires Ready(j, Elems(order[..k]), order[p]) && Ready(j, Elems(order[..k]), order[q])
    requires order[p] < |j.topo| && order[q] < |j.topo| && Before(j.params, j.topo[order[p]], j.topo[order[q]])
    ensures p < q
  {
    hide Before, Comp;
    var a, b := order[p], order[q];
    CompIs(j.params, j.topo[a], j.topo[b]);
    CompOrdered(j.params, j.topo[a], j.topo[b]);
    StraightRespects(j, order);
    if q < p {
      assert Next(j, Elems(order[..q]), b);
      StillReady(j, order, k, q, p);
      assert false;
    }
  }

  lemma StillReady(j: Job, order: seq<nat>, k: nat, q: nat, p: nat)
    requires k <= q < p < |order| && Distinct(order) && Ready(j, Elems(order[..k]), order[p])
    ensures Ready(j, Elems(order[..q]), order[p])
  {
    assert forall i :: i in Elems(order[..k]) ==> i in order[..k] && i in order[..q];
    assert order[p] !in order[..q];
  }

  /** The smaller tributary layer first, say, and the larger one if the parameter descends. */
  lemma FirstParameterDecides(j: Job, order: seq<nat>, k: nat, p: nat, q: nat)
    requires Straight(j, order) && k <= p < |order| && k <= q < |order| && p != q && j.params != []
    requires Ready(j, Elems(order[..k]), order[p]) && Ready(j, Elems(order[..k]), order[q])
    requires order[p] < |j.topo| && order[q] < |j.topo| && Favours(j.params[0], j.topo[order[p]], j.topo[order[q]])
    ensures p < q
  {
    hide Favours, Ready, Straight;
    assert FirstToFavour(j.params, 0, j.topo[order[p]], j.topo[order[q]]);
    FirstToRun(j, order, k, p, q);
  }
}
