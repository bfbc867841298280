/** The end of FindTrunk: the operators beside the trunk hide wait time on it, layer by layer from
    the end to the beginning. */
module TrunkReduce {
  import opened TrunkOrder

  datatype Op = Op(min: nat, trib: nat, trunk: bool, cost: real)

  ghost predicate Spans(ops: seq<Op>, top: nat) {
    forall n :: 0 <= n < |ops| ==> ops[n].min <= ops[n].trib <= top && 0.0 <= ops[n].cost
  }

  /** The cost beside the trunk that may run in some layer from l to k. */
  ghost function Beside(ops: seq<Op>, l: nat, k: nat): real {
    if ops == [] then 0.0 else
      Beside(ops[..|ops| - 1], l, k) +
      (var o := ops[|ops| - 1]; if !o.trunk && o.min <= k && l <= o.trib then o.cost else 0.0)
  }

  ghost function From(ops: seq<Op>, l: nat): real {
    if ops == [] then 0.0 else
      From(ops[..|ops| - 1], l) +
      (var o := ops[|ops| - 1]; if !o.trunk && o.min == l then o.cost else 0.0)
  }

  ghost function To(ops: seq<Op>, l: nat): real {
    if ops == [] then 0.0 else
      To(ops[..|ops| - 1], l) +
      (var o := ops[|ops| - 1]; if !o.trunk && o.trib == l then o.cost else 0.0)
  }

  ghost function Along(ops: seq<Op>, l: nat): real {
    if ops == [] then 0.0 else
      Along(ops[..|ops| - 1], l) +
      (var o := ops[|ops| - 1]; if o.trunk && o.min == l then o.cost else 0.0)
  }

  /** One layer more at the front; and the layer before alone. */
  lemma {:induction false} Widen(ops: seq<Op>, top: nat, l: nat, k: nat)
    requires Spans(ops, top) && l < k
    ensures Beside(ops, l, k) == Beside(ops, l + 1, k) + To(ops, l)
    ensures Beside(ops, l, l) == Beside(ops, l + 1, l + 1) - From(ops, l + 1) + To(ops, l)
    ensures From(ops, l + 1) <= Beside(ops, l + 1, l + 1) && 0.0 <= To(ops, l) && 0.0 <= From(ops, l + 1)
    decreases |ops|
  {
    if ops != [] { Widen(ops[..|ops| - 1], top, l, k); }
  }

  lemma {:induction false} Ending(ops: seq<Op>, top: nat)
    requires Spans(ops, top)
    ensures Beside(ops, top, top) == To(ops, top) >= 0.0
    decreases |ops|
  {
    if ops != [] { Ending(ops[..|ops| - 1], top); }
  }

  /** trunk_cost, tributary_cost and outdated_tributary_cost. */
  method Summarize(ops: seq<Op>, top: nat) returns (trunk: seq<real>, begins: seq<real>, ends: seq<real>)
    requires Spans(ops, top)
    ensures |trunk| == |begins| == |ends| == top + 1
    ensures forall l :: 0 <= l <= top ==>
            trunk[l] == Along(ops, l) && begins[l] == From(ops, l) && ends[l] == To(ops, l)
    ensures forall l :: 0 <= l <= top ==> 0.0 <= trunk[l]
  {
    trunk, begins, ends := seq(top + 1, _ => 0.0), seq(top + 1, _ => 0.0), seq(top + 1, _ => 0.0);
    for n := 0 to |ops|
      invariant |trunk| == |begins| == |ends| == top + 1 && forall l :: 0 <= l <= top ==> 0.0 <= trunk[l]
      invariant forall l :: 0 <= l <= top ==>
                && trunk[l] == Along(ops[..n], l) && begins[l] == From(ops[..n], l)
                && ends[l] == To(ops[..n], l)
    {
      var o := ops[n];
      assert ops[..n + 1][..n] == ops[..n] && ops[..n + 1][n] == o;
      if o.trunk {
        trunk := trunk[o.min := trunk[o.min] + o.cost];
      } else {
        begins := begins[o.min := begins[o.min] + o.cost];
        ends := ends[o.trib := ends[o.trib] + o.cost];
      }
    }
    assert ops[..|ops|] == ops;
  }

  // ----- the wait time hidden in each layer -----

  ghost function Total(hidden: seq<real>, l: nat, k: nat): real
    requires k < |hidden|
    decreases k + 1 - l
  {
    if l > k then 0.0 else hidden[l] + Total(hidden, l + 1, k)
  }

  lemma {:induction false} TotalKept(hidden: seq<real>, at: nat, x: real, l: nat, k: nat)
    requires at < l && k < |hidden| && at < |hidden|
    ensures Total(hidden[at := x], l, k) == Total(hidden, l, k)
    decreases k + 1 - l
  {
    if l <= k { TotalKept(hidden, at, x, l + 1, k); }
  }

  /** No cost beside the trunk hides wait time twice, whatever layers are looked at. */
  ghost predicate Covered(ops: seq<Op>, hidden: seq<real>, spare: real, l: nat, k: nat) {
    k < |hidden| && Total(hidden, l, k) + spare <= Beside(ops, l, k)
  }

  ghost predicate Tight(ops: seq<Op>, hidden: seq<real>, spare: real, l: nat, k: nat) {
    l <= k < |hidden| && Total(hidden, l, k) + spare == Beside(ops, l, k)
  }

  /** The whole wait time of a layer is hidden, or no more of it can be. */
  ghost predicate Exhausted(ops: seq<Op>, hidden: seq<real>, most: real, l: nat) {
    l < |hidden| && (hidden[l] == most || exists k :: Tight(ops, hidden, 0.0, l, k))
  }

  ghost predicate Reduced(ops: seq<Op>, top: nat, hidden: seq<real>, most: real, l: nat) {
    && |hidden| == top + 1
    && (forall j :: 0 <= j <= top ==> 0.0 <= hidden[j] <= most) && hidden[top] == 0.0
       && (forall j :: 0 <= j < l && j <= top ==> hidden[j] == 0.0)
    && (forall j, k :: l <= j <= k <= top ==> Covered(ops, hidden, 0.0, j, k))
    && forall j :: l <= j < top ==> Exhausted(ops, hidden, most, j)
  }

  /** spare is the least that the layers from l on have left. */
  ghost predicate Spare(ops: seq<Op>, top: nat, hidden: seq<real>, spare: real, used: real, l: nat) {
    && |hidden| == top + 1 && 0.0 <= spare && 0.0 <= used && spare + used == Beside(ops, l, l)
    && (forall k :: l <= k <= top ==> Covered(ops, hidden, spare, l, k))
    && exists k :: 0 <= k <= top && Tight(ops, hidden, spare, l, k)
  }

  /** Layer l takes x of the spare cost. */
  lemma Hide(ops: seq<Op>, top: nat, hidden: seq<real>, most: real, spare: real, used: real, l: nat, x: real)
    requires l < top && Reduced(ops, top, hidden, most, l + 1) && Spare(ops, top, hidden, spare, used, l)
             && 0.0 <= x <= most
    requires x <= spare && (x == most || x == spare)
    ensures Reduced(ops, top, hidden[l := x], most, l) && Spare(ops, top, hidden[l := x], spare - x, used + x, l)
  {
    hide Beside;
    var hidden', spare' := hidden[l := x], spare - x;
    forall j, k | l < j && 0 <= k <= top
      ensures Total(hidden', j, k) == Total(hidden, j, k)
    {
      TotalKept(hidden, l, x, j, k);
    }
    forall k | l <= k <= top ensures Total(hidden', l, k) == Total(hidden, l, k) + x {}
    forall k | l <= k <= top ensures Covered(ops, hidden', spare', l, k) { assert Covered(ops, hidden, spare, l, k); }
    forall j, k | l <= j <= k <= top ensures Covered(ops, hidden', 0.0, j, k) {
      if j > l { assert Covered(ops, hidden, 0.0, j, k); } else { assert Covered(ops, hidden', spare', l, k); }
    }
    var k :| 0 <= k <= top && Tight(ops, hidden, spare, l, k);
    assert Tight(ops, hidden', spare', l, k);
    forall j | l <= j < top ensures Exhausted(ops, hidden', most, j) {
      if j > l {
        assert Exhausted(ops, hidden, most, j);
        if hidden[j] != most {
          var m :| Tight(ops, hidden, 0.0, j, m);
          assert Tight(ops, hidden', 0.0, j, m);
        }
      }
    }
  }

  /** From layer l + 1 to layer l: what begins at l + 1 is gone, what ends at l comes in. */
  lemma Enter(ops: seq<Op>, top: nat, hidden: seq<real>, most: real, spare: real, used: real, l: nat)
    requires l < top && Spans(ops, top) && Reduced(ops, top, hidden, most, l + 1)
             && Spare(ops, top, hidden, spare, used, l + 1)
    ensures var gone := From(ops, l + 1); var lost := if gone > used then gone - used else 0.0;
            && 0.0 <= gone && 0.0 <= spare - lost
            && Spare(ops, top, hidden, spare - lost + To(ops, l), if gone > used then 0.0 else used - gone, l)
  {
    hide Beside, From, To;
    var gone := From(ops, l + 1);
    var lost := if gone > used then gone - used else 0.0;
    var spare' := spare - lost + To(ops, l);
    forall k | l < k <= top
      ensures Beside(ops, l, k) == Beside(ops, l + 1, k) + To(ops, l)
              && Total(hidden, l, k) == Total(hidden, l + 1, k) && Covered(ops, hidden, spare', l, k)
    {
      Widen(ops, top, l, k);
      assert Covered(ops, hidden, spare, l + 1, k);
    }
    Widen(ops, top, l, l + 1);
    assert Total(hidden, l, l) == 0.0;
    if gone > used {
      assert Tight(ops, hidden, spare', l, l);
    } else {
      var k :| 0 <= k <= top && Tight(ops, hidden, spare, l + 1, k);
      assert Tight(ops, hidden, spare', l, k);
    }
  }

  lemma AtEnd(ops: seq<Op>, top: nat, hidden: seq<real>, most: real)
    requires Spans(ops, top) && 0.0 <= most && |hidden| == top + 1 && forall j :: 0 <= j <= top ==> hidden[j] == 0.0
    ensures Reduced(ops, top, hidden, most, top) && Spare(ops, top, hidden, To(ops, top), 0.0, top)
  {
    Ending(ops, top);
    assert Total(hidden, top, top) == 0.0;
    assert Tight(ops, hidden, To(ops, top), top, top);
  }

  // ----- on the edges -----

  /** SbpNode::SetTrunkWaitTime for every trunk operator of layer l. */
  function SetTrunkWaitTime(ups: seq<seq<Up>>, ops: seq<Op>, l: nat, time: real,
                            wait: seq<seq<real>>): (r: seq<seq<real>>)
    requires SameShape(ups, wait) && Inside(ups, |ops|)
    ensures SameShape(ups, r)
    ensures forall c, i :: 0 <= c < |ups| && 0 <= i < |ups[c]| ==> r[c][i] == SetOne(ups, ops, l, time, wait, c, i)
  {
    seq(|ups|, c requires 0 <= c < |ups| => seq(|ups[c]|, i requires 0
        <= i < |ups[c]| => SetOne(ups, ops, l, time, wait, c, i)))
  }

  predicate SameShape(ups: seq<seq<Up>>, wait: seq<seq<real>>) {
    |wait| == |ups| && forall c :: 0 <= c < |ups| ==> |wait[c]| == |ups[c]|
  }

  predicate Inside(ups: seq<seq<Up>>, size: nat) {
    forall c, i :: 0 <= c < |ups| && 0 <= i < |ups[c]| ==> ups[c][i].producer < size
  }

  function SetOne(ups: seq<seq<Up>>, ops: seq<Op>, l: nat, time: real, wait: seq<seq<real>>, c: nat, i: nat): real
    requires SameShape(ups, wait) && Inside(ups, |ops|) && c < |ups| && i < |ups[c]|
  {
    var p := ops[ups[c][i].producer];
    if ups[c][i].data && p.trunk && p.min == l && (wait[c][i] < 0.0 || wait[c][i] > time) then time else wait[c][i]
  }

  /** An edge out of the trunk waits no longer than its layer leaves, and otherwise as before. */
  ghost predicate Shortened(ups: seq<seq<Up>>, ops: seq<Op>, hidden: seq<real>, most: real, wait: seq<seq<real>>,
                            wait': seq<seq<real>>) {
    && SameShape(ups, wait) && SameShape(ups, wait') && Inside(ups, |ops|)
    && forall c, i :: 0 <= c < |ups| && 0 <= i < |ups[c]| ==> wait'[c][i] == Short(ups, ops, hidden, most, wait, c, i)
  }

  ghost function Short(ups: seq<seq<Up>>, ops: seq<Op>, hidden: seq<real>, most: real, wait: seq<seq<real>>, c: nat,
                       i: nat): real
    requires SameShape(ups, wait) && Inside(ups, |ops|) && c < |ups| && i < |ups[c]|
  {
    var p := ops[ups[c][i].producer];
    if ups[c][i].data && p.trunk && p.min < |hidden|
        && most - hidden[p.min] < wait[c][i] then most - hidden[p.min] else wait[c][i]
  }

  /** All edges of the graph have a wait time by now. */
  ghost predicate Timed(ups: seq<seq<Up>>, wait: seq<seq<real>>, most: real) {
    SameShape(ups, wait) && forall c, i :: 0 <= c < |ups| && 0 <= i < |ups[c]| && ups[c][i].data ==>
        0.0 <= wait[c][i] <= most
  }

  lemma ShortenStep(ups: seq<seq<Up>>, ops: seq<Op>, hidden: seq<real>, most: real, wait: seq<seq<real>>,
                    wait': seq<seq<real>>, l: nat, x: real)
    requires Timed(ups, wait, most) && Shortened(ups, ops, hidden, most, wait, wait') && l < |hidden|
             && hidden[l] == 0.0 && 0.0 <= x <= most
    requires forall j :: 0 <= j < |hidden| ==> hidden[j] <= most
    ensures Shortened(ups, ops, hidden[l := x], most, wait, SetTrunkWaitTime(ups, ops, l, most - x, wait'))
    ensures x == 0.0 ==> Shortened(ups, ops, hidden[l := x], most, wait, wait')
  {
    assert hidden[l := 0.0] == hidden;
    var h', w' := hidden[l := x], SetTrunkWaitTime(ups, ops, l, most - x, wait');
    forall c, i | 0 <= c < |ups| && 0 <= i < |ups[c]| ensures w'[c][i] == Short(ups, ops, h', most, wait, c, i) {
      assert wait'[c][i] == Short(ups, ops, hidden, most, wait, c, i);
      assert w'[c][i] == SetOne(ups, ops, l, most - x, wait', c, i);
    }
  }

  lemma NothingHidden(ups: seq<seq<Up>>, ops: seq<Op>, hidden: seq<real>, most: real, wait: seq<seq<real>>)
    requires Timed(ups, wait, most) && Inside(ups, |ops|) && forall j :: 0 <= j < |hidden| ==> hidden[j] == 0.0
    ensures Shortened(ups, ops, hidden, most, wait, wait)
  {
  }

  /** Reduce the wait time for the trunk. calm says that the accumulated cost never became negative. */
  method ReduceTrunk(ups: seq<seq<Up>>, ops: seq<Op>, top: nat, begins: seq<real>, ends: seq<real>, most: real,
                     wait: seq<seq<real>>)
    returns (calm: bool, wait': seq<seq<real>>, ghost hidden: seq<real>)
    requires Spans(ops, top) && Inside(ups, |ops|) && 0.0 <= most && Timed(ups, wait, most)
    requires |begins| == |ends| == top + 1 && forall l :: 0 <= l <= top ==>
             begins[l] == From(ops, l) && ends[l] == To(ops, l)
    ensures calm && Reduced(ops, top, hidden, most, 0) && Shortened(ups, ops, hidden, most, wait, wait')
  {
    hide Reduced, Spare, From, To, Shortened, Timed, Spans;
    hidden := seq(top + 1, _ => 0.0);
    AtEnd(ops, top, hidden, most);
    calm, wait' := true, wait;
    NothingHidden(ups, ops, hidden, most, wait);
    var spare, used, l := ends[top], 0.0, top;
    while l > 0
      invariant l <= top && calm && Reduced(ops, top, hidden, most, l) && Spare(ops, top, hidden, spare, used, l)
      invariant Shortened(ups, ops, hidden, most, wait, wait')
    {
      l := l - 1;
      Enter(ops, top, hidden, most, spare, used, l);
      if begins[l + 1] > used {
        spare := spare - (begins[l + 1] - used);
        used := 0.0;
        if spare < 0.0 { calm, spare := false, 0.0; }
      } else {
        used := used - begins[l + 1];
      }
      spare := spare + ends[l];
      SpareSure(ops, top, hidden, spare, used, most, l);
      ghost var x := if spare > most then most else spare;
      Hide(ops, top, hidden, most, spare, used, l, x);
      ShortenStep(ups, ops, hidden, most, wait, wait', l, x);
      ShapeOf(ups, ops, hidden, most, wait, wait');
      if spare > 0.0 {
        var time;
        if spare > most {
          time := 0.0;
          spare, used := spare - most, used + most;
        } else {
          time := most - spare;
          spare, used := 0.0, used + spare;
        }
        wait' := SetTrunkWaitTime(ups, ops, l, time, wait');
      }
      hidden := hidden[l := x];
    }
  }

  lemma SpareSure(ops: seq<Op>, top: nat, hidden: seq<real>, spare: real, used: real, most: real, l: nat)
    requires Spare(ops, top, hidden, spare, used, l) && l < top && Reduced(ops, top, hidden, most, l + 1)
    ensures 0.0 <= spare && |hidden| == top + 1 && hidden[l] == 0.0 && forall j :: 0 <= j < |hidden| ==>
            hidden[j] <= most
  {
  }

  lemma ShapeOf(ups: seq<seq<Up>>, ops: seq<Op>, hidden: seq<real>, most: real, wait: seq<seq<real>>,
                wait': seq<seq<real>>)
    requires Shortened(ups, ops, hidden, most, wait, wait')
    ensures SameShape(ups, wait')
  {
  }
}
