/** Cut ratios: the share of signature pairs that the edges of the graph leave valid. */
module CutRatio {
  import opened Wrappers
  import opened SbpForest

  ghost function ValidIn(row: seq<real>): nat {
    if row == [] then 0 else ValidIn(row[..|row| - 1]) + if row[|row| - 1] < VALID_MAX_COPY_COST then 1 else 0
  }

  ghost function ValidCells(t: Table): nat { if t == [] then 0 else ValidCells(t[..|t| - 1]) + ValidIn(t[|t| - 1]) }

  lemma {:induction false} ValidInAtMost(row: seq<real>)
    ensures ValidIn(row) <= |row|
    decreases |row|
  {
    if row != [] { ValidInAtMost(row[..|row| - 1]); }
  }

  lemma {:induction false} ValidCellsAtMost(t: Table, columns: nat)
    requires forall i :: 0 <= i < |t| ==> |t[i]| == columns
    ensures ValidCells(t) <= |t| * columns
    decreases |t|
  {
    if t != [] {
      ValidCellsAtMost(t[..|t| - 1], columns);
      ValidInAtMost(t[|t| - 1]);
      RowsAdd(|t| - 1, columns);
    }
  }

  // ----- what is counted -----

  /** The valid entries of a row. */
  ghost function ValidPlaces(row: seq<real>): set<nat> { set j: nat | j < |row| && row[j] < VALID_MAX_COPY_COST }

  lemma {:induction false} ValidInIs(row: seq<real>)
    ensures ValidIn(row) == |ValidPlaces(row)|
    decreases |row|
  {
    if row == [] {
      assert ValidPlaces(row) == {};
    } else {
      var k := |row| - 1;
      ValidInIs(row[..k]);
      var less := ValidPlaces(row[..k]);
      assert ValidPlaces(row) == if row[k] < VALID_MAX_COPY_COST then less + {k} else less;
    }
  }

  lemma RowsAdd(n: nat, m: nat)
    ensures (n + 1) * m == n * m + m
  {
  }

  lemma {:induction false} AllValid(t: Table, columns: nat)
    requires forall i :: 0 <= i < |t| ==> |t[i]| == columns
    requires forall i, j :: 0 <= i < |t| && 0 <= j < columns ==> t[i][j] < VALID_MAX_COPY_COST
    ensures ValidCells(t) == |t| * columns
    decreases |t|
  {
    if t != [] {
      var last := |t| - 1;
      AllValid(t[..last], columns);
      RowAllOrNone(t[last]);
      RowsAdd(last, columns);
    }
  }

  lemma {:induction false} NoneValid(t: Table, columns: nat)
    requires forall i :: 0 <= i < |t| ==> |t[i]| == columns
    ensures ValidCells(t) == 0 <==> forall i, j :: 0 <= i < |t| && 0 <= j < columns ==> t[i][j] >= VALID_MAX_COPY_COST
    decreases |t|
  {
    if t != [] {
      var last := |t| - 1;
      NoneValid(t[..last], columns);
      RowAllOrNone(t[last]);
      assert forall i :: 0 <= i < last ==> t[..last][i] == t[i];
    }
  }

  lemma {:induction false} RowAllOrNone(row: seq<real>)
    ensures (forall j :: 0 <= j < |row| ==> row[j] < VALID_MAX_COPY_COST) ==> ValidIn(row) == |row|
    ensures (forall j :: 0 <= j < |row| ==> row[j] >= VALID_MAX_COPY_COST) ==> ValidIn(row) == 0
    ensures (exists j :: 0 <= j < |row| && row[j] < VALID_MAX_COPY_COST) ==> ValidIn(row) > 0
    decreases |row|
  {
    if row != [] { RowAllOrNone(row[..|row| - 1]); }
  }

  method CountRow(row: seq<real>) returns (num: nat)
    ensures num == ValidIn(row)
  {
    num := 0;
    for j := 0 to |row|
      invariant num == ValidIn(row[..j])
    {
      assert row[..j + 1][..j] == row[..j];
      if row[j] < VALID_MAX_COPY_COST { num := num + 1; }
    }
    assert row[..|row|] == row;
  }

  method CountTable(t: Table) returns (num: nat)
    ensures num == ValidCells(t)
  {
    num := 0;
    for i := 0 to |t|
      invariant num == ValidCells(t[..i])
    {
      assert t[..i + 1][..i] == t[..i];
      var more := CountRow(t[i]);
      num := num + more;
    }
    assert t[..|t|] == t;
  }

  /** A table with at least one row and one column. */
  ghost predicate Boxed(t: Table) { |t| > 0 && |t[0]| > 0 && Sized(t, |t|, |t[0]|) }

  /** The share of signature pairs that are valid. */
  ghost function Share(t: Table): real
    requires Boxed(t)
  {
    CellCount(|t|, |t[0]|);
    ValidCells(t) as real / (|t| * |t[0]|) as real
  }

  /** The share is 1 where every entry is valid, and 0 exactly where none is. */
  lemma ShareLimits(t: Table)
    requires Boxed(t)
    ensures (forall i, j :: 0 <= i < |t| && 0 <= j < |t[0]| ==> Cell(t, i, j) < VALID_MAX_COPY_COST) ==> Share(t) == 1.0
    ensures Share(t) == 0.0 <==>
              forall i, j :: 0 <= i < |t| && 0 <= j < |t[0]| ==> Cell(t, i, j) >= VALID_MAX_COPY_COST
  {
    hide ValidCells;
    CellCount(|t|, |t[0]|);
    NoneValid(t, |t[0]|);
    assert forall i, j :: 0 <= i < |t| && 0 <= j < |t[0]| ==> Cell(t, i, j) == t[i][j];
    if forall i, j :: 0 <= i < |t| && 0 <= j < |t[0]| ==> t[i][j] < VALID_MAX_COPY_COST { AllValid(t, |t[0]|); }
    Quotient(ValidCells(t), |t| * |t[0]|);
  }

  lemma Quotient(num: nat, all: nat)
    requires all > 0
    ensures (num as real / all as real == 0.0 <==> num == 0) && (num == all ==> num as real / all as real == 1.0)
  {
  }

  lemma CellCount(n: nat, m: nat)
    requires n > 0 && m > 0
    ensures n * m > 0 && (n * m) as real == n as real * m as real
  {
  }

  lemma Fraction(num: nat, all: nat)
    requires num <= all && all > 0
    ensures 0.0 <= num as real / all as real <= 1.0 && (num as real / all as real) * all as real == num as real
  {
  }

  /** SbpEdge::GetCutRatio. */
  method EdgeCutRatio(t: Table) returns (ratio: real)
    requires Boxed(t)
    ensures ratio == Share(t) && 0.0 <= ratio <= 1.0
  {
    hide ValidCells;
    var num := CountTable(t);
    ValidCellsAtMost(t, |t[0]|);
    CellCount(|t|, |t[0]|);
    Fraction(num, |t| * |t[0]|);
    ratio := num as real / (|t| * |t[0]|) as real;
  }

  /** The shares that the edges ks leave, multiplied. */
  ghost function Leeway(edge: map<Id, Edge>, ks: seq<Id>): real {
    if ks == [] then 1.0 else
      var k := ks[|ks| - 1];
      Leeway(edge, ks[..|ks| - 1]) * (if k in edge && Boxed(edge[k].cost) then Share(edge[k].cost) else 1.0)
  }

  /** What one more edge leaves of it. */
  lemma LeewayStep(edge: map<Id, Edge>, ks: seq<Id>)
    requires ks != [] && ks[|ks| - 1] in edge && Boxed(edge[ks[|ks| - 1]].cost)
    requires 0.0 <= Leeway(edge, ks[..|ks| - 1]) <= 1.0
    ensures var less, share := Leeway(edge, ks[..|ks| - 1]), Share(edge[ks[|ks| - 1]].cost);
            && 0.0 <= Leeway(edge, ks) <= less && Leeway(edge, ks) <= share <= 1.0
            && (less == 1.0 && share == 1.0 ==> Leeway(edge, ks) == 1.0)
  {
    hide Share;
    var less, t := Leeway(edge, ks[..|ks| - 1]), edge[ks[|ks| - 1]].cost;
    ShareInRange(t);
    BelowBoth(less, Share(t), Leeway(edge, ks));
  }

  /** No more than any one edge leaves, and everything if every edge leaves everything. */
  lemma {:induction false} LeewayLimits(edge: map<Id, Edge>, ks: seq<Id>)
    requires forall k :: k in ks ==> k in edge && Boxed(edge[k].cost)
    ensures 0.0 <= Leeway(edge, ks) <= 1.0
    ensures forall k :: k in ks ==> Leeway(edge, ks) <= Share(edge[k].cost)
    ensures (forall k :: k in ks ==> Share(edge[k].cost) == 1.0) ==> Leeway(edge, ks) == 1.0
    decreases |ks|
  {
    if ks != [] {
      var last := |ks| - 1;
      assert ks[last] in ks && forall k :: k in ks[..last] ==> k in ks;
      LeewayLimits(edge, ks[..last]);
      LeewayStep(edge, ks);
      hide Share, Boxed, Leeway;
      forall k | k in ks ensures Leeway(edge, ks) <= Share(edge[k].cost) {
        assert k == ks[last] || k in ks[..last];
      }
    }
  }

  lemma ShareInRange(t: Table)
    requires Boxed(t)
    ensures 0.0 <= Share(t) <= 1.0
  {
    hide ValidCells;
    ValidCellsAtMost(t, |t[0]|);
    CellCount(|t|, |t[0]|);
    Fraction(ValidCells(t), |t| * |t[0]|);
  }

  lemma BelowBoth(a: real, b: real, p: real)
    requires 0.0 <= a <= 1.0 && 0.0 <= b <= 1.0 && p == a * b
    ensures 0.0 <= p <= a && p <= b && (a == 1.0 && b == 1.0 ==> p == 1.0)
  {
    Product(a, b);
    Product(1.0 - b, a);
    Product(1.0 - a, b);
  }

  /** SbpNode::GetCutRatio. */
  method NodeCutRatio(edge: map<Id, Edge>, ks: seq<Id>) returns (ratio: real)
    requires forall k :: k in ks ==> k in edge && Boxed(edge[k].cost)
    ensures ratio == Leeway(edge, ks) && 0.0 <= ratio <= 1.0
  {
    hide Boxed, Share;
    ratio := 1.0;
    for j := 0 to |ks|
      invariant ratio == Leeway(edge, ks[..j]) && 0.0 <= ratio <= 1.0
    {
      assert ks[j] in ks && ks[..j + 1][..j] == ks[..j] && ks[..j + 1][j] == ks[j];
      var one := EdgeCutRatio(edge[ks[j]].cost);
      Smaller(ratio, one);
      ratio := ratio * one;
    }
    assert ks[..|ks|] == ks;
  }

  lemma Product(a: real, b: real)
    requires 0.0 <= a && 0.0 <= b
    ensures 0.0 <= a * b
  {
  }

  lemma Smaller(a: real, b: real)
    requires 0.0 <= a <= 1.0 && 0.0 <= b <= 1.0
    ensures 0.0 <= a * b <= 1.0
  {
    Product(a, b);
    Product(1.0 - a, b);
  }

  /** How well the ends of an edge are suited for merging: few valid pairs and small tables. A table
      with many valid pairs counts as 1, which is never merged. */
  ghost function Cut(t: Table, threshold: nat): real
    requires Boxed(t) && threshold > 0
  {
    var n, m, num := |t|, |t[0]|, ValidCells(t);
    var lifted := Share(t) + 0.16 * (n as real + m as real) / threshold as real;
    if num <= 2 * n || num <= 2 * m || (num <= threshold && lifted < 0.51) then lifted else 1.0
  }

  /** An edge that may be merged leaves few pairs: at most two for each signature of one end, or at
      most threshold of them. Where it leaves none the ratio is the lift alone. */
  lemma CutLimits(t: Table, threshold: nat)
    requires Boxed(t) && threshold > 0
    ensures Cut(t, threshold) < 1.0 ==>
              ValidCells(t) <= 2 * |t| || ValidCells(t) <= 2 * |t[0]| || ValidCells(t) <= threshold
    ensures ValidCells(t) == 0 ==>
              Cut(t, threshold) * threshold as real == 0.16 * (|t| as real + |t[0]| as real)
  {
    hide ValidCells;
    CellCount(|t|, |t[0]|);
  }

  /** SbpEdge::FindCutRatio, which recovers the number of valid pairs from their share. */
  method FindCutRatio(t: Table, threshold: nat) returns (ratio: real)
    requires Boxed(t) && threshold > 0
    ensures ratio == Cut(t, threshold)
  {
    hide ValidCells;
    ratio := EdgeCutRatio(t);
    var n, m := |t| as real, |t[0]| as real;
    var num := ratio * n * m;
    NumberBack(t, ratio, num);
    ratio := ratio + 0.16 * (n + m) / threshold as real;
    if !(num <= n * 2.0 || num <= m * 2.0 || (num <= threshold as real && ratio < 0.51)) { ratio := 1.0; }
  }

  lemma NumberBack(t: Table, ratio: real, num: real)
    requires Boxed(t) && ratio == Share(t) && num == ratio * |t| as real * |t[0]| as real
    ensures num == ValidCells(t) as real
  {
    hide ValidCells;
    CellCount(|t|, |t[0]|);
    ValidCellsAtMost(t, |t[0]|);
    Fraction(ValidCells(t), |t| * |t[0]|);
    Regroup(ratio, |t| as real, |t[0]| as real);
  }

  lemma Regroup(a: real, b: real, c: real)
    ensures a * b * c == a * (b * c)
  {
  }
}
