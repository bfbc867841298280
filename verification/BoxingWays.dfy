/** When a boxing expression can be checked at all, and which of its ways is taken. */
module BoxingWays {
  import opened Wrappers
  import opened BoxingExpr

  /** One way through an expression: an atom, two ways that meet, or one side of an alternative. */
  datatype Way =
    | Single(name: string)
    | Via(middle: Placed, first: Way, second: Way)
    | Left(way: Way)
    | Right(way: Way)

  /** The way leads from src to dst: its atoms are registered and accept, its halves meet where the
      dividor says, and its sides are sides of the expression. */
  ghost predicate Leads(reg: Names, e: Expr, w: Way, src: Placed, dst: Placed, shape: Shape)
    decreases w
  {
    match w
    case Single(name) => e == Atom(name) && name in reg.checker && reg.checker[name](src, dst, shape)
    case Via(m, first, second) =>
      && e.Divide? && e.dividor(src, dst) == Some(m)
      && Leads(reg, e.lhs, first, src, m, shape) && Leads(reg, e.rhs, second, m, dst, shape)
    case Left(way) => e.Or? && Leads(reg, e.lhs, way, src, dst, shape)
    case Right(way) => e.Or? && Leads(reg, e.rhs, way, src, dst, shape)
  }

  ghost predicate HasWay(reg: Names, e: Expr, src: Placed, dst: Placed, shape: Shape) {
    exists w :: Leads(reg, e, w, src, dst, shape)
  }

  /** The names on the way, and the states between them. */
  ghost function NamesOn(w: Way): seq<string> {
    match w
    case Single(name) => [name]
    case Via(_, first, second) => NamesOn(first) + NamesOn(second)
    case Left(way) => NamesOn(way)
    case Right(way) => NamesOn(way)
  }

  ghost function MidsOn(w: Way): seq<Placed> {
    match w
    case Single(_) => []
    case Via(m, first, second) => MidsOn(first) + [m] + MidsOn(second)
    case Left(way) => MidsOn(way)
    case Right(way) => MidsOn(way)
  }

  /** The way turns right only where nothing leads through the left. */
  ghost predicate Leftmost(reg: Names, e: Expr, w: Way, src: Placed, dst: Placed, shape: Shape)
    requires Leads(reg, e, w, src, dst, shape)
    decreases w
  {
    match w
    case Single(_) => true
    case Via(m, first, second) =>
      Leftmost(reg, e.lhs, first, src, m, shape) && Leftmost(reg, e.rhs, second, m, dst, shape)
    case Left(way) => Leftmost(reg, e.lhs, way, src, dst, shape)
    case Right(way) => !HasWay(reg, e.lhs, src, dst, shape) && Leftmost(reg, e.rhs, way, src, dst, shape)
  }

  /** Where some way leads through, the check succeeds. */
  lemma {:induction false} CheckFinds(reg: Names, e: Expr, w: Way, src: Placed, dst: Placed, shape: Shape)
    requires Leads(reg, e, w, src, dst, shape)
    ensures Check(reg, e, src, dst, shape).Some?
    decreases w
  {
    match w
    case Single(_) =>
    case Via(m, first, second) =>
      CheckFinds(reg, e.lhs, first, src, m, shape);
      CheckFinds(reg, e.rhs, second, m, dst, shape);
      DivideSucceeds(reg, e, src, dst, shape);
    case Left(way) => CheckFinds(reg, e.lhs, way, src, dst, shape);
    case Right(way) => CheckFinds(reg, e.rhs, way, src, dst, shape);
  }

  /** Where the check succeeds, the leftmost way leads through, and the status is the status of it. */
  lemma {:induction false} CheckFollows(reg: Names, e: Expr, src: Placed, dst: Placed, shape: Shape) returns (w: Way)
    requires Check(reg, e, src, dst, shape).Some?
    ensures Leads(reg, e, w, src, dst, shape) && Leftmost(reg, e, w, src, dst, shape)
    ensures Check(reg, e, src, dst, shape).value == Status(NamesOn(w), shape, src, MidsOn(w), dst)
    decreases e
  {
    match e
    case Atom(name) => w := Single(name);
    case Divide(dividor, lhs, rhs) =>
      DivideSucceeds(reg, e, src, dst, shape);
      var m := dividor(src, dst).value;
      var first := CheckFollows(reg, lhs, src, m, shape);
      var second := CheckFollows(reg, rhs, m, dst, shape);
      w := Via(m, first, second);
    case Or(lhs, rhs) =>
      if Check(reg, lhs, src, dst, shape).Some? {
        var way := CheckFollows(reg, lhs, src, dst, shape);
        w := Left(way);
      } else {
        var way := CheckFollows(reg, rhs, src, dst, shape);
        if HasWay(reg, lhs, src, dst, shape) { NoWay(reg, lhs, src, dst, shape); }
        w := Right(way);
      }
  }

  lemma NoWay(reg: Names, e: Expr, src: Placed, dst: Placed, shape: Shape)
    ensures HasWay(reg, e, src, dst, shape) ==> Check(reg, e, src, dst, shape).Some?
  {
    if w :| Leads(reg, e, w, src, dst, shape) { CheckFinds(reg, e, w, src, dst, shape); }
  }

  /** The check succeeds exactly when some way leads through, and so does the search for a function. */
  lemma CheckComplete(reg: Names, e: Expr, src: Placed, dst: Placed, shape: Shape)
    ensures Check(reg, e, src, dst, shape).Some? <==> HasWay(reg, e, src, dst, shape)
    ensures Paired(reg) ==>
              (GetBoxingFunction(reg, e, src, dst, shape).Some? <==> HasWay(reg, e, src, dst, shape))
  {
    NoWay(reg, e, src, dst, shape);
    if Check(reg, e, src, dst, shape).Some? { var w := CheckFollows(reg, e, src, dst, shape); }
    if Paired(reg) { CompilesIfChecked(reg, e, src, dst, shape); }
  }

  /** There is only one leftmost way, so the status is determined. */
  lemma {:induction false} LeftmostUnique(reg: Names, e: Expr, w: Way, w': Way, src: Placed, dst: Placed, shape: Shape)
    requires Leads(reg, e, w, src, dst, shape) && Leftmost(reg, e, w, src, dst, shape)
    requires Leads(reg, e, w', src, dst, shape) && Leftmost(reg, e, w', src, dst, shape)
    ensures w == w'
    decreases w
  {
    match w
    case Single(_) =>
    case Via(m, first, second) =>
      LeftmostUnique(reg, e.lhs, first, w'.first, src, m, shape);
      LeftmostUnique(reg, e.rhs, second, w'.second, m, dst, shape);
    case Left(way) =>
      assert HasWay(reg, e.lhs, src, dst, shape);
      LeftmostUnique(reg, e.lhs, way, w'.way, src, dst, shape);
    case Right(way) =>
      LeftmostUnique(reg, e.rhs, way, w'.way, src, dst, shape);
  }

  /** Of two sides the left one is taken whenever it can be, and the right one otherwise: for the
      status as for the function. */
  lemma OrPrefersLeft(reg: Names, lhs: Expr, rhs: Expr, src: Placed, dst: Placed, shape: Shape)
    ensures Check(reg, Or(lhs, rhs), src, dst, shape) ==
              if HasWay(reg, lhs, src, dst, shape) then Check(reg, lhs, src, dst, shape)
              else Check(reg, rhs, src, dst, shape)
    ensures Paired(reg) ==>
              GetBoxingFunction(reg, Or(lhs, rhs), src, dst, shape) ==
                if HasWay(reg, lhs, src, dst, shape) then GetBoxingFunction(reg, lhs, src, dst, shape)
                else GetBoxingFunction(reg, rhs, src, dst, shape)
  {
    CheckComplete(reg, lhs, src, dst, shape);
    CheckComplete(reg, rhs, src, dst, shape);
  }
}
