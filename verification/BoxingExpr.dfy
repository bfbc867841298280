/** The expressions of the eager boxing interpreter: what their check promises, their
    compilation to boxing functions keeps. */
module BoxingExpr {
  import opened Wrappers

  /** A placement with an nd-sbp, and a logical shape, by their symbols. */
  type Placed = nat
  type Shape = nat

  /** A global tensor: where and how it is laid out, its shape, and its logical value. */
  datatype Tensor = Tensor(at: Placed, shape: Shape, value: nat)

  type Checker = (Placed, Placed, Shape) -> bool
  type Function = (Tensor, Placed, Placed) -> Option<Tensor>

  /** The two maps by name. */
  datatype Names = Names(checker: map<string, Checker>, function': map<string, Function>)

  /** Whatever is registered is registered in both maps. */
  ghost predicate Paired(reg: Names) { reg.checker.Keys == reg.function'.Keys }

  class Registry {
    var checker: map<string, Checker>
    var function': map<string, Function>

    ghost predicate Valid()
      reads this
    {
      Paired(Names(checker, function'))
    }

    constructor ()
      ensures Valid() && checker == map[] && function' == map[]
    {
      checker, function' := map[], map[];
    }

    /** RegisterBoxingFunction: a name can be taken only once, and a second attempt changes nothing. */
    method RegisterBoxingFunction(name: string, c: Checker, f: Function) returns (ok: bool)
      requires Valid()
      modifies this
      ensures Valid() && (ok <==> name !in old(checker))
      ensures if ok then checker == old(checker)[name := c] && function' == old(function')[name := f]
              else checker == old(checker) && function' == old(function')
    {
      if name in checker { return false; }
      checker := checker[name := c];
      if name in function' { return false; }
      function' := function'[name := f];
      ok := true;
    }
  }

  datatype Expr =
    | Atom(name: string)
    | Divide(dividor: (Placed, Placed) -> Option<Placed>, lhs: Expr, rhs: Expr)
    | Or(lhs: Expr, rhs: Expr)

  datatype Status = Status(names: seq<string>, shape: Shape, src: Placed, mids: seq<Placed>, dst: Placed)

  /** RawMakeComposedBoxingInterpreterStatus. */
  function Compose(l: Status, r: Status): Option<Status> {
    if l.dst != r.src || l.shape != r.shape then None
    else Some(Status(l.names + r.names, l.shape, l.src, l.mids + [l.dst] + r.mids, r.dst))
  }

  function Check(reg: Names, e: Expr, src: Placed, dst: Placed, shape: Shape): Option<Status> {
    match e
    case Atom(name) =>
      if name in reg.checker && reg.checker[name](src, dst, shape) then Some(Status([name], shape, src, [], dst))
          else None
    case Divide(dividor, lhs, rhs) =>
      var middle := dividor(src, dst);
      if middle.None? then None else
        var l := Check(reg, lhs, src, middle.value, shape);
        if l.None? then None else
          var r := Check(reg, rhs, middle.value, dst, shape);
          if r.None? then None else Compose(l.value, r.value)
    case Or(lhs, rhs) =>
      var l := Check(reg, lhs, src, dst, shape);
      if l.Some? then l else Check(reg, rhs, src, dst, shape)
  }

  /** A boxing function: a registered one, or the closure that runs two of them. */
  datatype Code =
    | Call(f: Function)
    | Then(src: Placed, middle: Placed, dst: Placed, shape: Shape, lhs: Code, rhs: Code)

  function GetBoxingFunction(reg: Names, e: Expr, src: Placed, dst: Placed, shape: Shape): Option<Code> {
    match e
    case Atom(name) =>
      if name in reg.checker && reg.checker[name](src, dst, shape)
          && name in reg.function' then Some(Call(reg.function'[name])) else None
    case Divide(dividor, lhs, rhs) =>
      var middle := dividor(src, dst);
      if middle.None? then None else
        var l := GetBoxingFunction(reg, lhs, src, middle.value, shape);
        if l.None? then None else
          var r := GetBoxingFunction(reg, rhs, middle.value, dst, shape);
          if r.None? then None else Some(Then(src, middle.value, dst, shape, l.value, r.value))
    case Or(lhs, rhs) =>
      if Check(reg, lhs, src, dst, shape).Some? then GetBoxingFunction(reg, lhs, src, dst, shape)
      else if Check(reg, rhs, src, dst, shape).Some? then GetBoxingFunction(reg, rhs, src, dst, shape)
      else None
  }

  /** Calling a boxing function: a closure insists on what it was made for. */
  function Run(c: Code, t: Tensor, src: Placed, dst: Placed): Option<Tensor> {
    match c
    case Call(f) => f(t, src, dst)
    case Then(s, m, d, shape, lhs, rhs) =>
      if s != src || shape != t.shape || d != dst then None else
        var middle := Run(lhs, t, s, m);
        if middle.None? then None else Run(rhs, middle.value, m, d)
  }

  // ----- what the check promises -----

  /** Each named checker accepts its part of the way through path. */
  ghost predicate Accepted(reg: Names, names: seq<string>, path: seq<Placed>, shape: Shape) {
    && |path| == |names| + 1
    && forall k :: 0 <= k < |names| ==> names[k] in reg.checker && reg.checker[names[k]](path[k], path[k + 1], shape)
  }

  function Path(s: Status): seq<Placed> { [s.src] + s.mids + [s.dst] }

  lemma PathJoined(l: Status, r: Status)
    requires l.dst == r.src && l.shape == r.shape
    ensures Path(Compose(l, r).value) == Path(l) + Path(r)[1..] && Path(l)[|Path(l)| - 1] == Path(r)[0] == l.dst
  {
  }

  lemma AcceptedJoined(reg: Names, a: seq<string>, p: seq<Placed>, b: seq<string>, q: seq<Placed>, shape: Shape)
    requires Accepted(reg, a, p, shape) && Accepted(reg, b, q, shape) && p[|p| - 1] == q[0]
    ensures Accepted(reg, a + b, p + q[1..], shape)
  {
    var names, path := a + b, p + q[1..];
    forall k | 0 <= k < |names| ensures names[k] in reg.checker && reg.checker[names[k]](path[k], path[k + 1], shape) {
      if k < |a| {
        assert names[k] == a[k] && path[k] == p[k] && path[k + 1] == p[k + 1];
      } else {
        var i := k - |a|;
        assert names[k] == b[i] && path[k] == q[i] && path[k + 1] == q[i + 1];
      }
    }
  }

  /** The status of a successful check leads from src to dst, has one more name than middle
      states, and every step of it is accepted by the checker it names. */
  lemma {:induction false} CheckPromises(reg: Names, e: Expr, src: Placed, dst: Placed, shape: Shape)
    requires Check(reg, e, src, dst, shape).Some?
    ensures var s := Check(reg, e, src, dst, shape).value;
            && s.src == src && s.dst == dst && s.shape == shape && |s.names| == |s.mids| + 1
               && Accepted(reg, s.names, Path(s), shape)
    decreases e
  {
    match e
    case Atom(_) =>
    case Divide(dividor, lhs, rhs) =>
      var middle := dividor(src, dst).value;
      CheckPromises(reg, lhs, src, middle, shape);
      CheckPromises(reg, rhs, middle, dst, shape);
      var l, r := Check(reg, lhs, src, middle, shape).value, Check(reg, rhs, middle, dst, shape).value;
      PathJoined(l, r);
      AcceptedJoined(reg, l.names, Path(l), r.names, Path(r), shape);
    case Or(lhs, rhs) =>
      CheckPromises(reg, if Check(reg, lhs, src, dst, shape).Some? then lhs else rhs, src, dst, shape);
  }

  /** The two checks inside the composition never fail: a divided expression succeeds exactly
      when both of its parts do. */
  lemma DivideSucceeds(reg: Names, e: Expr, src: Placed, dst: Placed, shape: Shape)
    requires e.Divide?
    ensures Check(reg, e, src, dst, shape).Some? <==>
              && e.dividor(src, dst).Some?
              && Check(reg, e.lhs, src, e.dividor(src, dst).value, shape).Some?
              && Check(reg, e.rhs, e.dividor(src, dst).value, dst, shape).Some?
  {
    if e.dividor(src, dst).Some? {
      var m := e.dividor(src, dst).value;
      if Check(reg, e.lhs, src, m, shape).Some? { CheckPromises(reg, e.lhs, src, m, shape); }
      if Check(reg, e.rhs, m, dst, shape).Some? { CheckPromises(reg, e.rhs, m, dst, shape); }
    }
  }

  /** Checking and compiling succeed together. */
  lemma {:induction false} CompilesIfChecked(reg: Names, e: Expr, src: Placed, dst: Placed, shape: Shape)
    requires Paired(reg)
    ensures GetBoxingFunction(reg, e, src, dst, shape).Some? <==> Check(reg, e, src, dst, shape).Some?
    decreases e
  {
    match e
    case Atom(_) =>
    case Divide(dividor, lhs, rhs) =>
      DivideSucceeds(reg, e, src, dst, shape);
      if dividor(src, dst).Some? {
        CompilesIfChecked(reg, lhs, src, dividor(src, dst).value, shape);
        CompilesIfChecked(reg, rhs, dividor(src, dst).value, dst, shape);
      }
    case Or(lhs, rhs) =>
      CompilesIfChecked(reg, lhs, src, dst, shape);
      CompilesIfChecked(reg, rhs, src, dst, shape);
  }

  // ----- what the compiled function does -----

  /** Running the named functions one after the other along path. */
  function RunAlong(reg: Names, names: seq<string>, path: seq<Placed>, t: Tensor): Option<Tensor>
    requires |path| == |names| + 1
  {
    if names == [] then Some(t)
    else if names[0] !in reg.function' then None
    else
      var next := reg.function'[names[0]](t, path[0], path[1]);
      if next.None? then None else RunAlong(reg, names[1..], path[1..], next.value)
  }

  /** Where a checker accepts, its function keeps the shape. */
  ghost predicate KeepsShape(reg: Names) {
    forall name, a, b, t: Tensor ::
      && name in reg.checker && name in reg.function' && reg.checker[name](a, b, t.shape)
      && reg.function'[name](t, a, b).Some? ==>
      reg.function'[name](t, a, b).value.shape == t.shape
  }

  /** ... ends up where it was asked to, with the logical value it was given. */
  ghost predicate KeepsValue(reg: Names) {
    forall name, a, b, t: Tensor ::
      && name in reg.checker && name in reg.function' && reg.checker[name](a, b, t.shape)
      && reg.function'[name](t, a, b).Some? ==>
      reg.function'[name](t, a, b).value == Tensor(b, t.shape, t.value)
  }

  lemma {:induction false} AlongJoined(reg: Names, a: seq<string>, p: seq<Placed>, b: seq<string>, q: seq<Placed>,
                                       t: Tensor)
    requires |p| == |a| + 1 && |q| == |b| + 1 && p[|p| - 1] == q[0]
    ensures RunAlong(reg, a + b, p + q[1..], t) ==
              var middle := RunAlong(reg, a, p, t); if middle.None? then None else RunAlong(reg, b, q, middle.value)
    decreases |a|
  {
    if a == [] {
      assert a + b == b && p + q[1..] == q;
    } else {
      assert (a + b)[1..] == a[1..] + b && (p + q[1..])[1..] == p[1..] + q[1..] && (p + q[1..])[1] == p[1];
      if a[0] in reg.function' && reg.function'[a[0]](t, p[0], p[1]).Some? {
        AlongJoined(reg, a[1..], p[1..], b, q, reg.function'[a[0]](t, p[0], p[1]).value);
      }
    }
  }

  lemma {:induction false} AlongShape(reg: Names, names: seq<string>, path: seq<Placed>, t: Tensor)
    requires Paired(reg) && KeepsShape(reg) && Accepted(reg, names, path, t.shape)
             && RunAlong(reg, names, path, t).Some?
    ensures RunAlong(reg, names, path, t).value.shape == t.shape
    decreases |names|
  {
    if names != [] {
      assert names[0] in reg.checker && reg.checker[names[0]](path[0], path[0 + 1], t.shape);
      RestAccepted(reg, names, path, t.shape);
      AlongShape(reg, names[1..], path[1..], reg.function'[names[0]](t, path[0], path[1]).value);
    }
  }

  lemma RestAccepted(reg: Names, names: seq<string>, path: seq<Placed>, shape: Shape)
    requires Accepted(reg, names, path, shape) && names != []
    ensures Accepted(reg, names[1..], path[1..], shape)
  {
    forall k | 0 <= k < |names| - 1
      ensures names[1..][k] in reg.checker && reg.checker[names[1..][k]](path[1..][k], path[1..][k + 1], shape)
    {
      assert names[k + 1] in reg.checker && reg.checker[names[k + 1]](path[k + 1], path[k + 1 + 1], shape);
    }
  }

  /** The compiled function does what the named functions do along the states of the status. */
  lemma {:induction false} RunsAsChecked(reg: Names, e: Expr, src: Placed, dst: Placed, t: Tensor)
    requires Paired(reg) && KeepsShape(reg) && Check(reg, e, src, dst, t.shape).Some?
             && GetBoxingFunction(reg, e, src, dst, t.shape).Some?
    ensures var s := Check(reg, e, src, dst, t.shape).value;
            |Path(s)| == |s.names| + 1 && Run(GetBoxingFunction(reg, e, src, dst, t.shape).value, t, src, dst)
                == RunAlong(reg, s.names, Path(s), t)
    decreases e
  {
    CheckPromises(reg, e, src, dst, t.shape);
    match e
    case Atom(_) =>
    case Divide(dividor, lhs, rhs) =>
      var m, shape := dividor(src, dst).value, t.shape;
      CheckPromises(reg, lhs, src, m, shape);
      CheckPromises(reg, rhs, m, dst, shape);
      var l, r := Check(reg, lhs, src, m, shape).value, Check(reg, rhs, m, dst, shape).value;
      RunsAsChecked(reg, lhs, src, m, t);
      PathJoined(l, r);
      AlongJoined(reg, l.names, Path(l), r.names, Path(r), t);
      var middle := RunAlong(reg, l.names, Path(l), t);
      if middle.Some? {
        AlongShape(reg, l.names, Path(l), t);
        RunsAsChecked(reg, rhs, m, dst, middle.value);
      }
    case Or(lhs, rhs) =>
      RunsAsChecked(reg, if Check(reg, lhs, src, dst, t.shape).Some? then lhs else rhs, src, dst, t);
  }

  lemma {:induction false} AlongValue(reg: Names, names: seq<string>, path: seq<Placed>, t: Tensor)
    requires Paired(reg) && KeepsValue(reg) && Accepted(reg, names, path, t.shape) && path[0] == t.at
             && RunAlong(reg, names, path, t).Some?
    ensures RunAlong(reg, names, path, t).value == Tensor(path[|path| - 1], t.shape, t.value)
    decreases |names|
  {
    if names != [] {
      assert names[0] in reg.checker && reg.checker[names[0]](path[0], path[0 + 1], t.shape);
      RestAccepted(reg, names, path, t.shape);
      AlongValue(reg, names[1..], path[1..], reg.function'[names[0]](t, path[0], path[1]).value);
    }
  }

  /** A checked expression that runs through gives the same logical value at dst. */
  lemma BoxingKeepsValue(reg: Names, e: Expr, dst: Placed, t: Tensor)
    requires Paired(reg) && KeepsValue(reg) && Check(reg, e, t.at, dst, t.shape).Some?
    ensures var f := GetBoxingFunction(reg, e, t.at, dst, t.shape);
            f.Some? && (Run(f.value, t, t.at, dst).Some? ==>
                Run(f.value, t, t.at, dst).value == Tensor(dst, t.shape, t.value))
  {
    CompilesIfChecked(reg, e, t.at, dst, t.shape);
    CheckPromises(reg, e, t.at, dst, t.shape);
    RunsAsChecked(reg, e, t.at, dst, t);
    var s := Check(reg, e, t.at, dst, t.shape).value;
    if RunAlong(reg, s.names, Path(s), t).Some? { AlongValue(reg, s.names, Path(s), t); }
  }
}
