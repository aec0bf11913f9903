/** The evaluator of src/parser.rs: `Expr::eval` as a pure function of a
    variable map, `Statement::execute` as methods that update a `Context` in
    place and print to a `Console`, both proved against the fuel-indexed
    semantics `Exec`/`ExecBlock`. */
module Evaluation {
  import opened Wrappers
  import opened Lexing
  import opened Syntax

  /** The failures of evaluation (the source reports them as strings). */
  datatype RuntimeError =
    | UndefinedVariable(name: string)
    | DivisionByZero
    | InvalidOperator(op: Token)

  // ---------------------------------------------------------------------------
  // Arithmetic
  // ---------------------------------------------------------------------------

  function Abs(x: int): nat {
    if x < 0 then -x else x
  }

  /** Rust's `/` on integers: the quotient rounded toward zero (Dafny's own
      `/` rounds so that the remainder is never negative). */
  function TruncDiv(a: int, b: int): (q: int)
    requires b != 0
    ensures TruncatedRemainder(a, b, q)
  {
    var m := Abs(a) / Abs(b);
    var rounded := if (a < 0) == (b < 0) then m else -m;
    TruncDivRemainder(a, b, rounded);
    rounded
  }

  /** The remainder that goes with a quotient rounded toward zero: it has the
      sign of the dividend and is smaller than the divisor in magnitude. */
  ghost predicate TruncatedRemainder(a: int, b: int, q: int) {
    var rem := a - q * b;
    Abs(rem) < Abs(b) && (rem == 0 || (rem < 0 <==> a < 0))
  }

  /** `TruncDiv` rounds toward zero, and it is the only quotient that does:
      the quotients of Rust's `/` and of `TruncDiv` agree. */
  lemma TruncDivIsTruncation(a: int, b: int, q: int)
    requires b != 0
    ensures q == TruncDiv(a, b) <==> TruncatedRemainder(a, b, q)
  {
    if TruncatedRemainder(a, b, q) {
      TruncatedQuotientIsUnique(a, b, q, TruncDiv(a, b));
    }
  }

  /** The magnitude quotient with the sign of the product of the signs leaves
      a remainder with the dividend's sign, smaller than the divisor. */
  lemma TruncDivRemainder(a: int, b: int, q: int)
    requires b != 0
    requires q == if (a < 0) == (b < 0) then Abs(a) / Abs(b) else -(Abs(a) / Abs(b))
    ensures TruncatedRemainder(a, b, q)
  {
    var n: int, d: int := Abs(a), Abs(b);
    var q0: int, r0: int := n / d, n % d;
    assert n == q0 * d + r0 && 0 <= r0 < d;
    TruncProduct(a, b, q);
    var rem: int := if a < 0 then -r0 else r0;
    assert a - q * b == rem;
  }

  /** The quotient times the divisor is the magnitude of the dividend rounded
      down to a multiple of the divisor, with the dividend's sign. */
  lemma TruncProduct(a: int, b: int, q: int)
    requires b != 0
    requires q == if (a < 0) == (b < 0) then Abs(a) / Abs(b) else -(Abs(a) / Abs(b))
    ensures var m: int := Abs(a) / Abs(b) * Abs(b);
            q * b == if a < 0 then -m else m
  {
    var q0: int, d: int := Abs(a) / Abs(b), Abs(b);
    var flip := (a < 0) != (b < 0);
    assert q == if flip then -q0 else q0;
    assert b == if b < 0 then -d else d;
    SignedFactors(q0, d, flip, b < 0);
  }

  /** The product of two signed factors. */
  lemma SignedFactors(x: int, y: int, negX: bool, negY: bool)
    ensures var p: int := x * y;
            (if negX then -x else x) * (if negY then -y else y) == if negX == negY then p else -p
  {
    SignedProduct(x, y);
  }

  lemma SignedProduct(x: int, y: int)
    ensures (-x) * y == -(x * y) && x * (-y) == -(x * y) && (-x) * (-y) == x * y
  {
  }

  lemma TruncatedQuotientIsUnique(a: int, b: int, q1: int, q2: int)
    requires b != 0
    requires TruncatedRemainder(a, b, q1) && TruncatedRemainder(a, b, q2)
    ensures q1 == q2
  {
    var r1, r2 := a - q1 * b, a - q2 * b;
    Distribute(q2, q1, b);
    assert r1 - r2 == (q2 - q1) * b;
    SameSignDifference(r1, r2, Abs(b));
    if q1 != q2 {
      NonzeroMultiple(q2 - q1, b);
    }
  }

  /** Two numbers smaller than `m` in magnitude, and not of opposite signs,
      differ by less than `m`. */
  lemma SameSignDifference(r1: int, r2: int, m: int)
    requires Abs(r1) < m && Abs(r2) < m
    requires r1 == 0 || r2 == 0 || (r1 < 0 <==> r2 < 0)
    ensures Abs(r1 - r2) < m
  {
  }

  lemma Distribute(x: int, y: int, b: int)
    ensures x * b - y * b == (x - y) * b
  {
  }

  /** A non-zero multiple of `b` is at least as large as `b` in magnitude. */
  lemma NonzeroMultiple(k: int, b: int)
    requires k != 0
    ensures Abs(k * b) >= Abs(b)
  {
    AbsProduct(k, b);
    var m, n := Abs(k), Abs(b);
    assert m * n == n + (m - 1) * n;
    assert (m - 1) * n >= 0;
  }

  lemma AbsProduct(k: int, b: int)
    ensures Abs(k * b) == Abs(k) * Abs(b)
  {
    SignedProduct(k, b);
    if k < 0 && b >= 0 {
      assert k * b == -((-k) * b);
    } else if k >= 0 && b < 0 {
      assert k * b == -(k * -b);
    } else if k < 0 && b < 0 {
      assert k * b == (-k) * (-b);
    }
  }

  // ---------------------------------------------------------------------------
  // Expressions
  // ---------------------------------------------------------------------------

  /** `Context::get_variable` on the map it wraps: no default value. */
  function Lookup(vars: map<string, int>, name: string): (r: Option<int>)
    ensures r.Some? <==> name in vars
    ensures r.Some? ==> r.value == vars[name]
  {
    if name in vars then Some(vars[name]) else None
  }

  /** The operator of a `Binary` node applied to its two operand values: it
      fails only on a token that is no binary operator and on division by
      zero; a division rounds toward zero and a comparison yields 0 or 1. */
  function Apply(op: Token, l: int, r: int): (v: Result<int, RuntimeError>)
    ensures v.Err? <==> !IsBinaryOperator(op) || (op == Slash && r == 0)
    ensures v.Err? ==> v.error == if IsBinaryOperator(op) then DivisionByZero else InvalidOperator(op)
    ensures op == Slash && r != 0 ==> v == Ok(TruncDiv(l, r))
    ensures IsComparison(op) ==> v.Ok? && 0 <= v.value <= 1
  {
    match op
    case Plus => Ok(l + r)
    case Minus => Ok(l - r)
    case Star => Ok(l * r)
    case Slash => if r == 0 then Err(DivisionByZero) else Ok(TruncDiv(l, r))
    case DoubleEquals => Ok(if l == r then 1 else 0)
    case LessThan => Ok(if l < r then 1 else 0)
    case GreaterThan => Ok(if l > r then 1 else 0)
    case _ => Err(InvalidOperator(op))
  }

  /** `Expr::eval`: the left operand first, then the right one, then the
      operator; the first failure is the result. An undefined variable it
      reports is one the expression reads and the map lacks; an invalid
      operator it reports is no binary operator. */
  function Eval(e: Expr, vars: map<string, int>): (v: Result<int, RuntimeError>)
    ensures v.Err? && v.error.UndefinedVariable? ==> v.error.name in FreeVars(e) && v.error.name !in vars
    ensures v.Err? && v.error.InvalidOperator? ==> !IsBinaryOperator(v.error.op)
  {
    match e
    case Number(n) => Ok(n)
    case Ident(name) =>
      (match Lookup(vars, name)
       case Some(v) => Ok(v)
       case None => Err(UndefinedVariable(name)))
    case Binary(left, op, right) =>
      var l :- Eval(left, vars);
      var r :- Eval(right, vars);
      Apply(op, l, r)
  }

  // ---------------------------------------------------------------------------
  // Statements, specified
  // ---------------------------------------------------------------------------

  /** What execution can observe: the variables and the lines printed so far. */
  datatype State = State(vars: map<string, int>, out: seq<int>)

  /** The result of running with a bound on loop iterations: normal completion,
      a runtime error (with the state reached when it was raised), or the bound
      exhausted before the program finished. */
  datatype Outcome =
    | Done(st: State)
    | Fail(error: RuntimeError, st: State)
    | OutOfFuel

  /** `Statement::execute`, where every iteration of a `while` costs one unit
      of `fuel`. A failure carries the state it was raised in: an undefined
      variable is unbound there, and an invalid operator is no binary
      operator. */
  function Exec(s: Statement, st: State, fuel: nat): (o: Outcome)
    ensures o.Fail? && o.error.UndefinedVariable? ==> o.error.name !in o.st.vars
    ensures o.Fail? && o.error.InvalidOperator? ==> !IsBinaryOperator(o.error.op)
    decreases fuel, s
  {
    match s
    case Assign(name, e) =>
      (match Eval(e, st.vars)
       case Ok(v) => Done(st.(vars := st.vars[name := v]))
       case Err(err) => Fail(err, st))
    case Print(e) =>
      (match Eval(e, st.vars)
       case Ok(v) => Done(st.(out := st.out + [v]))
       case Err(err) => Fail(err, st))
    case If(c, body) =>
      (match Eval(c, st.vars)
       case Ok(v) => if v != 0 then ExecBlock(body, st, fuel) else Done(st)
       case Err(err) => Fail(err, st))
    case While(c, body) =>
      (match Eval(c, st.vars)
       case Ok(v) =>
         if v == 0 then Done(st)
         else if fuel == 0 then OutOfFuel
         else
           (match ExecBlock(body, st, fuel - 1)
            case Done(st') => Exec(s, st', fuel - 1)
            case other => other)
       case Err(err) => Fail(err, st))
  }

  /** The statements of a body (or of a program) in order, stopping at the
      first one that does not complete. */
  function ExecBlock(b: seq<Statement>, st: State, fuel: nat): (o: Outcome)
    ensures o.Fail? && o.error.UndefinedVariable? ==> o.error.name !in o.st.vars
    ensures o.Fail? && o.error.InvalidOperator? ==> !IsBinaryOperator(o.error.op)
    decreases fuel, b
  {
    if b == [] then Done(st)
    else
      match Exec(b[0], st, fuel)
      case Done(st') => ExecBlock(b[1..], st', fuel)
      case other => other
  }

  // ---------------------------------------------------------------------------
  // Statements, as the Rust code runs them
  // ---------------------------------------------------------------------------

  /** `struct Context`: the variables of one run. */
  class Context {
    var variables: map<string, int>

    /** `Context::new`: no variable is bound. */
    constructor ()
      ensures variables == map[]
    {
      variables := map[];
    }

    /** `set_variable`: binds or rebinds one name. */
    method SetVariable(name: string, value: int)
      modifies this
      ensures variables == old(variables)[name := value]
      ensures GetVariable(name) == Some(value)
      ensures forall other :: other != name ==> GetVariable(other) == old(GetVariable(other))
    {
      variables := variables[name := value];
    }

    /** `get_variable`. */
    function GetVariable(name: string): (r: Option<int>)
      reads this
      ensures r.Some? <==> name in variables
      ensures r.Some? ==> r.value == variables[name]
    {
      Lookup(variables, name)
    }
  }

  /** Standard output, where `println!` writes one value per line. */
  class Console {
    var lines: seq<int>

    constructor ()
      ensures lines == []
    {
      lines := [];
    }

    method PrintLine(v: int)
      modifies this
      ensures lines == old(lines) + [v]
    {
      lines := lines + [v];
    }
  }

  /** What `execute` returns: `Ok(())`, `Err(..)`, or, in the model only, that
      the bound on loop iterations ran out. */
  datatype Status = Completed | Raised(error: RuntimeError) | Exhausted

  /** The method's result and the new context and console are the ones `Exec`
      prescribes. */
  ghost predicate Reflects(o: Outcome, r: Status, ctx: Context, console: Console)
    reads ctx, console
  {
    match o
    case Done(st) => r == Completed && ctx.variables == st.vars && console.lines == st.out
    case Fail(err, st) => r == Raised(err) && ctx.variables == st.vars && console.lines == st.out
    case OutOfFuel => r == Exhausted
  }

  /** `Statement::execute`. */
  method Execute(s: Statement, ctx: Context, console: Console, fuel: nat) returns (r: Status)
    modifies ctx, console
    ensures Reflects(Exec(s, State(old(ctx.variables), old(console.lines)), fuel), r, ctx, console)
    decreases fuel, s
  {
    match s
    case Assign(name, e) =>
      var v := Eval(e, ctx.variables);
      if v.Err? {
        return Raised(v.error);
      }
      ctx.SetVariable(name, v.value);
      r := Completed;
    case Print(e) =>
      var v := Eval(e, ctx.variables);
      if v.Err? {
        return Raised(v.error);
      }
      console.PrintLine(v.value);
      r := Completed;
    case If(c, body) =>
      var v := Eval(c, ctx.variables);
      if v.Err? {
        return Raised(v.error);
      }
      if v.value != 0 {
        r := ExecuteBody(body, ctx, console, fuel);
      } else {
        r := Completed;
      }
    case While(c, body) =>
      var f := fuel;
      while true
        invariant Exec(s, State(old(ctx.variables), old(console.lines)), fuel)
               == Exec(s, State(ctx.variables, console.lines), f)
        decreases f
      {
        var v := Eval(c, ctx.variables);
        if v.Err? {
          return Raised(v.error);
        }
        if v.value == 0 {
          return Completed;
        }
        if f == 0 {
          return Exhausted;
        }
        f := f - 1;
        var b := ExecuteBody(body, ctx, console, f);
        if b != Completed {
          return b;
        }
      }
  }

  /** The `for stmt in body { stmt.execute(ctx)?; }` loop of `if` and `while`. */
  method ExecuteBody(b: seq<Statement>, ctx: Context, console: Console, fuel: nat) returns (r: Status)
    modifies ctx, console
    ensures Reflects(ExecBlock(b, State(old(ctx.variables), old(console.lines)), fuel), r, ctx, console)
    decreases fuel, b
  {
    for i := 0 to |b|
      invariant ExecBlock(b, State(old(ctx.variables), old(console.lines)), fuel)
             == ExecBlock(b[i..], State(ctx.variables, console.lines), fuel)
    {
      r := Execute(b[i], ctx, console, fuel);
      if r != Completed {
        return;
      }
    }
    r := Completed;
  }
}
