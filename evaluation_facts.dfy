/** Properties of `Expr::eval` and `Statement::execute` (src/parser.rs),
    stated on `Eval`, `Exec` and `ExecBlock`. */
module EvaluationFacts {
  import opened Wrappers
  import opened Lexing
  import opened Syntax
  import opened Evaluation

  // ---------------------------------------------------------------------------
  // Expressions
  // ---------------------------------------------------------------------------

  /** A name evaluates to its binding, and to an error when it has none:
      there is no default value. */
  lemma IdentNeedsBinding(name: string, vars: map<string, int>)
    ensures Eval(Expr.Ident(name), vars).Ok? <==> name in vars
    ensures name in vars ==> Eval(Expr.Ident(name), vars) == Ok(vars[name])
    ensures name !in vars ==> Eval(Expr.Ident(name), vars) == Err(UndefinedVariable(name))
  {
  }

  /** The left operand is evaluated first and its failure is the result; the
      right operand's failure comes next; only then is the operator applied. */
  lemma LeftOperandFirst(l: Expr, op: Token, r: Expr, vars: map<string, int>)
    ensures Eval(l, vars).Err? ==> Eval(Binary(l, op, r), vars) == Err(Eval(l, vars).error)
    ensures Eval(l, vars).Ok? && Eval(r, vars).Err? ==>
              Eval(Binary(l, op, r), vars) == Err(Eval(r, vars).error)
    ensures Eval(l, vars).Ok? && Eval(r, vars).Ok? ==>
              Eval(Binary(l, op, r), vars) == Apply(op, Eval(l, vars).value, Eval(r, vars).value)
  {
  }

  /** Division by zero is an error; any other division rounds toward zero. */
  lemma DivisionRoundsTowardZero(l: Expr, r: Expr, vars: map<string, int>)
    requires Eval(l, vars).Ok? && Eval(r, vars).Ok?
    ensures Eval(r, vars).value == 0 ==> Eval(Binary(l, Slash, r), vars) == Err(DivisionByZero)
    ensures Eval(r, vars).value != 0 ==>
              && Eval(Binary(l, Slash, r), vars).Ok?
              && TruncatedRemainder(Eval(l, vars).value, Eval(r, vars).value,
                                    Eval(Binary(l, Slash, r), vars).value)
  {
    if Eval(r, vars).value != 0 {
      var a, b := Eval(l, vars).value, Eval(r, vars).value;
      TruncDivIsTruncation(a, b, TruncDiv(a, b));
    }
  }

  /** Comparisons yield exactly 0 or 1, true being 1. */
  lemma ComparisonsYieldZeroOrOne(l: Expr, op: Token, r: Expr, vars: map<string, int>)
    requires IsComparison(op) && Eval(l, vars).Ok? && Eval(r, vars).Ok?
    ensures var a, b := Eval(l, vars).value, Eval(r, vars).value;
            var holds := (op == DoubleEquals && a == b) || (op == LessThan && a < b)
                         || (op == GreaterThan && a > b);
            Eval(Binary(l, op, r), vars) == Ok(if holds then 1 else 0)
  {
    LeftOperandFirst(l, op, r, vars);
    ComparisonApplies(op, Eval(l, vars).value, Eval(r, vars).value);
  }

  lemma ComparisonApplies(op: Token, a: int, b: int)
    requires IsComparison(op)
    ensures var holds := (op == DoubleEquals && a == b) || (op == LessThan && a < b)
                         || (op == GreaterThan && a > b);
            Apply(op, a, b) == Ok(if holds then 1 else 0)
  {
  }

  /** Exactly the seven binary operators are accepted by `Apply`. */
  lemma OnlyBinaryOperatorsApply(op: Token, a: int, b: int)
    ensures Apply(op, a, b) == Err(InvalidOperator(op)) <==> !IsBinaryOperator(op)
  {
  }

  predicate RaisesInvalidOperator(r: Result<int, RuntimeError>) {
    r.Err? && r.error.InvalidOperator?
  }

  /** A well-formed tree never raises `InvalidOperator`. */
  lemma {:induction false} WellFormedHasNoInvalidOperator(e: Expr, vars: map<string, int>)
    requires WellFormed(e)
    ensures !RaisesInvalidOperator(Eval(e, vars))
  {
    match e
    case Number(_) =>
    case Ident(_) =>
    case Binary(l, op, r) =>
      WellFormedHasNoInvalidOperator(l, vars);
      WellFormedHasNoInvalidOperator(r, vars);
  }

  /** An expression reads nothing but its free variables. */
  lemma {:induction false} EvalReadsFreeVars(e: Expr, v1: map<string, int>, v2: map<string, int>)
    requires forall x :: x in FreeVars(e) ==> Lookup(v1, x) == Lookup(v2, x)
    ensures Eval(e, v1) == Eval(e, v2)
  {
    match e
    case Number(_) =>
    case Ident(x) =>
      assert Lookup(v1, x) == Lookup(v2, x);
    case Binary(l, op, r) =>
      EvalReadsFreeVars(l, v1, v2);
      EvalReadsFreeVars(r, v1, v2);
  }

  /** Evaluation succeeds only when every free variable is bound, and an
      undefined-variable error names a free variable that is unbound. */
  lemma {:induction false} UndefinedVariablesAreFree(e: Expr, vars: map<string, int>, name: string)
    ensures Eval(e, vars).Ok? ==> FreeVars(e) <= vars.Keys
    ensures Eval(e, vars) == Err(UndefinedVariable(name)) ==> name in FreeVars(e) && name !in vars
  {
    match e
    case Number(_) =>
    case Ident(_) =>
    case Binary(l, op, r) =>
      UndefinedVariablesAreFree(l, vars, name);
      UndefinedVariablesAreFree(r, vars, name);
  }

  // ---------------------------------------------------------------------------
  // Statements
  // ---------------------------------------------------------------------------

  /** A successful assignment binds its target to the value and changes no
      other binding and no output; a failing one changes nothing. */
  lemma AssignmentBindsOnlyItsTarget(name: string, e: Expr, st: State, fuel: nat)
    ensures Eval(e, st.vars).Ok? ==>
              && Exec(Assign(name, e), st, fuel).Done?
              && var st' := Exec(Assign(name, e), st, fuel).st;
                 && Lookup(st'.vars, name) == Some(Eval(e, st.vars).value)
                 && (forall x :: x != name ==> Lookup(st'.vars, x) == Lookup(st.vars, x))
                 && st'.out == st.out
    ensures Eval(e, st.vars).Err? ==> Exec(Assign(name, e), st, fuel) == Fail(Eval(e, st.vars).error, st)
  {
  }

  /** `print` appends exactly the value to the output. */
  lemma PrintAppendsValue(e: Expr, st: State, fuel: nat)
    ensures Eval(e, st.vars).Ok? ==>
              Exec(Print(e), st, fuel) == Done(State(st.vars, st.out + [Eval(e, st.vars).value]))
    ensures Eval(e, st.vars).Err? ==> Exec(Print(e), st, fuel) == Fail(Eval(e, st.vars).error, st)
  {
  }

  /** An `if` whose condition is 0 changes nothing; otherwise its body runs. */
  lemma IfRunsBodyOnNonZero(c: Expr, body: seq<Statement>, st: State, fuel: nat)
    requires Eval(c, st.vars).Ok?
    ensures Eval(c, st.vars).value == 0 ==> Exec(Statement.If(c, body), st, fuel) == Done(st)
    ensures Eval(c, st.vars).value != 0 ==> Exec(Statement.If(c, body), st, fuel) == ExecBlock(body, st, fuel)
  {
  }

  /** Running `b1 + b2` runs `b1`, then, only if it completed, `b2`. */
  lemma {:induction false} BlockConcatenation(b1: seq<Statement>, b2: seq<Statement>, st: State, fuel: nat)
    ensures ExecBlock(b1 + b2, st, fuel) ==
              match ExecBlock(b1, st, fuel)
              case Done(st') => ExecBlock(b2, st', fuel)
              case other => other
    decreases b1
  {
    if b1 == [] {
      assert b1 + b2 == b2;
    } else {
      assert (b1 + b2)[0] == b1[0];
      assert (b1 + b2)[1..] == b1[1..] + b2;
      match Exec(b1[0], st, fuel)
      case Done(st') => BlockConcatenation(b1[1..], b2, st', fuel);
      case Fail(_, _) =>
      case OutOfFuel =>
    }
  }

  /** A block stops at its first failing statement: once a prefix fails, the
      statements after it change nothing. */
  lemma BlockStopsAtFirstFailure(b: seq<Statement>, i: nat, st: State, fuel: nat)
    requires i <= |b|
    requires ExecBlock(b[..i], st, fuel).Fail?
    ensures ExecBlock(b, st, fuel) == ExecBlock(b[..i], st, fuel)
  {
    assert b == b[..i] + b[i..];
    BlockConcatenation(b[..i], b[i..], st, fuel);
  }

  /** A `while` that completes leaves its condition evaluating to 0. */
  lemma {:induction false} WhileExitsOnZero(c: Expr, body: seq<Statement>, st: State, fuel: nat)
    requires Exec(Statement.While(c, body), st, fuel).Done?
    ensures Eval(c, Exec(Statement.While(c, body), st, fuel).st.vars) == Ok(0)
    decreases fuel
  {
    var v := Eval(c, st.vars);
    if v.value != 0 {
      var st' := ExecBlock(body, st, fuel - 1).st;
      WhileExitsOnZero(c, body, st', fuel - 1);
    }
  }

  /** How an outcome relates to the state it started from: the output only
      grows, a bound variable stays bound, and variables outside `may` keep
      their values. */
  ghost predicate Frames(st: State, o: Outcome, may: set<string>) {
    o.OutOfFuel? ||
    (&& st.out <= o.st.out
     && st.vars.Keys <= o.st.vars.Keys
     && forall x :: x !in may ==> Lookup(o.st.vars, x) == Lookup(st.vars, x))
  }

  lemma {:induction false} ExecFrame(s: Statement, st: State, fuel: nat)
    ensures Frames(st, Exec(s, st, fuel), Assigned(s))
    decreases fuel, s
  {
    match s
    case Assign(_, _) =>
    case Print(_) =>
    case If(c, body) =>
      ExecBlockFrame(body, st, fuel);
    case While(c, body) =>
      var v := Eval(c, st.vars);
      if v.Ok? && v.value != 0 && fuel > 0 {
        ExecBlockFrame(body, st, fuel - 1);
        var r := ExecBlock(body, st, fuel - 1);
        if r.Done? {
          ExecFrame(s, r.st, fuel - 1);
        }
      }
  }

  lemma {:induction false} ExecBlockFrame(b: seq<Statement>, st: State, fuel: nat)
    ensures Frames(st, ExecBlock(b, st, fuel), AssignedBlock(b))
    decreases fuel, b
  {
    if b != [] {
      ExecFrame(b[0], st, fuel);
      var r := Exec(b[0], st, fuel);
      if r.Done? {
        ExecBlockFrame(b[1..], r.st, fuel);
      }
    }
  }

  /** Fuel only bounds the run: an outcome reached with some fuel is the
      outcome with any larger amount. */
  lemma {:induction false} ExecFuelMonotone(s: Statement, st: State, fuel: nat, more: nat)
    requires fuel <= more && !Exec(s, st, fuel).OutOfFuel?
    ensures Exec(s, st, more) == Exec(s, st, fuel)
    decreases fuel, s
  {
    match s
    case Assign(_, _) =>
    case Print(_) =>
    case If(c, body) =>
      var v := Eval(c, st.vars);
      if v.Ok? && v.value != 0 {
        ExecBlockFuelMonotone(body, st, fuel, more);
      }
    case While(c, body) =>
      var v := Eval(c, st.vars);
      if v.Ok? && v.value != 0 {
        ExecBlockFuelMonotone(body, st, fuel - 1, more - 1);
        var r := ExecBlock(body, st, fuel - 1);
        if r.Done? {
          ExecFuelMonotone(s, r.st, fuel - 1, more - 1);
        }
      }
  }

  lemma {:induction false} ExecBlockFuelMonotone(b: seq<Statement>, st: State, fuel: nat, more: nat)
    requires fuel <= more && !ExecBlock(b, st, fuel).OutOfFuel?
    ensures ExecBlock(b, st, more) == ExecBlock(b, st, fuel)
    decreases fuel, b
  {
    if b != [] {
      ExecFuelMonotone(b[0], st, fuel, more);
      var r := Exec(b[0], st, fuel);
      if r.Done? {
        ExecBlockFuelMonotone(b[1..], r.st, fuel, more);
      }
    }
  }

  predicate RaisedInvalidOperator(o: Outcome) {
    o.Fail? && o.error.InvalidOperator?
  }

  /** A well-formed program, such as every program the parser returns, never
      raises `InvalidOperator`. */
  lemma {:induction false} WellFormedExecHasNoInvalidOperator(s: Statement, st: State, fuel: nat)
    requires WellFormedStatement(s)
    ensures !RaisedInvalidOperator(Exec(s, st, fuel))
    decreases fuel, s
  {
    match s
    case Assign(_, e) =>
      WellFormedHasNoInvalidOperator(e, st.vars);
    case Print(e) =>
      WellFormedHasNoInvalidOperator(e, st.vars);
    case If(c, body) =>
      WellFormedHasNoInvalidOperator(c, st.vars);
      WellFormedBlockHasNoInvalidOperator(body, st, fuel);
    case While(c, body) =>
      WellFormedHasNoInvalidOperator(c, st.vars);
      var v := Eval(c, st.vars);
      if v.Ok? && v.value != 0 && fuel > 0 {
        WellFormedBlockHasNoInvalidOperator(body, st, fuel - 1);
        var r := ExecBlock(body, st, fuel - 1);
        if r.Done? {
          WellFormedExecHasNoInvalidOperator(s, r.st, fuel - 1);
        }
      }
  }

  lemma {:induction false} WellFormedBlockHasNoInvalidOperator(b: seq<Statement>, st: State, fuel: nat)
    requires WellFormedBlock(b)
    ensures !RaisedInvalidOperator(ExecBlock(b, st, fuel))
    decreases fuel, b
  {
    if b != [] {
      WellFormedExecHasNoInvalidOperator(b[0], st, fuel);
      var r := Exec(b[0], st, fuel);
      if r.Done? {
        WellFormedBlockHasNoInvalidOperator(b[1..], r.st, fuel);
      }
    }
  }
}
