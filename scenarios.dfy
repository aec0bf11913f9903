/** Whole programs, from source text to printed output: the behaviour the
    interpreter is documented to have on small programs, derived from the
    scanner, the parser and the evaluator together.

    Each program is given by its tokens, and its source text is `Render` of
    them: for instance `[print, 2, +, 3, *, 4]` is the text `print 2 + 3 * 4`.
    The numbers in a program are parameters, so each lemma covers a family of
    programs. */
module Scenarios {
  import opened Wrappers
  import opened Lexing
  import opened LexingFacts
  import opened Syntax
  import opened Grammar
  import opened GrammarFacts
  import opened Parsing
  import opened Evaluation
  import EvaluationFacts
  import opened Rendering

  /** The start of a run: no variable bound, nothing printed. */
  const Fresh := State(map[], [])

  /** Parse `source`, then run the program from `Fresh` with `fuel` loop
      iterations. A program that parses never stops on an invalid operator. */
  function Interpret(source: string, fuel: nat): (r: Result<Outcome, SyntaxError>)
    ensures r.Err? <==> Parse(source).Err?
    ensures r.Ok? ==> r.value == ExecBlock(Parse(source).value, Fresh, fuel)
    ensures r.Ok? ==> !EvaluationFacts.RaisedInvalidOperator(r.value)
  {
    var program :- Parse(source);
    EvaluationFacts.WellFormedBlockHasNoInvalidOperator(program, Fresh, fuel);
    Ok(ExecBlock(program, Fresh, fuel))
  }

  /** The text of `ts` runs `program`, so it has the outcome `program` has. */
  lemma Runs(ts: seq<Token>, program: seq<Statement>, fuel: nat, outcome: Outcome)
    requires PrintableBlock(program) && UnparseBlock(program) == ts && AllSpellable(ts)
    requires ExecBlock(program, Fresh, fuel) == outcome
    ensures Interpret(Render(ts), fuel) == Ok(outcome)
  {
    SourceRoundTrip(program);
  }

  /** A program of one statement is that statement's tokens, and runs as
      that statement does. */
  lemma OneStatement(s: Statement, st: State, fuel: nat)
    ensures UnparseBlock([s]) == UnparseStatement(s)
    ensures ExecBlock([s], st, fuel) == Exec(s, st, fuel)
  {
    assert [s][1..] == [];
    assert UnparseStatement(s) + [] == UnparseStatement(s);
  }

  /** The text of the statement `s` has the outcome `s` has. */
  lemma RunsOne(s: Statement, fuel: nat, outcome: Outcome)
    requires Printable(s) && AllSpellable(UnparseStatement(s))
    requires Exec(s, Fresh, fuel) == outcome
    ensures Interpret(Render(UnparseStatement(s)), fuel) == Ok(outcome)
  {
    OneStatement(s, Fresh, fuel);
    Runs(UnparseStatement(s), [s], fuel, outcome);
  }

  /** The names the programs below use. */
  lemma NamesAreNames()
    ensures IsName("print") && IsName("x")
  {
    assert "print"[0] == 'p';
    assert "print" != "if" && "print" != "while" && "print" != "end";
    assert "x" != "if" && "x" != "while" && "x" != "end";
  }

  /** A numeral the scanner reads back: a number that fits in `i64`. */
  predicate Small(n: int) {
    0 <= n <= I64_MAX
  }

  /** `print n` prints `n`. */
  lemma PrintNumeral(n: int)
    requires Small(n)
    ensures Interpret(Render([Token.Ident("print"), Token.Number(n)]), 0)
            == Ok(Done(State(map[], [n])))
  {
    var s := Print(Expr.Number(n));
    assert UnparseStatement(s) == [Token.Ident("print"), Token.Number(n)];
    assert AllSpellable(UnparseStatement(s)) by { NamesAreNames(); }
    assert Exec(s, Fresh, 0) == Done(State(map[], [n]));
    RunsOne(s, 0, Done(State(map[], [n])));
  }

  /** `print a + b * c` prints `a + (b * c)`: `*` binds tighter than `+`. */
  lemma ProductBindsTighter(a: int, b: int, c: int)
    requires Small(a) && Small(b) && Small(c)
    ensures Interpret(Render([Token.Ident("print"), Token.Number(a), Plus, Token.Number(b), Star, Token.Number(c)]), 0)
            == Ok(Done(State(map[], [a + b * c])))
  {
    var product := Binary(Expr.Number(b), Star, Expr.Number(c));
    var s := Print(Binary(Expr.Number(a), Plus, product));
    var ts := [Token.Ident("print"), Token.Number(a), Plus, Token.Number(b), Star, Token.Number(c)];
    assert UnparseStatement(s) == ts by {
      assert Unparse(product, 2) == [Token.Number(b)] + [Star] + [Token.Number(c)];
      assert Unparse(s.arg, 0) == [Token.Number(a)] + [Plus] + Unparse(product, 2);
    }
    assert AllSpellable(ts) by { NamesAreNames(); }
    assert Printable(s) by {
      assert WellFormed(Expr.Number(b)) && WellFormed(Expr.Number(c)) && WellFormed(Expr.Number(a));
      assert WellFormed(product);
    }
    assert Exec(s, Fresh, 0) == Done(State(map[], [a + b * c])) by {
      assert Eval(product, map[]) == Ok(b * c);
      assert Eval(s.arg, map[]) == Ok(a + b * c);
    }
    RunsOne(s, 0, Done(State(map[], [a + b * c])));
  }

  /** `print (a + b) * c` prints `(a + b) * c`: parentheses override
      precedence. */
  lemma ParenthesesOverride(a: int, b: int, c: int)
    requires Small(a) && Small(b) && Small(c)
    ensures Interpret(Render([Token.Ident("print"), LParen, Token.Number(a), Plus, Token.Number(b), RParen, Star, Token.Number(c)]), 0)
            == Ok(Done(State(map[], [(a + b) * c])))
  {
    var sum := Binary(Expr.Number(a), Plus, Expr.Number(b));
    var s := Print(Binary(sum, Star, Expr.Number(c)));
    var ts := [Token.Ident("print"), LParen, Token.Number(a), Plus, Token.Number(b), RParen, Star, Token.Number(c)];
    assert UnparseStatement(s) == ts by {
      assert Unparse(sum, 2) == [LParen] + ([Token.Number(a)] + [Plus] + [Token.Number(b)]) + [RParen];
      assert Unparse(s.arg, 0) == Unparse(sum, 2) + [Star] + [Token.Number(c)];
    }
    assert AllSpellable(ts) by { NamesAreNames(); }
    assert Printable(s) by {
      assert WellFormed(Expr.Number(a)) && WellFormed(Expr.Number(b)) && WellFormed(Expr.Number(c));
      assert WellFormed(sum);
    }
    assert Exec(s, Fresh, 0) == Done(State(map[], [(a + b) * c])) by {
      assert Eval(sum, map[]) == Ok(a + b);
      assert Eval(s.arg, map[]) == Ok((a + b) * c);
    }
    RunsOne(s, 0, Done(State(map[], [(a + b) * c])));
  }

  /** Comparisons chain to the left: `a < b < c` compares the 0 or 1 of
      `a < b` with `c`. */
  lemma ComparisonChaining(a: int, b: int, c: int)
    requires Small(a) && Small(b) && Small(c)
    ensures Interpret(Render([Token.Ident("print"), Token.Number(a), LessThan, Token.Number(b), LessThan, Token.Number(c)]), 0)
            == Ok(Done(State(map[], [if (if a < b then 1 else 0) < c then 1 else 0])))
  {
    var first := Binary(Expr.Number(a), LessThan, Expr.Number(b));
    var s := Print(Binary(first, LessThan, Expr.Number(c)));
    var ts := [Token.Ident("print"), Token.Number(a), LessThan, Token.Number(b), LessThan, Token.Number(c)];
    var v := if (if a < b then 1 else 0) < c then 1 else 0;
    assert UnparseStatement(s) == ts by {
      assert Unparse(first, 0) == [Token.Number(a)] + [LessThan] + [Token.Number(b)];
      assert Unparse(s.arg, 0) == Unparse(first, 0) + [LessThan] + [Token.Number(c)];
    }
    assert AllSpellable(ts) by { NamesAreNames(); }
    assert Printable(s) by {
      assert WellFormed(Expr.Number(a)) && WellFormed(Expr.Number(b)) && WellFormed(Expr.Number(c));
      assert WellFormed(first);
    }
    assert Exec(s, Fresh, 0) == Done(State(map[], [v])) by {
      assert Eval(first, map[]) == Ok(if a < b then 1 else 0);
      assert Eval(s.arg, map[]) == Ok(v);
    }
    RunsOne(s, 0, Done(State(map[], [v])));
  }

  /** `print a / 0` fails before anything is printed. */
  lemma DivisionByZeroFails(a: int)
    requires Small(a)
    ensures Interpret(Render([Token.Ident("print"), Token.Number(a), Slash, Token.Number(0)]), 0)
            == Ok(Fail(DivisionByZero, Fresh))
  {
    var s := Print(Binary(Expr.Number(a), Slash, Expr.Number(0)));
    var ts := [Token.Ident("print"), Token.Number(a), Slash, Token.Number(0)];
    assert UnparseStatement(s) == ts by {
      assert Unparse(s.arg, 0) == [Token.Number(a)] + [Slash] + [Token.Number(0)];
    }
    assert AllSpellable(ts) by { NamesAreNames(); }
    assert Exec(s, Fresh, 0) == Fail(DivisionByZero, Fresh) by {
      assert Eval(s.arg, map[]) == Err(DivisionByZero);
    }
    RunsOne(s, 0, Fail(DivisionByZero, Fresh));
  }

  /** Printing a name nothing has assigned fails. */
  lemma UnboundNameFails(x: string)
    requires IsName(x)
    ensures Interpret(Render([Token.Ident("print"), Token.Ident(x)]), 0)
            == Ok(Fail(UndefinedVariable(x), Fresh))
  {
    var s := Print(Expr.Ident(x));
    var ts := [Token.Ident("print"), Token.Ident(x)];
    assert UnparseStatement(s) == ts;
    assert AllSpellable(ts) by { NamesAreNames(); }
    assert Exec(s, Fresh, 0) == Fail(UndefinedVariable(x), Fresh);
    RunsOne(s, 0, Fail(UndefinedVariable(x), Fresh));
  }

  /** `if c print n end` prints `n` exactly when `c` is not zero. */
  lemma Conditional(c: int, n: int)
    requires Small(c) && Small(n)
    ensures Interpret(Render([Token.If, Token.Number(c), Token.Ident("print"), Token.Number(n), End]), 0)
            == Ok(Done(State(map[], if c != 0 then [n] else [])))
  {
    var body := [Print(Expr.Number(n))];
    var s := Statement.If(Expr.Number(c), body);
    var ts := [Token.If, Token.Number(c), Token.Ident("print"), Token.Number(n), End];
    var outcome := Done(State(map[], if c != 0 then [n] else []));
    OneStatement(body[0], Fresh, 0);
    assert UnparseStatement(s) == ts by {
      assert UnparseBlock(body) == [Token.Ident("print"), Token.Number(n)];
    }
    assert AllSpellable(ts) by { NamesAreNames(); }
    assert Printable(s) by { assert Printable(body[0]); }
    assert Exec(s, Fresh, 0) == outcome by {
      assert Exec(body[0], Fresh, 0) == Done(State(map[], [n]));
    }
    RunsOne(s, 0, outcome);
  }

  /** `n, n + 1, ..., k - 1`. */
  function Upto(n: int, k: int): (r: seq<int>)
    ensures |r| == if n < k then k - n else 0
    ensures forall i :: 0 <= i < |r| ==> r[i] == n + i
    decreases k - n
  {
    if n < k then [n] + Upto(n + 1, k) else []
  }

  /** The body of the counting loop: print `x`, then add one to it. */
  function CountBody(): seq<Statement> {
    [Print(Expr.Ident("x")), Assign("x", Binary(Expr.Ident("x"), Plus, Expr.Number(1)))]
  }

  /** `while x < k print x x = x + 1 end`. */
  function CountLoop(k: int): Statement {
    Statement.While(Binary(Expr.Ident("x"), LessThan, Expr.Number(k)), CountBody())
  }

  /** One pass through the body prints `x` and increments it. */
  lemma CountBodyStep(n: int, out: seq<int>, fuel: nat)
    ensures ExecBlock(CountBody(), State(map["x" := n], out), fuel)
            == Done(State(map["x" := n + 1], out + [n]))
  {
    var b := CountBody();
    var printed := State(map["x" := n], out + [n]);
    var incremented := State(map["x" := n + 1], out + [n]);
    assert Exec(b[0], State(map["x" := n], out), fuel) == Done(printed);
    assert Eval(Binary(Expr.Ident("x"), Plus, Expr.Number(1)), printed.vars) == Ok(n + 1);
    assert printed.vars["x" := n + 1] == incremented.vars;
    assert Exec(b[1], printed, fuel) == Done(incremented);
    assert ExecBlock(b[2..], incremented, fuel) == Done(incremented);
    assert ExecBlock(b[1..], printed, fuel) == Done(incremented);
  }

  /** From `x == n`, the loop prints `n` to `k - 1` and stops at `x == k`,
      given one unit of fuel per iteration. */
  lemma {:induction false} CountLoopRuns(n: int, k: int, out: seq<int>, fuel: nat)
    requires n <= k && k - n <= fuel
    ensures Exec(CountLoop(k), State(map["x" := n], out), fuel)
            == Done(State(map["x" := k], out + Upto(n, k)))
    decreases k - n
  {
    if n < k {
      var st := State(map["x" := n], out);
      var next := State(map["x" := n + 1], out + [n]);
      assert Eval(CountLoop(k).cond, st.vars) == Ok(1);
      CountBodyStep(n, out, fuel - 1);
      assert Exec(CountLoop(k), st, fuel) == Exec(CountLoop(k), next, fuel - 1);
      CountLoopRuns(n + 1, k, out + [n], fuel - 1);
      assert out + [n] + Upto(n + 1, k) == out + Upto(n, k);
    } else {
      assert Eval(Binary(Expr.Ident("x"), LessThan, Expr.Number(k)), map["x" := n]) == Ok(0);
      assert out + [] == out;
    }
  }

  /** `x = 0 while x < k print x x = x + 1 end`. */
  function CountingProgram(k: int): seq<Statement> {
    [Assign("x", Expr.Number(0)), CountLoop(k)]
  }

  /** The tokens of the loop body: `print x x = x + 1`. */
  lemma CountBodyTokens()
    ensures UnparseBlock(CountBody())
            == [Token.Ident("print"), Token.Ident("x"), Token.Ident("x"), Equals, Token.Ident("x"), Plus, Token.Number(1)]
  {
    var body := CountBody();
    var printX := [Token.Ident("print"), Token.Ident("x")];
    var increment := [Token.Ident("x"), Equals, Token.Ident("x"), Plus, Token.Number(1)];
    assert Unparse(Expr.Ident("x"), 0) == [Token.Ident("x")];
    assert UnparseStatement(body[0]) == printX;
    assert Unparse(Expr.Ident("x"), 1) == [Token.Ident("x")] && Unparse(Expr.Number(1), 2) == [Token.Number(1)];
    assert Unparse(body[1].value, 0) == [Token.Ident("x")] + [Plus] + [Token.Number(1)];
    assert UnparseStatement(body[1]) == increment;
    OneStatement(body[1], Fresh, 0);
    assert body[1..] == [body[1]];
  }

  /** The tokens of the loop: `while x < k`, the body, `end`. */
  lemma CountLoopTokens(k: int)
    ensures UnparseStatement(CountLoop(k))
            == [Token.While, Token.Ident("x"), LessThan, Token.Number(k)] + UnparseBlock(CountBody()) + [End]
  {
    var cond := Binary(Expr.Ident("x"), LessThan, Expr.Number(k));
    assert Unparse(Expr.Ident("x"), 1) == [Token.Ident("x")] && Unparse(Expr.Number(k), 1) == [Token.Number(k)];
    assert Unparse(cond, 0) == [Token.Ident("x")] + [LessThan] + [Token.Number(k)];
  }

  /** The tokens of the counting program. */
  lemma CountingProgramTokens(k: int)
    ensures UnparseBlock(CountingProgram(k))
            == [Token.Ident("x"), Equals, Token.Number(0), Token.While, Token.Ident("x"), LessThan, Token.Number(k),
                Token.Ident("print"), Token.Ident("x"), Token.Ident("x"), Equals, Token.Ident("x"), Plus, Token.Number(1), End]
  {
    var program := CountingProgram(k);
    CountBodyTokens();
    CountLoopTokens(k);
    OneStatement(program[1], Fresh, 0);
    assert program[1..] == [program[1]];
    assert UnparseStatement(program[0]) == [Token.Ident("x"), Equals, Token.Number(0)];
  }

  /** Every token of the counting program has a spelling. */
  lemma CountingProgramSpellable(k: int)
    requires Small(k)
    ensures AllSpellable(UnparseBlock(CountingProgram(k)))
  {
    CountingProgramTokens(k);
    NamesAreNames();
  }

  /** The counting program is one the unparser prints faithfully. */
  lemma CountingProgramPrintable(k: int)
    ensures PrintableBlock(CountingProgram(k))
  {
    var program := CountingProgram(k);
    assert WellFormed(Expr.Ident("x")) && WellFormed(Expr.Number(1)) && WellFormed(Expr.Number(k));
    assert PrintableBlock(program[1].body);
  }

  /** The counting program prints `0` to `k - 1` and leaves `x` at `k`, with
      `k` iterations of fuel. */
  lemma CountingProgramRuns(k: int)
    requires 0 <= k
    ensures ExecBlock(CountingProgram(k), Fresh, k) == Done(State(map["x" := k], Upto(0, k)))
  {
    var program := CountingProgram(k);
    var s0 := State(map["x" := 0], []);
    assert Fresh.vars["x" := 0] == s0.vars;
    assert Exec(program[0], Fresh, k) == Done(s0);
    CountLoopRuns(0, k, [], k);
    assert [] + Upto(0, k) == Upto(0, k);
    OneStatement(program[1], s0, k);
    assert program[1..] == [program[1]];
  }

  /** The text `x = 0 while x < k print x x = x + 1 end` (whose tokens
      `CountingProgramTokens` lists) prints `0` to `k - 1` and leaves `x` at
      `k`; `k` iterations of fuel are enough. */
  lemma CountingLoop(k: int)
    requires Small(k)
    ensures AllSpellable(UnparseBlock(CountingProgram(k)))
    ensures Interpret(Render(UnparseBlock(CountingProgram(k))), k) == Ok(Done(State(map["x" := k], Upto(0, k))))
  {
    var program := CountingProgram(k);
    CountingProgramSpellable(k);
    CountingProgramPrintable(k);
    CountingProgramRuns(k);
    Runs(UnparseBlock(program), program, k, Done(State(map["x" := k], Upto(0, k))));
  }

  /** `if c print n` stops at `EOF` inside the body of the `if`. */
  lemma UnterminatedBlockParse(c: int, n: int)
    ensures ParseStatements([Token.If, Token.Number(c), Token.Ident("print"), Token.Number(n)]) == Reject(ExpectedEnd)
  {
    var ts := [Token.If, Token.Number(c), Token.Ident("print"), Token.Number(n)];
    var body := [Print(Expr.Number(n))];
    var printN := UnparseBlock(body);
    assert printN == ts[2..] by { OneStatement(body[0], Fresh, 0); }
    assert Head(ts) == Token.If && Tail(ts) == Unparse(Expr.Number(c), 0) + printN;
    assert Head(printN) == Token.Ident("print");
    ExpressionRoundTrip(Expr.Number(c), printN);
    UnendedBlock([], body);
    assert ParseStatement(ts) == Reject(ExpectedEnd);
  }

  /** A block without `end` is a syntax error, so nothing runs. */
  lemma UnterminatedBlock(c: int, n: int)
    requires Small(c) && Small(n)
    ensures Interpret(Render([Token.If, Token.Number(c), Token.Ident("print"), Token.Number(n)]), 0) == Err(ExpectedEnd)
  {
    var ts := [Token.If, Token.Number(c), Token.Ident("print"), Token.Number(n)];
    UnterminatedBlockParse(c, n);
    assert AllSpellable(ts) by { NamesAreNames(); }
    RenderRoundTrip(ts);
  }
}
