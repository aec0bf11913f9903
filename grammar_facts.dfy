/** What the grammar of src/parser.rs promises: the precedence levels and
    left associativity of the binary operators, stated as a round trip
    through a printer that puts parentheses only where the grammar needs
    them, and the same round trip for statements and whole programs. */
module GrammarFacts {
  import opened Lexing
  import opened Syntax
  import opened Grammar

  // ---------------------------------------------------------------------------
  // Expressions
  // ---------------------------------------------------------------------------

  /** The binding strength of an operator: comparisons 0, `+ -` 1, `* /` 2. */
  function Prec(op: Token): nat {
    if IsComparison(op) then 0 else if IsAdditive(op) then 1 else 2
  }

  /** The strength of the outermost operator of `e`; a number or a name is
      as strong as a parenthesised expression. */
  function PrecOf(e: Expr): nat {
    if e.Binary? then Prec(e.op) else 3
  }

  /** The tokens of `e` where it appears under an operator of strength `p`
      (3 for the operand of nothing tighter than a primary). Parentheses go
      around a weaker operator only, and the right operand of an operator is
      printed one level tighter than its left one, since the grammar groups
      to the left. */
  function Unparse(e: Expr, p: nat): seq<Token>
    decreases e
  {
    match e
    case Number(n) => [Token.Number(n)]
    case Ident(x) => [Token.Ident(x)]
    case Binary(l, op, r) =>
      var body := Unparse(l, Prec(op)) + ([op] + Unparse(r, Prec(op) + 1));
      if Prec(op) < p then [LParen] + (body + [RParen]) else body
  }

  /** The four levels of the grammar (comparison 0, term 1, factor 2,
      primary 3) visit the same tree in turn; this is how far the tree's own
      level is from the one being parsed, counting down. */
  function Distance(e: Expr, level: nat): nat
    requires level <= 3
  {
    (PrecOf(e) + 4 - level) % 4
  }

  // The equations of token sequences the proofs below need, stated for any
  // tokens so that each is proved once, away from the parser.

  lemma Cons(t: Token, ts: seq<Token>)
    ensures Head([t] + ts) == t && Tail([t] + ts) == ts
  {
    assert ([t] + ts)[1..] == ts;
  }

  lemma Associative(a: seq<Token>, b: seq<Token>, c: seq<Token>)
    ensures (a + b) + c == a + (b + c)
  {
  }

  lemma NoneAfter(a: seq<Token>)
    ensures a + [] == a
  {
  }

  /** Two levels at which a tree gets parentheses alike give the same
      tokens. */
  lemma SameLevel(e: Expr, p: nat, q: nat)
    requires !e.Binary? || (Prec(e.op) < p <==> Prec(e.op) < q)
    ensures Unparse(e, p) == Unparse(e, q)
  {
  }

  /** The tokens of an unparenthesised `Binary`: the left operand, the
      operator, the right operand, then what follows. */
  lemma BinaryTokens(e: Expr, p: nat, rest: seq<Token>)
    requires e.Binary? && p <= Prec(e.op)
    ensures Unparse(e, p) + rest
            == Unparse(e.left, Prec(e.op)) + ([e.op] + (Unparse(e.right, Prec(e.op) + 1) + rest))
  {
    var l, o, r := Unparse(e.left, Prec(e.op)), [e.op], Unparse(e.right, Prec(e.op) + 1);
    Associative(l, o + r, rest);
    Associative(o, r, rest);
  }

  /** One pass of the loop of `parse_comparison`. */
  lemma ComparisonLoopStep(acc: Expr, ts: seq<Token>, right: Expr, rest: seq<Token>)
    requires IsComparison(Head(ts)) && ParseTerm(Tail(ts)) == Accept(right, rest)
    ensures ComparisonLoop(acc, ts) == ComparisonLoop(Binary(acc, Head(ts), right), rest)
  {
  }

  /** One pass of the loop of `parse_term`. */
  lemma TermLoopStep(acc: Expr, ts: seq<Token>, right: Expr, rest: seq<Token>)
    requires IsAdditive(Head(ts)) && ParseFactor(Tail(ts)) == Accept(right, rest)
    ensures TermLoop(acc, ts) == TermLoop(Binary(acc, Head(ts), right), rest)
  {
  }

  /** One pass of the loop of `parse_factor`. */
  lemma FactorLoopStep(acc: Expr, ts: seq<Token>, right: Expr, rest: seq<Token>)
    requires IsMultiplicative(Head(ts)) && ParsePrimary(Tail(ts)) == Accept(right, rest)
    ensures FactorLoop(acc, ts) == FactorLoop(Binary(acc, Head(ts), right), rest)
  {
  }

  /** `parse_comparison` reads `e` back, then stops in front of `rest`. */
  lemma {:induction false} ComparisonRoundTrip(e: Expr, rest: seq<Token>)
    requires WellFormed(e)
    requires !IsAdditive(Head(rest)) && !IsMultiplicative(Head(rest))
    ensures ParseComparison(Unparse(e, 0) + rest) == ComparisonLoop(e, rest)
    decreases e, Distance(e, 0)
  {
    if e.Binary? && Prec(e.op) == 0 {
      var l, op, r := e.left, e.op, e.right;
      var mid := [op] + (Unparse(r, 1) + rest);
      BinaryTokens(e, 0, rest);
      Cons(op, Unparse(r, 1) + rest);
      ComparisonRoundTrip(l, mid);
      TermRoundTrip(r, rest);
      ComparisonLoopStep(l, mid, r, rest);
    } else {
      SameLevel(e, 0, 1);
      TermRoundTrip(e, rest);
    }
  }

  /** `parse_term` reads `e` back, then stops in front of `rest`. */
  lemma {:induction false} TermRoundTrip(e: Expr, rest: seq<Token>)
    requires WellFormed(e)
    requires !IsMultiplicative(Head(rest))
    ensures ParseTerm(Unparse(e, 1) + rest) == TermLoop(e, rest)
    decreases e, Distance(e, 1)
  {
    if e.Binary? && Prec(e.op) == 1 {
      var l, op, r := e.left, e.op, e.right;
      var mid := [op] + (Unparse(r, 2) + rest);
      BinaryTokens(e, 1, rest);
      Cons(op, Unparse(r, 2) + rest);
      TermRoundTrip(l, mid);
      FactorRoundTrip(r, rest);
      TermLoopStep(l, mid, r, rest);
    } else {
      SameLevel(e, 1, 2);
      FactorRoundTrip(e, rest);
    }
  }

  /** `parse_factor` reads `e` back, then stops in front of `rest`. */
  lemma {:induction false} FactorRoundTrip(e: Expr, rest: seq<Token>)
    requires WellFormed(e)
    ensures ParseFactor(Unparse(e, 2) + rest) == FactorLoop(e, rest)
    decreases e, Distance(e, 2)
  {
    if e.Binary? && Prec(e.op) == 2 {
      var l, op, r := e.left, e.op, e.right;
      var mid := [op] + (Unparse(r, 3) + rest);
      BinaryTokens(e, 2, rest);
      Cons(op, Unparse(r, 3) + rest);
      FactorRoundTrip(l, mid);
      PrimaryRoundTrip(r, rest);
      FactorLoopStep(l, mid, r, rest);
    } else {
      SameLevel(e, 2, 3);
      PrimaryRoundTrip(e, rest);
    }
  }

  /** `parse_primary` reads `e` back, parenthesised if it is a `Binary`. */
  lemma {:induction false} PrimaryRoundTrip(e: Expr, rest: seq<Token>)
    requires WellFormed(e)
    ensures ParsePrimary(Unparse(e, 3) + rest) == Accept(e, rest)
    decreases e, Distance(e, 3)
  {
    var ts := Unparse(e, 3) + rest;
    if e.Binary? {
      var after := [RParen] + rest;
      ParenthesisedTokens(e, rest);
      Cons(RParen, rest);
      ComparisonRoundTrip(e, after);
      PrimaryParenStep(ts, e, after);
    } else {
      Cons(Unparse(e, 3)[0], rest);
    }
  }

  /** A `Binary` printed as a primary is in parentheses. */
  lemma ParenthesisedTokens(e: Expr, rest: seq<Token>)
    requires e.Binary?
    ensures var ts := Unparse(e, 3) + rest;
            Head(ts) == LParen && Tail(ts) == Unparse(e, 0) + ([RParen] + rest)
  {
    var body := Unparse(e, 0);
    assert Unparse(e, 3) == [LParen] + (body + [RParen]);
    Associative([LParen], body + [RParen], rest);
    Associative(body, [RParen], rest);
    Cons(LParen, body + ([RParen] + rest));
  }

  /** One step of `parse_primary` on `(`. */
  lemma PrimaryParenStep(ts: seq<Token>, e: Expr, after: seq<Token>)
    requires Head(ts) == LParen && ParseExpression(Tail(ts)) == Accept(e, after) && Head(after) == RParen
    ensures ParsePrimary(ts) == Accept(e, Tail(after))
  {
  }

  /** `parse_expression` is a left inverse of `Unparse`: printing a tree and
      parsing the tokens gives the tree back, and leaves whatever follows
      unread as long as it does not start with an operator. */
  lemma ExpressionRoundTrip(e: Expr, rest: seq<Token>)
    requires WellFormed(e) && !IsBinaryOperator(Head(rest))
    ensures ParseExpression(Unparse(e, 0) + rest) == Accept(e, rest)
  {
    ComparisonRoundTrip(e, rest);
  }

  /** `ExpressionRoundTrip` with nothing after the expression. */
  lemma WholeExpressionRoundTrip(e: Expr)
    requires WellFormed(e)
    ensures ParseExpression(Unparse(e, 0)) == Accept(e, [])
  {
    NoneAfter(Unparse(e, 0));
    ExpressionRoundTrip(e, []);
  }

  /** The tokens `x op1 y op2 z`, grouped to the left and to the right. */
  lemma FiveParts(x: seq<Token>, op1: Token, y: seq<Token>, op2: Token, z: seq<Token>)
    ensures x + [op1] + y + [op2] + z == (x + ([op1] + y)) + ([op2] + z)
    ensures x + [op1] + y + [op2] + z == x + ([op1] + (y + ([op2] + z)))
  {
  }

  /** Two operators of the same level group to the left: `a - b - c` is
      `(a - b) - c`. */
  lemma LeftAssociative(a: Expr, op1: Token, b: Expr, op2: Token, c: Expr)
    requires WellFormed(a) && WellFormed(b) && WellFormed(c)
    requires IsBinaryOperator(op1) && IsBinaryOperator(op2) && Prec(op1) == Prec(op2)
    ensures var p := Prec(op1);
            ParseExpression(Unparse(a, p) + [op1] + Unparse(b, p + 1) + [op2] + Unparse(c, p + 1))
            == Accept(Binary(Binary(a, op1, b), op2, c), [])
  {
    var p := Prec(op1);
    var left := Binary(a, op1, b);
    var e := Binary(left, op2, c);
    assert Unparse(e, 0) == Unparse(left, p) + ([op2] + Unparse(c, p + 1));
    assert Unparse(left, p) == Unparse(a, p) + ([op1] + Unparse(b, p + 1));
    FiveParts(Unparse(a, p), op1, Unparse(b, p + 1), op2, Unparse(c, p + 1));
    WholeExpressionRoundTrip(e);
  }

  /** A tighter operator on the right groups first: `a + b * c` is
      `a + (b * c)`, and `a == b + c` is `a == (b + c)`. */
  lemma TighterBindsFirst(a: Expr, op1: Token, b: Expr, op2: Token, c: Expr)
    requires WellFormed(a) && WellFormed(b) && WellFormed(c)
    requires IsBinaryOperator(op1) && IsBinaryOperator(op2) && Prec(op1) < Prec(op2)
    ensures ParseExpression(Unparse(a, Prec(op1)) + [op1] + Unparse(b, Prec(op2)) + [op2] + Unparse(c, Prec(op2) + 1))
            == Accept(Binary(a, op1, Binary(b, op2, c)), [])
  {
    var inner := Binary(b, op2, c);
    var e := Binary(a, op1, inner);
    assert Unparse(inner, Prec(op1) + 1) == Unparse(b, Prec(op2)) + ([op2] + Unparse(c, Prec(op2) + 1));
    assert Unparse(e, 0) == Unparse(a, Prec(op1)) + ([op1] + Unparse(inner, Prec(op1) + 1));
    FiveParts(Unparse(a, Prec(op1)), op1, Unparse(b, Prec(op2)), op2, Unparse(c, Prec(op2) + 1));
    WholeExpressionRoundTrip(e);
  }

  /** A tighter operator on the left groups first too: `a * b + c` is
      `(a * b) + c`. */
  lemma TighterBindsFirstOnTheLeft(a: Expr, op1: Token, b: Expr, op2: Token, c: Expr)
    requires WellFormed(a) && WellFormed(b) && WellFormed(c)
    requires IsBinaryOperator(op1) && IsBinaryOperator(op2) && Prec(op2) < Prec(op1)
    ensures ParseExpression(Unparse(a, Prec(op1)) + [op1] + Unparse(b, Prec(op1) + 1) + [op2] + Unparse(c, Prec(op2) + 1))
            == Accept(Binary(Binary(a, op1, b), op2, c), [])
  {
    var left := Binary(a, op1, b);
    var e := Binary(left, op2, c);
    assert Unparse(left, Prec(op2)) == Unparse(a, Prec(op1)) + ([op1] + Unparse(b, Prec(op1) + 1));
    assert Unparse(e, 0) == Unparse(left, Prec(op2)) + ([op2] + Unparse(c, Prec(op2) + 1));
    FiveParts(Unparse(a, Prec(op1)), op1, Unparse(b, Prec(op1) + 1), op2, Unparse(c, Prec(op2) + 1));
    WholeExpressionRoundTrip(e);
  }

  // ---------------------------------------------------------------------------
  // Statements and programs
  // ---------------------------------------------------------------------------

  /** A statement the parser can produce: its expressions are well formed and
      it assigns no variable called `print`, a name `parse_statement` always
      reads as the start of a `print` statement. */
  predicate Printable(s: Statement) {
    match s
    case Assign(x, e) => x != "print" && WellFormed(e)
    case Print(e) => WellFormed(e)
    case If(c, body) => WellFormed(c) && PrintableBlock(body)
    case While(c, body) => WellFormed(c) && PrintableBlock(body)
  }

  predicate PrintableBlock(b: seq<Statement>) {
    forall i :: 0 <= i < |b| ==> Printable(b[i])
  }

  /** The tokens of a statement. */
  function UnparseStatement(s: Statement): seq<Token>
    decreases s
  {
    match s
    case Assign(x, e) => [Token.Ident(x)] + ([Equals] + Unparse(e, 0))
    case Print(e) => [Token.Ident("print")] + Unparse(e, 0)
    case If(c, body) => [Token.If] + (Unparse(c, 0) + (UnparseBlock(body) + [End]))
    case While(c, body) => [Token.While] + (Unparse(c, 0) + (UnparseBlock(body) + [End]))
  }

  /** The tokens of a sequence of statements, one after the other. */
  function UnparseBlock(b: seq<Statement>): seq<Token>
    decreases b
  {
    if b == [] then [] else UnparseStatement(b[0]) + UnparseBlock(b[1..])
  }

  /** The tokens a statement can start with. */
  predicate StatementStart(t: Token) {
    t.Ident? || t == Token.If || t == Token.While
  }

  /** What can follow a statement: the start of another one, `end` or the
      end of input. None of them is an operator. */
  predicate StatementBoundary(t: Token) {
    StatementStart(t) || t == End || t == EOF
  }

  /** Nothing that can follow a statement continues an expression. */
  lemma BoundaryIsNoOperator(t: Token)
    requires StatementBoundary(t)
    ensures !IsBinaryOperator(t)
  {
  }

  /** The first token of `[t] + u`, followed by more tokens. */
  lemma Lead(t: Token, u: seq<Token>, rest: seq<Token>)
    ensures Head(([t] + u) + rest) == t && Tail(([t] + u) + rest) == u + rest
  {
    Associative([t], u, rest);
    Cons(t, u + rest);
  }

  lemma StatementStartsWithBoundary(s: Statement)
    ensures UnparseStatement(s) != [] && StatementStart(UnparseStatement(s)[0])
  {
  }

  lemma {:induction false} BlockBoundary(b: seq<Statement>, rest: seq<Token>)
    requires StatementBoundary(Head(rest))
    ensures StatementBoundary(Head(UnparseBlock(b) + rest))
  {
    if b != [] {
      StatementStartsWithBoundary(b[0]);
      BlockTokens(b, rest);
    }
  }

  /** `parse_statement` reads a printed statement back. */
  lemma {:induction false} StatementRoundTrip(s: Statement, rest: seq<Token>)
    requires Printable(s) && StatementBoundary(Head(rest))
    ensures ParseStatement(UnparseStatement(s) + rest) == Accept(s, rest)
    decreases s, 1
  {
    var ts := UnparseStatement(s) + rest;
    match s
    case Assign(x, e) =>
      AssignmentRoundTrip(x, e, rest);
    case Print(e) =>
      PrintRoundTrip(e, rest);
    case If(c, body) =>
      CompoundTokens(s, rest);
      HeaderAndBodyRoundTrip(s, c, body, rest);
      IfStep(ts, c, UnparseBlock(body) + ([End] + rest), body, rest);
    case While(c, body) =>
      CompoundTokens(s, rest);
      HeaderAndBodyRoundTrip(s, c, body, rest);
      WhileStep(ts, c, UnparseBlock(body) + ([End] + rest), body, rest);
  }

  /** The tokens of an `if` or a `while`: the keyword, then the rest. */
  lemma CompoundTokens(s: Statement, rest: seq<Token>)
    requires s.If? || s.While?
    ensures var ts := UnparseStatement(s) + rest;
            Head(ts) == (if s.If? then Token.If else Token.While)
            && Tail(ts) == HeaderAndBody(s.cond, s.body, rest)
  {
    var c, b := Unparse(s.cond, 0), UnparseBlock(s.body);
    Lead(if s.If? then Token.If else Token.While, c + (b + [End]), rest);
    Associative(c, b + [End], rest);
    Associative(b, [End], rest);
  }

  /** One step of `parse_statement` on `if`. */
  lemma IfStep(ts: seq<Token>, c: Expr, mid: seq<Token>, body: seq<Statement>, rest: seq<Token>)
    requires Head(ts) == Token.If
    requires ParseExpression(Tail(ts)) == Accept(c, mid) && ParseBlock(mid) == Accept(body, rest)
    ensures ParseStatement(ts) == Accept(Statement.If(c, body), rest)
  {
  }

  /** One step of `parse_statement` on `while`. */
  lemma WhileStep(ts: seq<Token>, c: Expr, mid: seq<Token>, body: seq<Statement>, rest: seq<Token>)
    requires Head(ts) == Token.While
    requires ParseExpression(Tail(ts)) == Accept(c, mid) && ParseBlock(mid) == Accept(body, rest)
    ensures ParseStatement(ts) == Accept(Statement.While(c, body), rest)
  {
  }

  /** `parse_statement` reads a printed assignment back. */
  lemma AssignmentRoundTrip(x: string, e: Expr, rest: seq<Token>)
    requires x != "print" && WellFormed(e) && StatementBoundary(Head(rest))
    ensures ParseStatement(UnparseStatement(Assign(x, e)) + rest) == Accept(Assign(x, e), rest)
  {
    var ts := UnparseStatement(Assign(x, e)) + rest;
    Lead(Token.Ident(x), [Equals] + Unparse(e, 0), rest);
    Lead(Equals, Unparse(e, 0), rest);
    BoundaryIsNoOperator(Head(rest));
    ExpressionRoundTrip(e, rest);
    AssignmentStep(ts, x, e, rest);
  }

  /** One step of `parse_statement` on a name other than `print`. */
  lemma AssignmentStep(ts: seq<Token>, x: string, e: Expr, rest: seq<Token>)
    requires Head(ts) == Token.Ident(x) && x != "print" && Head(Tail(ts)) == Equals
    requires ParseExpression(Tail(Tail(ts))) == Accept(e, rest)
    ensures ParseStatement(ts) == Accept(Assign(x, e), rest)
  {
  }

  /** `parse_statement` reads a printed `print` statement back. */
  lemma PrintRoundTrip(e: Expr, rest: seq<Token>)
    requires WellFormed(e) && StatementBoundary(Head(rest))
    ensures ParseStatement(UnparseStatement(Print(e)) + rest) == Accept(Print(e), rest)
  {
    var ts := UnparseStatement(Print(e)) + rest;
    Lead(Token.Ident("print"), Unparse(e, 0), rest);
    BoundaryIsNoOperator(Head(rest));
    ExpressionRoundTrip(e, rest);
    PrintStep(ts, e, rest);
  }

  /** One step of `parse_statement` on `print`. */
  lemma PrintStep(ts: seq<Token>, e: Expr, rest: seq<Token>)
    requires Head(ts) == Token.Ident("print") && ParseExpression(Tail(ts)) == Accept(e, rest)
    ensures ParseStatement(ts) == Accept(Print(e), rest)
  {
  }

  /** The tokens after `if` or `while`: the condition, the body, `end`. */
  function HeaderAndBody(c: Expr, body: seq<Statement>, rest: seq<Token>): seq<Token> {
    Unparse(c, 0) + (UnparseBlock(body) + ([End] + rest))
  }

  /** The condition of an `if` or a `while` and its body are read back. */
  lemma {:induction false} HeaderAndBodyRoundTrip(s: Statement, c: Expr, body: seq<Statement>, rest: seq<Token>)
    requires (s.If? || s.While?) && s.cond == c && s.body == body
    requires WellFormed(c) && PrintableBlock(body)
    ensures var after := UnparseBlock(body) + ([End] + rest);
            ParseExpression(HeaderAndBody(c, body, rest)) == Accept(c, after)
            && ParseBlock(after) == Accept(body, rest)
    decreases s, 0
  {
    Cons(End, rest);
    BlockBoundary(body, [End] + rest);
    BoundaryIsNoOperator(Head(UnparseBlock(body) + ([End] + rest)));
    ExpressionRoundTrip(c, UnparseBlock(body) + ([End] + rest));
    BlockRoundTrip([], body, rest);
    assert [] + body == body;
  }

  /** The loop of `parse_block` reads the printed body and its `end` back. */
  lemma {:induction false} BlockRoundTrip(acc: seq<Statement>, b: seq<Statement>, rest: seq<Token>)
    requires PrintableBlock(b)
    ensures BlockLoop(acc, UnparseBlock(b) + ([End] + rest)) == Accept(acc + b, rest)
    decreases b, 2
  {
    if b == [] {
      EmptyBlockRoundTrip(acc, rest);
    } else {
      var ts := UnparseBlock(b) + ([End] + rest);
      var after := UnparseBlock(b[1..]) + ([End] + rest);
      Cons(End, rest);
      FirstStatementRoundTrip(b, [End] + rest);
      BlockStart(b, [End] + rest);
      BlockLoopStep(acc, ts, b[0], after);
      BlockRoundTrip(acc + [b[0]], b[1..], rest);
      Peel(acc, b);
    }
  }

  /** An empty body is just its `end`. */
  lemma EmptyBlockRoundTrip(acc: seq<Statement>, rest: seq<Token>)
    ensures BlockLoop(acc, UnparseBlock([]) + ([End] + rest)) == Accept(acc + [], rest)
  {
    assert UnparseBlock([]) + ([End] + rest) == [End] + rest;
    Cons(End, rest);
    assert acc + [] == acc;
  }

  /** Moving the first statement of `b` onto the end of `acc`. */
  lemma Peel(acc: seq<Statement>, b: seq<Statement>)
    requires b != []
    ensures acc + [b[0]] + b[1..] == acc + b
  {
  }

  /** The first statement of a printed block is read back, and what is left
      is the rest of the block. */
  lemma {:induction false} FirstStatementRoundTrip(b: seq<Statement>, tail: seq<Token>)
    requires b != [] && PrintableBlock(b) && StatementBoundary(Head(tail))
    ensures ParseStatement(UnparseBlock(b) + tail) == Accept(b[0], UnparseBlock(b[1..]) + tail)
    decreases b, 1
  {
    BlockTokens(b, tail);
    BlockBoundary(b[1..], tail);
    StatementRoundTrip(b[0], UnparseBlock(b[1..]) + tail);
  }

  /** A non-empty printed block: its first statement, then the others. */
  lemma BlockTokens(b: seq<Statement>, tail: seq<Token>)
    requires b != []
    ensures UnparseBlock(b) + tail == UnparseStatement(b[0]) + (UnparseBlock(b[1..]) + tail)
  {
    assert UnparseBlock(b) == UnparseStatement(b[0]) + UnparseBlock(b[1..]);
    Associative(UnparseStatement(b[0]), UnparseBlock(b[1..]), tail);
  }

  /** A non-empty printed block starts a statement. */
  lemma BlockStart(b: seq<Statement>, tail: seq<Token>)
    requires b != []
    ensures StatementStart(Head(UnparseBlock(b) + tail))
  {
    var first, others := UnparseStatement(b[0]), UnparseBlock(b[1..]);
    BlockTokens(b, tail);
    StatementStartsWithBoundary(b[0]);
    assert Head(first + (others + tail)) == first[0];
  }

  /** One pass of the loop of `parse_block`. */
  lemma BlockLoopStep(acc: seq<Statement>, ts: seq<Token>, s: Statement, rest: seq<Token>)
    requires Head(ts) != End && Head(ts) != EOF && ParseStatement(ts) == Accept(s, rest)
    ensures BlockLoop(acc, ts) == BlockLoop(acc + [s], rest)
  {
  }

  /** One pass of the loop of `parse_statements`. */
  lemma ProgramLoopStep(acc: seq<Statement>, ts: seq<Token>, s: Statement, rest: seq<Token>)
    requires Head(ts) != EOF && ParseStatement(ts) == Accept(s, rest)
    ensures ProgramLoop(acc, ts) == ProgramLoop(acc + [s], rest)
  {
  }

  /** The loop of `parse_statements` reads a printed program back. */
  lemma {:induction false} ProgramLoopRoundTrip(acc: seq<Statement>, b: seq<Statement>)
    requires PrintableBlock(b)
    ensures ProgramLoop(acc, UnparseBlock(b)) == Accept(acc + b, [])
    decreases b
  {
    if b == [] {
      assert acc + b == acc;
    } else {
      var ts, after := UnparseBlock(b), UnparseBlock(b[1..]);
      NoneAfter(ts);
      NoneAfter(after);
      FirstStatementRoundTrip(b, []);
      BlockStart(b, []);
      ProgramLoopStep(acc, ts, b[0], after);
      ProgramLoopRoundTrip(acc + [b[0]], b[1..]);
      Peel(acc, b);
    }
  }

  /** `parse_statements` is a left inverse of `UnparseBlock` on the programs
      it can produce. */
  lemma ProgramRoundTrip(program: seq<Statement>)
    requires PrintableBlock(program)
    ensures ParseStatements(UnparseBlock(program)) == Accept(program, [])
  {
    ProgramLoopRoundTrip([], program);
    assert [] + program == program;
  }

  /** Every program the parser accepts is printable, so `ProgramRoundTrip`
      covers all of them. */
  lemma {:induction false} ParsedStatementIsPrintable(ts: seq<Token>)
    ensures ParseStatement(ts).Accept? ==> Printable(ParseStatement(ts).value)
    decreases |ts|, 0
  {
    match Head(ts)
    case If =>
      if ParseExpression(Tail(ts)).Accept? {
        ParsedBlockIsPrintable([], ParseExpression(Tail(ts)).rest);
      }
    case While =>
      if ParseExpression(Tail(ts)).Accept? {
        ParsedBlockIsPrintable([], ParseExpression(Tail(ts)).rest);
      }
    case _ =>
  }

  lemma {:induction false} ParsedBlockIsPrintable(acc: seq<Statement>, ts: seq<Token>)
    requires PrintableBlock(acc)
    ensures BlockLoop(acc, ts).Accept? ==> PrintableBlock(BlockLoop(acc, ts).value)
    decreases |ts|, 1
  {
    if Head(ts) != End && Head(ts) != EOF {
      var r := ParseStatement(ts);
      if r.Accept? {
        ParsedStatementIsPrintable(ts);
        assert PrintableBlock(acc + [r.value]);
        ParsedBlockIsPrintable(acc + [r.value], r.rest);
      }
    }
  }

  lemma {:induction false} ParsedProgramIsPrintable(acc: seq<Statement>, ts: seq<Token>)
    requires PrintableBlock(acc)
    ensures ProgramLoop(acc, ts).Accept? ==> PrintableBlock(ProgramLoop(acc, ts).value)
    decreases |ts|
  {
    if Head(ts) != EOF {
      var r := ParseStatement(ts);
      if r.Accept? {
        ParsedStatementIsPrintable(ts);
        assert PrintableBlock(acc + [r.value]);
        ParsedProgramIsPrintable(acc + [r.value], r.rest);
      }
    }
  }

  // ---------------------------------------------------------------------------
  // Errors
  // ---------------------------------------------------------------------------

  /** A printed block whose `end` is missing runs into `EOF`, which
      `parse_block` reports as a missing `end`. */
  lemma {:induction false} UnendedBlock(acc: seq<Statement>, b: seq<Statement>)
    requires PrintableBlock(b)
    ensures BlockLoop(acc, UnparseBlock(b)) == Reject(ExpectedEnd)
    decreases b
  {
    if b != [] {
      NoneAfter(UnparseBlock(b));
      NoneAfter(UnparseBlock(b[1..]));
      FirstStatementRoundTrip(b, []);
      BlockStart(b, []);
      BlockLoopStep(acc, UnparseBlock(b), b[0], UnparseBlock(b[1..]));
      UnendedBlock(acc + [b[0]], b[1..]);
    }
  }

  /** A statement that starts with a name other than `print` needs `=` next. */
  lemma AssignmentNeedsEquals(name: string, ts: seq<Token>)
    requires name != "print" && Head(ts) != Equals
    ensures ParseStatement([Token.Ident(name)] + ts) == Reject(ExpectedEquals)
  {
  }

  /** With no tokens left (the cursor at `EOF`), `parse_statements`
      returns the empty program and every other rule fails. */
  lemma NothingAfterEof()
    ensures ParseStatements([]) == Accept([], [])
    ensures ParseStatement([]) == Reject(InvalidStatement(EOF))
    ensures ParseBlock([]) == Reject(ExpectedEnd)
    ensures ParseExpression([]) == Reject(UnexpectedToken(EOF))
  {
  }
}
