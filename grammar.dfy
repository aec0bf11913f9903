/** The recursive-descent parser of src/parser.rs, as functions on the
    sequence of tokens still to be read. Each function mirrors one method of
    `Parser` (the `while` loops of the methods become the `...Loop` functions,
    with the tree built so far as an accumulator), and returns what it built
    together with the tokens it left unread.

    An empty sequence reads as `EOF`: the parser never reads past the first
    `EOF`, so what the lexer would produce after it is never seen. */
module Grammar {
  import opened Lexing
  import opened Syntax

  /** The syntax errors of the parser (the source reports them as strings). */
  datatype SyntaxError =
    | ExpectedEquals
    | InvalidStatement(found: Token)
    | ExpectedEnd
    | ExpectedRParen
    | UnexpectedToken(found: Token)

  /** What a parsing function returns: the tree and the unread tokens, or the
      error that stopped it. */
  datatype Step<T> = Accept(value: T, rest: seq<Token>) | Reject(error: SyntaxError)

  /** The token in `current_token`. */
  function Head(ts: seq<Token>): Token {
    if ts == [] then EOF else ts[0]
  }

  /** The tokens left after `advance`. */
  function Tail(ts: seq<Token>): (r: seq<Token>)
    ensures |r| == if ts == [] then 0 else |ts| - 1
  {
    if ts == [] then [] else ts[1..]
  }

  // Each parsing function promises that what it leaves is shorter than what
  // it was given, which is what termination needs; module `Leftovers` proves
  // that it leaves only tokens it was given.

  // ---------------------------------------------------------------------------
  // Expressions
  // ---------------------------------------------------------------------------

  /** `parse_expression`. */
  function ParseExpression(ts: seq<Token>): (r: Step<Expr>)
    ensures r.Accept? ==> |r.rest| < |ts| && WellFormed(r.value)
    decreases |ts|, 4
  {
    ParseComparison(ts)
  }

  /** `parse_comparison`: a term, then any number of `== < >` and a term. */
  function ParseComparison(ts: seq<Token>): (r: Step<Expr>)
    ensures r.Accept? ==> |r.rest| < |ts| && WellFormed(r.value)
    decreases |ts|, 3
  {
    match ParseTerm(ts)
    case Accept(e, rest) => ComparisonLoop(e, rest)
    case Reject(err) => Reject(err)
  }

  /** The loop of `parse_comparison`, with the tree built so far in `acc`. */
  function ComparisonLoop(acc: Expr, ts: seq<Token>): (r: Step<Expr>)
    ensures r.Accept? ==> |r.rest| <= |ts| && (WellFormed(acc) ==> WellFormed(r.value))
    decreases |ts|, 0
  {
    if IsComparison(Head(ts)) then
      match ParseTerm(Tail(ts))
      case Accept(right, rest) => ComparisonLoop(Binary(acc, Head(ts), right), rest)
      case Reject(err) => Reject(err)
    else Accept(acc, ts)
  }

  /** `parse_term`: a factor, then any number of `+ -` and a factor. */
  function ParseTerm(ts: seq<Token>): (r: Step<Expr>)
    ensures r.Accept? ==> |r.rest| < |ts| && WellFormed(r.value)
    decreases |ts|, 2
  {
    match ParseFactor(ts)
    case Accept(e, rest) => TermLoop(e, rest)
    case Reject(err) => Reject(err)
  }

  /** The loop of `parse_term`. */
  function TermLoop(acc: Expr, ts: seq<Token>): (r: Step<Expr>)
    ensures r.Accept? ==> |r.rest| <= |ts| && (WellFormed(acc) ==> WellFormed(r.value))
    decreases |ts|, 0
  {
    if IsAdditive(Head(ts)) then
      match ParseFactor(Tail(ts))
      case Accept(right, rest) => TermLoop(Binary(acc, Head(ts), right), rest)
      case Reject(err) => Reject(err)
    else Accept(acc, ts)
  }

  /** `parse_factor`: a primary, then any number of `* /` and a primary. */
  function ParseFactor(ts: seq<Token>): (r: Step<Expr>)
    ensures r.Accept? ==> |r.rest| < |ts| && WellFormed(r.value)
    decreases |ts|, 1
  {
    match ParsePrimary(ts)
    case Accept(e, rest) => FactorLoop(e, rest)
    case Reject(err) => Reject(err)
  }

  /** The loop of `parse_factor`. */
  function FactorLoop(acc: Expr, ts: seq<Token>): (r: Step<Expr>)
    ensures r.Accept? ==> |r.rest| <= |ts| && (WellFormed(acc) ==> WellFormed(r.value))
    decreases |ts|, 0
  {
    if IsMultiplicative(Head(ts)) then
      match ParsePrimary(Tail(ts))
      case Accept(right, rest) => FactorLoop(Binary(acc, Head(ts), right), rest)
      case Reject(err) => Reject(err)
    else Accept(acc, ts)
  }

  /** `parse_primary`: a number, a name, or a parenthesised expression. */
  function ParsePrimary(ts: seq<Token>): (r: Step<Expr>)
    ensures r.Accept? ==> |r.rest| < |ts| && WellFormed(r.value)
    decreases |ts|, 0
  {
    match Head(ts)
    case Number(n) => Accept(Expr.Number(n), Tail(ts))
    case Ident(x) => Accept(Expr.Ident(x), Tail(ts))
    case LParen =>
      (match ParseExpression(Tail(ts))
       case Accept(e, rest) =>
         if Head(rest) != RParen then Reject(ExpectedRParen) else Accept(e, Tail(rest))
       case Reject(err) => Reject(err))
    case _ => Reject(UnexpectedToken(Head(ts)))
  }

  // ---------------------------------------------------------------------------
  // Statements
  // ---------------------------------------------------------------------------

  /** `parse_statement`. `print` is not a keyword: it is the name `print` at
      the start of a statement. Any other name must be followed by `=`. */
  function ParseStatement(ts: seq<Token>): (r: Step<Statement>)
    ensures r.Accept? ==> |r.rest| < |ts| && WellFormedStatement(r.value)
    decreases |ts|, 0
  {
    match Head(ts)
    case Ident(name) =>
      if name == "print" then
        (match ParseExpression(Tail(ts))
         case Accept(e, rest) => Accept(Print(e), rest)
         case Reject(err) => Reject(err))
      else if Head(Tail(ts)) != Equals then Reject(ExpectedEquals)
      else
        (match ParseExpression(Tail(Tail(ts)))
         case Accept(e, rest) => Accept(Assign(name, e), rest)
         case Reject(err) => Reject(err))
    case If =>
      (match ParseExpression(Tail(ts))
       case Accept(c, rest) =>
         (match ParseBlock(rest)
          case Accept(body, rest') => Accept(Statement.If(c, body), rest')
          case Reject(err) => Reject(err))
       case Reject(err) => Reject(err))
    case While =>
      (match ParseExpression(Tail(ts))
       case Accept(c, rest) =>
         (match ParseBlock(rest)
          case Accept(body, rest') => Accept(Statement.While(c, body), rest')
          case Reject(err) => Reject(err))
       case Reject(err) => Reject(err))
    case _ => Reject(InvalidStatement(Head(ts)))
  }

  /** `parse_block`: statements up to the matching `end`, which is consumed
      and is the last token read. */
  function ParseBlock(ts: seq<Token>): (r: Step<seq<Statement>>)
    ensures r.Accept? ==> |r.rest| < |ts| && WellFormedBlock(r.value)
    decreases |ts|, 2
  {
    BlockLoop([], ts)
  }

  /** The loop of `parse_block`: it stops at `end` or at `EOF`, and `EOF` is
      an error. */
  function BlockLoop(acc: seq<Statement>, ts: seq<Token>): (r: Step<seq<Statement>>)
    ensures r.Accept? ==> |r.rest| < |ts| && (WellFormedBlock(acc) ==> WellFormedBlock(r.value))
    decreases |ts|, 1
  {
    if Head(ts) != End && Head(ts) != EOF then
      match ParseStatement(ts)
      case Accept(s, rest) => BlockLoop(acc + [s], rest)
      case Reject(err) => Reject(err)
    else if Head(ts) == End then Accept(acc, Tail(ts))
    else Reject(ExpectedEnd)
  }

  /** `parse_statements`: statements up to `EOF`. */
  function ParseStatements(ts: seq<Token>): (r: Step<seq<Statement>>)
    ensures r.Accept? ==> |r.rest| <= |ts| && Head(r.rest) == EOF && WellFormedBlock(r.value)
  {
    ProgramLoop([], ts)
  }

  /** The loop of `parse_statements`. */
  function ProgramLoop(acc: seq<Statement>, ts: seq<Token>): (r: Step<seq<Statement>>)
    ensures r.Accept? ==> |r.rest| <= |ts| && Head(r.rest) == EOF
    ensures r.Accept? && WellFormedBlock(acc) ==> WellFormedBlock(r.value)
    decreases |ts|
  {
    if Head(ts) != EOF then
      match ParseStatement(ts)
      case Accept(s, rest) =>
        AppendWellFormed(acc, s);
        ProgramLoop(acc + [s], rest)
      case Reject(err) => Reject(err)
    else Accept(acc, ts)
  }

  lemma AppendWellFormed(b: seq<Statement>, s: Statement)
    ensures WellFormedBlock(b) && WellFormedStatement(s) ==> WellFormedBlock(b + [s])
  {
  }

}
