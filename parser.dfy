/** The `Parser` of src/parser.rs: one token of lookahead in `current`, a
    lexer it pulls tokens from, and one method per grammar rule. Each method
    is proved to return what the matching function of `Grammar` returns on
    the tokens not yet read, and to leave unread what that function leaves. */
module Parsing {
  import opened Wrappers
  import opened Lexing
  import opened Syntax
  import opened Grammar

  /** The parse of a whole source text: its tokens, read by
      `parse_statements` up to the first `EOF`. */
  function Parse(source: string): (r: Result<seq<Statement>, SyntaxError>)
    ensures r.Ok? ==> WellFormedBlock(r.value)
  {
    match ParseStatements(TokensFrom(source, 0))
    case Accept(program, _) => Ok(program)
    case Reject(err) => Err(err)
  }

  /** A method's result and the tokens it left unread are the ones `spec`
      prescribes (after an error the parser is abandoned, so what it left
      unread does not matter). */
  ghost predicate Agrees<T>(r: Result<T, SyntaxError>, unread: seq<Token>, spec: Step<T>) {
    match spec
    case Accept(v, rest) => r == Ok(v) && unread == rest
    case Reject(err) => r == Err(err)
  }

  class Parser {
    const lexer: Lexer
    var current: Token

    ghost predicate Valid()
      reads this, lexer
    {
      lexer.Valid()
    }

    /** The tokens the parser has yet to consume, `current` first; nothing
        once `current` is `EOF`. */
    ghost function Remaining(): seq<Token>
      reads this, lexer
      requires Valid()
    {
      if current == EOF then [] else [current] + TokensFrom(lexer.input, lexer.pos)
    }

    /** `Parser::new`: reads the first token. */
    constructor (l: Lexer)
      requires l.Valid()
      modifies l
      ensures lexer == l && Valid()
      ensures Remaining() == TokensFrom(l.input, old(l.pos))
    {
      var t := l.NextToken();
      lexer := l;
      current := t;
    }

    /** `advance`: the next token replaces `current`. Every call site has
        just matched `current` against a token other than `EOF`, so the parser
        never advances past `EOF`; each call consumes exactly one token. */
    method Advance()
      requires Valid() && current != EOF
      modifies this, lexer
      ensures Valid()
      ensures Scanned(current, lexer.pos) == Scan(lexer.input, old(lexer.pos))
      ensures Remaining() == old(Remaining())[1..]
    {
      current := lexer.NextToken();
    }

    /** `parse_statements`. */
    method ParseStatements() returns (r: Result<seq<Statement>, SyntaxError>)
      requires Valid()
      modifies this, lexer
      ensures Valid()
      ensures Agrees(r, Remaining(), Grammar.ParseStatements(old(Remaining())))
    {
      var statements := [];
      while current != EOF
        invariant Valid()
        invariant Grammar.ParseStatements(old(Remaining())) == ProgramLoop(statements, Remaining())
        decreases |Remaining()|
      {
        var s :- ParseStatement();
        statements := statements + [s];
      }
      r := Ok(statements);
    }

    /** `parse_statement`. */
    method ParseStatement() returns (r: Result<Statement, SyntaxError>)
      requires Valid()
      modifies this, lexer
      ensures Valid()
      ensures Agrees(r, Remaining(), Grammar.ParseStatement(old(Remaining())))
      decreases |Remaining()|, 0
    {
      ghost var ts := Remaining();
      match current
      case Ident(name) =>
        if name == "print" {
          Advance();
          var e :- ParseExpression();
          r := Ok(Print(e));
        } else {
          Advance();
          if current != Equals {
            return Err(ExpectedEquals);
          }
          Advance();
          assert Remaining() == Tail(Tail(ts));
          var e :- ParseExpression();
          r := Ok(Assign(name, e));
        }
      case If =>
        Advance();
        var c :- ParseExpression();
        ghost var mid := Remaining();
        assert Grammar.ParseExpression(Tail(ts)) == Accept(c, mid);
        var body :- ParseBlock();
        r := Ok(Statement.If(c, body));
      case While =>
        Advance();
        var c :- ParseExpression();
        ghost var mid := Remaining();
        assert Grammar.ParseExpression(Tail(ts)) == Accept(c, mid);
        var body :- ParseBlock();
        r := Ok(Statement.While(c, body));
      case _ =>
        r := Err(InvalidStatement(current));
    }

    /** `parse_block`. */
    method ParseBlock() returns (r: Result<seq<Statement>, SyntaxError>)
      requires Valid()
      modifies this, lexer
      ensures Valid()
      ensures Agrees(r, Remaining(), Grammar.ParseBlock(old(Remaining())))
      decreases |Remaining()|, 1
    {
      var block := [];
      while current != End && current != EOF
        invariant Valid()
        invariant |Remaining()| <= |old(Remaining())|
        invariant Grammar.ParseBlock(old(Remaining())) == BlockLoop(block, Remaining())
        decreases |Remaining()|
      {
        var s :- ParseStatement();
        block := block + [s];
      }
      if current == End {
        Advance();
        r := Ok(block);
      } else {
        r := Err(ExpectedEnd);
      }
    }

    /** `parse_expression`. */
    method ParseExpression() returns (r: Result<Expr, SyntaxError>)
      requires Valid()
      modifies this, lexer
      ensures Valid()
      ensures Agrees(r, Remaining(), Grammar.ParseExpression(old(Remaining())))
      decreases |Remaining()|, 4
    {
      r := ParseComparison();
    }

    /** `parse_comparison`. */
    method ParseComparison() returns (r: Result<Expr, SyntaxError>)
      requires Valid()
      modifies this, lexer
      ensures Valid()
      ensures Agrees(r, Remaining(), Grammar.ParseComparison(old(Remaining())))
      decreases |Remaining()|, 3
    {
      var expr :- ParseTerm();
      while current == DoubleEquals || current == LessThan || current == GreaterThan
        invariant Valid()
        invariant |Remaining()| < |old(Remaining())|
        invariant Grammar.ParseComparison(old(Remaining())) == ComparisonLoop(expr, Remaining())
        decreases |Remaining()|
      {
        var op := current;
        Advance();
        var right :- ParseTerm();
        expr := Binary(expr, op, right);
      }
      r := Ok(expr);
    }

    /** `parse_term`. */
    method ParseTerm() returns (r: Result<Expr, SyntaxError>)
      requires Valid()
      modifies this, lexer
      ensures Valid()
      ensures Agrees(r, Remaining(), Grammar.ParseTerm(old(Remaining())))
      decreases |Remaining()|, 2
    {
      var expr :- ParseFactor();
      while current == Plus || current == Minus
        invariant Valid()
        invariant |Remaining()| < |old(Remaining())|
        invariant Grammar.ParseTerm(old(Remaining())) == TermLoop(expr, Remaining())
        decreases |Remaining()|
      {
        var op := current;
        Advance();
        var right :- ParseFactor();
        expr := Binary(expr, op, right);
      }
      r := Ok(expr);
    }

    /** `parse_factor`. */
    method ParseFactor() returns (r: Result<Expr, SyntaxError>)
      requires Valid()
      modifies this, lexer
      ensures Valid()
      ensures Agrees(r, Remaining(), Grammar.ParseFactor(old(Remaining())))
      decreases |Remaining()|, 1
    {
      var expr :- ParsePrimary();
      while current == Star || current == Slash
        invariant Valid()
        invariant |Remaining()| < |old(Remaining())|
        invariant Grammar.ParseFactor(old(Remaining())) == FactorLoop(expr, Remaining())
        decreases |Remaining()|
      {
        var op := current;
        Advance();
        var right :- ParsePrimary();
        expr := Binary(expr, op, right);
      }
      r := Ok(expr);
    }

    /** `parse_primary`. */
    method ParsePrimary() returns (r: Result<Expr, SyntaxError>)
      requires Valid()
      modifies this, lexer
      ensures Valid()
      ensures Agrees(r, Remaining(), Grammar.ParsePrimary(old(Remaining())))
      decreases |Remaining()|, 0
    {
      match current
      case Number(n) =>
        Advance();
        r := Ok(Expr.Number(n));
      case Ident(name) =>
        Advance();
        r := Ok(Expr.Ident(name));
      case LParen =>
        Advance();
        var e :- ParseExpression();
        if current != RParen {
          return Err(ExpectedRParen);
        }
        Advance();
        r := Ok(e);
      case _ =>
        r := Err(UnexpectedToken(current));
    }
  }

  /** `Parser::new(Lexer::new(source)).parse_statements()`. */
  method ParseSource(source: string) returns (r: Result<seq<Statement>, SyntaxError>)
    ensures r == Parse(source)
  {
    var lexer := new Lexer(source);
    var parser := new Parser(lexer);
    r := parser.ParseStatements();
  }
}
