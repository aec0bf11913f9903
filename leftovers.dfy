/** The parser reads tokens and never makes any up: every token it leaves
    unread was among the tokens it was given. The parsing functions of
    `Grammar` promise only that what they leave is shorter than what they
    were given (which is what termination needs); the lemmas here follow the
    mutual recursion of those functions, level by level. */
module Leftovers {
  import opened Lexing
  import opened Syntax
  import opened Grammar

  lemma TailKeepsOut(k: Token, ts: seq<Token>)
    requires k !in ts
    ensures k !in Tail(ts)
  {
    if ts != [] {
      assert forall i :: 0 <= i < |ts[1..]| ==> ts[1..][i] == ts[i + 1];
    }
  }

  // ---------------------------------------------------------------------------
  // Expressions
  // ---------------------------------------------------------------------------

  lemma {:induction false} ExpressionKeepsOut(k: Token, ts: seq<Token>)
    requires k !in ts
    ensures ParseExpression(ts).Accept? ==> k !in ParseExpression(ts).rest
    decreases |ts|, 4
  {
    ComparisonKeepsOut(k, ts);
  }

  lemma {:induction false} ComparisonKeepsOut(k: Token, ts: seq<Token>)
    requires k !in ts
    ensures ParseComparison(ts).Accept? ==> k !in ParseComparison(ts).rest
    decreases |ts|, 3
  {
    TermKeepsOut(k, ts);
    if ParseTerm(ts).Accept? {
      ComparisonLoopKeepsOut(k, ParseTerm(ts).value, ParseTerm(ts).rest);
    }
  }

  lemma {:induction false} ComparisonLoopKeepsOut(k: Token, acc: Expr, ts: seq<Token>)
    requires k !in ts
    ensures ComparisonLoop(acc, ts).Accept? ==> k !in ComparisonLoop(acc, ts).rest
    decreases |ts|, 0
  {
    if IsComparison(Head(ts)) {
      TailKeepsOut(k, ts);
      TermKeepsOut(k, Tail(ts));
      var r := ParseTerm(Tail(ts));
      if r.Accept? {
        ComparisonLoopKeepsOut(k, Binary(acc, Head(ts), r.value), r.rest);
      }
    }
  }

  lemma {:induction false} TermKeepsOut(k: Token, ts: seq<Token>)
    requires k !in ts
    ensures ParseTerm(ts).Accept? ==> k !in ParseTerm(ts).rest
    decreases |ts|, 2
  {
    FactorKeepsOut(k, ts);
    if ParseFactor(ts).Accept? {
      TermLoopKeepsOut(k, ParseFactor(ts).value, ParseFactor(ts).rest);
    }
  }

  lemma {:induction false} TermLoopKeepsOut(k: Token, acc: Expr, ts: seq<Token>)
    requires k !in ts
    ensures TermLoop(acc, ts).Accept? ==> k !in TermLoop(acc, ts).rest
    decreases |ts|, 0
  {
    if IsAdditive(Head(ts)) {
      TailKeepsOut(k, ts);
      FactorKeepsOut(k, Tail(ts));
      var r := ParseFactor(Tail(ts));
      if r.Accept? {
        TermLoopKeepsOut(k, Binary(acc, Head(ts), r.value), r.rest);
      }
    }
  }

  lemma {:induction false} FactorKeepsOut(k: Token, ts: seq<Token>)
    requires k !in ts
    ensures ParseFactor(ts).Accept? ==> k !in ParseFactor(ts).rest
    decreases |ts|, 1
  {
    PrimaryKeepsOut(k, ts);
    if ParsePrimary(ts).Accept? {
      FactorLoopKeepsOut(k, ParsePrimary(ts).value, ParsePrimary(ts).rest);
    }
  }

  lemma {:induction false} FactorLoopKeepsOut(k: Token, acc: Expr, ts: seq<Token>)
    requires k !in ts
    ensures FactorLoop(acc, ts).Accept? ==> k !in FactorLoop(acc, ts).rest
    decreases |ts|, 0
  {
    if IsMultiplicative(Head(ts)) {
      TailKeepsOut(k, ts);
      PrimaryKeepsOut(k, Tail(ts));
      var r := ParsePrimary(Tail(ts));
      if r.Accept? {
        FactorLoopKeepsOut(k, Binary(acc, Head(ts), r.value), r.rest);
      }
    }
  }

  lemma {:induction false} PrimaryKeepsOut(k: Token, ts: seq<Token>)
    requires k !in ts
    ensures ParsePrimary(ts).Accept? ==> k !in ParsePrimary(ts).rest
    decreases |ts|, 0
  {
    TailKeepsOut(k, ts);
    if Head(ts) == LParen {
      ExpressionKeepsOut(k, Tail(ts));
      var r := ParseExpression(Tail(ts));
      if r.Accept? {
        TailKeepsOut(k, r.rest);
      }
    }
  }

  // ---------------------------------------------------------------------------
  // Statements
  // ---------------------------------------------------------------------------

  lemma {:induction false} StatementKeepsOut(k: Token, ts: seq<Token>)
    requires k !in ts
    ensures ParseStatement(ts).Accept? ==> k !in ParseStatement(ts).rest
    decreases |ts|, 0
  {
    TailKeepsOut(k, ts);
    match Head(ts)
    case Ident(name) =>
      if name == "print" {
        ExpressionKeepsOut(k, Tail(ts));
      } else {
        TailKeepsOut(k, Tail(ts));
        ExpressionKeepsOut(k, Tail(Tail(ts)));
      }
    case If => HeaderAndBlockKeepOut(k, ts);
    case While => HeaderAndBlockKeepOut(k, ts);
    case _ =>
  }

  /** The shared shape of `if` and `while`: a keyword, an expression, a block. */
  lemma {:induction false} HeaderAndBlockKeepOut(k: Token, ts: seq<Token>)
    requires k !in ts && ts != []
    ensures var c := ParseExpression(Tail(ts));
            c.Accept? && ParseBlock(c.rest).Accept? ==> k !in ParseBlock(c.rest).rest
    decreases |ts|, 0, 0
  {
    TailKeepsOut(k, ts);
    ExpressionKeepsOut(k, Tail(ts));
    var c := ParseExpression(Tail(ts));
    if c.Accept? {
      BlockKeepsOut(k, c.rest);
    }
  }

  lemma {:induction false} BlockKeepsOut(k: Token, ts: seq<Token>)
    requires k !in ts
    ensures ParseBlock(ts).Accept? ==> k !in ParseBlock(ts).rest
    decreases |ts|, 2
  {
    BlockLoopKeepsOut(k, [], ts);
  }

  lemma {:induction false} BlockLoopKeepsOut(k: Token, acc: seq<Statement>, ts: seq<Token>)
    requires k !in ts
    ensures BlockLoop(acc, ts).Accept? ==> k !in BlockLoop(acc, ts).rest
    decreases |ts|, 1
  {
    TailKeepsOut(k, ts);
    if Head(ts) != End && Head(ts) != EOF {
      StatementKeepsOut(k, ts);
      var r := ParseStatement(ts);
      if r.Accept? {
        BlockLoopKeepsOut(k, acc + [r.value], r.rest);
      }
    }
  }

  /** `parse_block` succeeds only on reaching `end`: a block with no `end`
      among its tokens is an error. */
  lemma {:induction false} BlockNeedsEnd(acc: seq<Statement>, ts: seq<Token>)
    requires End !in ts
    ensures BlockLoop(acc, ts).Reject?
    decreases |ts|
  {
    if Head(ts) != End && Head(ts) != EOF {
      StatementKeepsOut(End, ts);
      var r := ParseStatement(ts);
      if r.Accept? {
        BlockNeedsEnd(acc + [r.value], r.rest);
      }
    } else if ts != [] {
      assert ts[0] in ts;
    }
  }

  /** What `parse_statements` leaves unread holds no token it was not given. */
  lemma {:induction false} ProgramKeepsOut(k: Token, acc: seq<Statement>, ts: seq<Token>)
    requires k !in ts
    ensures ProgramLoop(acc, ts).Accept? ==> k !in ProgramLoop(acc, ts).rest
    decreases |ts|
  {
    if Head(ts) != EOF {
      StatementKeepsOut(k, ts);
      var r := ParseStatement(ts);
      if r.Accept? {
        ProgramKeepsOut(k, acc + [r.value], r.rest);
      }
    }
  }
}
