/** Properties of the scanner of src/lexer.rs, stated on the functions that
    specify `Lexer.NextToken`. */
module LexingFacts {
  import opened Wrappers
  import opened Lexing

  // ---------------------------------------------------------------------------
  // End of input
  // ---------------------------------------------------------------------------

  /** Once only whitespace and comments remain, the scanner yields `EOF` and
      parks the cursor at the end, and every later call does the same. */
  lemma EofIsSticky(s: seq<char>, p: nat)
    requires p <= |s| && SkipEnd(s, p) == |s|
    ensures Scan(s, p) == Scanned(EOF, |s|)
    ensures Scan(s, |s|) == Scanned(EOF, |s|)
    ensures TokensFrom(s, p) == []
  {
  }

  /** Skipping is idempotent: after one skip there is nothing left to skip. */
  lemma SkipIsIdempotent(s: seq<char>, p: nat)
    requires p <= |s|
    ensures SkipEnd(s, SkipEnd(s, p)) == SkipEnd(s, p)
  {
  }

  /** A comment reaches up to, but not including, the next line break; that
      line break is then skipped as whitespace. */
  lemma CommentStopsAtLineBreak(s: seq<char>, p: nat)
    requires p < |s| && s[p] == '#'
    ensures SkipEnd(s, p) == SkipEnd(s, LineEnd(s, p))
    ensures LineEnd(s, p) < |s| ==>
              s[LineEnd(s, p)] == '\n' && SkipEnd(s, p) == SkipEnd(s, LineEnd(s, p) + 1)
  {
  }

  /** Position `k` lies in a comment that starts at `j`: a `#` at `j`, and no
      line break from `j` up to `k`. */
  predicate InComment(s: seq<char>, j: nat, k: nat) {
    j <= k < |s| && s[j] == '#' && forall i :: j <= i <= k ==> s[i] != '\n'
  }

  /** Skipping passes over whitespace and comments only, and it does not stop
      inside a comment. */
  lemma {:induction false} SkippedIsBlankOrComment(s: seq<char>, p: nat)
    requires p <= |s|
    ensures forall k :: p <= k < SkipEnd(s, p) ==>
              IsWhitespace(s[k]) || exists j :: p <= j <= k && InComment(s, j, k)
    ensures forall j :: p <= j < SkipEnd(s, p) ==> !InComment(s, j, SkipEnd(s, p))
    decreases |s| - p
  {
    var r := SkipEnd(s, p);
    if p == |s| || r == p {
    } else if IsWhitespace(s[p]) {
      SkippedIsBlankOrComment(s, p + 1);
      forall j | p <= j < r ensures !InComment(s, j, r) {
        if j == p {
          assert s[p] != '#';
        }
      }
    } else {
      assert s[p] == '#';
      var e := LineEnd(s, p);
      assert e > p;
      SkippedIsBlankOrComment(s, e);
      forall k | p <= k < r
        ensures IsWhitespace(s[k]) || exists j :: p <= j <= k && InComment(s, j, k)
      {
        if k < e {
          assert InComment(s, p, k);
        }
      }
      forall j | p <= j < r ensures !InComment(s, j, r) {
        if j < e && r < |s| {
          assert s[e] == '\n' && j <= e <= r;
        }
      }
    }
  }

  // ---------------------------------------------------------------------------
  // One token
  // ---------------------------------------------------------------------------

  /** Each single-character operator or parenthesis is one token one
      character long, whatever character follows it. */
  lemma SingleCharacterTokens(s: seq<char>, p: nat)
    requires p <= |s| && SkipEnd(s, p) < |s|
    ensures var q := SkipEnd(s, p);
            && (s[q] == '+' ==> Scan(s, p) == Scanned(Plus, q + 1))
            && (s[q] == '-' ==> Scan(s, p) == Scanned(Minus, q + 1))
            && (s[q] == '*' ==> Scan(s, p) == Scanned(Star, q + 1))
            && (s[q] == '/' ==> Scan(s, p) == Scanned(Slash, q + 1))
            && (s[q] == '<' ==> Scan(s, p) == Scanned(LessThan, q + 1))
            && (s[q] == '>' ==> Scan(s, p) == Scanned(GreaterThan, q + 1))
            && (s[q] == '(' ==> Scan(s, p) == Scanned(LParen, q + 1))
            && (s[q] == ')' ==> Scan(s, p) == Scanned(RParen, q + 1))
  {
  }

  /** `=` followed by `=` is one `DoubleEquals` two characters long; any other
      `=` is an `Equals` one character long. */
  lemma EqualsNeedsOneCharOfLookahead(s: seq<char>, p: nat)
    requires p <= |s|
    requires SkipEnd(s, p) < |s| && s[SkipEnd(s, p)] == '='
    ensures var q := SkipEnd(s, p);
            if q + 1 < |s| && s[q + 1] == '=' then Scan(s, p) == Scanned(DoubleEquals, q + 2)
            else Scan(s, p) == Scanned(Equals, q + 1)
  {
  }

  /** An unrecognised character is consumed, exactly one of it, and yields
      `EOF`; the parser, which stops at the first `EOF`, sees no token after it. */
  lemma UnrecognisedCharacterEndsTheStream(s: seq<char>, p: nat)
    requires p <= |s|
    requires var q := SkipEnd(s, p);
             q < |s| && s[q] !in "+-*/=<>()" && !IsDigit(s[q]) && !IsLetter(s[q])
    ensures Scan(s, p) == Scanned(EOF, SkipEnd(s, p) + 1)
    ensures TokensFrom(s, p) == []
  {
  }

  /** A digit starts a `Number` that covers the maximal digit run; its value
      is the run's decimal value, or 0 when that does not fit in `i64`. */
  lemma NumberCoversDigitRun(s: seq<char>, p: nat)
    requires p <= |s|
    requires SkipEnd(s, p) < |s| && IsDigit(s[SkipEnd(s, p)])
    ensures var q := SkipEnd(s, p);
            var e := DigitRunEnd(s, q);
            && Scan(s, p).next == e
            && Scan(s, p).token.Number?
            && (DecimalValue(s[q..e]) <= I64_MAX ==> Scan(s, p).token.value == DecimalValue(s[q..e]))
            && (DecimalValue(s[q..e]) > I64_MAX ==> Scan(s, p).token.value == 0)
  {
  }

  /** A letter starts a word that covers the maximal alphanumeric run; it is a
      keyword token exactly when spelled `if`, `while` or `end`. */
  lemma WordIsKeywordOrIdent(s: seq<char>, p: nat)
    requires p <= |s|
    requires SkipEnd(s, p) < |s| && IsLetter(s[SkipEnd(s, p)])
    ensures var q := SkipEnd(s, p);
            var w := s[q..WordEnd(s, q)];
            && Scan(s, p).next == WordEnd(s, q)
            && (Scan(s, p).token == If <==> w == "if")
            && (Scan(s, p).token == While <==> w == "while")
            && (Scan(s, p).token == End <==> w == "end")
            && (Scan(s, p).token == Ident(w) <==> w !in {"if", "while", "end"})
  {
  }

  // ---------------------------------------------------------------------------
  // Numerals: the digits of n scan back to n
  // ---------------------------------------------------------------------------

  function DigitChar(d: nat): (c: char)
    requires d < 10
    ensures IsDigit(c) && c as int - '0' as int == d
  {
    ('0' as int + d) as char
  }

  /** The decimal numeral of `n`, without leading zeros. */
  function Digits(n: nat): (d: seq<char>)
    ensures AllDigits(d) && d != []
  {
    if n < 10 then [DigitChar(n)] else Digits(n / 10) + [DigitChar(n % 10)]
  }

  /** `DecimalValue` inverts `Digits`. */
  lemma {:induction false} DigitsValue(n: nat)
    ensures DecimalValue(Digits(n)) == n
  {
    if n >= 10 {
      var d := Digits(n);
      assert d[..|d| - 1] == Digits(n / 10);
      DigitsValue(n / 10);
    }
  }

  /** A run of digits ending at a non-digit (or at the end) is the maximal run. */
  lemma {:induction false} DigitRunEndAt(s: seq<char>, p: nat, e: nat)
    requires p <= e <= |s|
    requires forall k :: p <= k < e ==> IsDigit(s[k])
    requires e == |s| || !IsDigit(s[e])
    ensures DigitRunEnd(s, p) == e
    decreases e - p
  {
    if p < e {
      DigitRunEndAt(s, p + 1, e);
    }
  }

  /** An alphanumeric run ending at a non-alphanumeric (or at the end) is the
      maximal one. */
  lemma {:induction false} WordEndAt(s: seq<char>, p: nat, e: nat)
    requires p <= e <= |s|
    requires forall k :: p <= k < e ==> IsAlphanumeric(s[k])
    requires e == |s| || !IsAlphanumeric(s[e])
    ensures WordEnd(s, p) == e
    decreases e - p
  {
    if p < e {
      WordEndAt(s, p + 1, e);
    }
  }

  /** The numeral of `n` standing at the cursor, not followed by a digit, is
      the maximal digit run there, and its value is `n`. */
  lemma NumeralAt(s: seq<char>, p: nat, n: nat)
    requires p + |Digits(n)| <= |s| && s[p..p + |Digits(n)|] == Digits(n)
    requires p + |Digits(n)| == |s| || !IsDigit(s[p + |Digits(n)|])
    ensures var e := p + |Digits(n)|;
            IsDigit(s[p]) && DigitRunEnd(s, p) == e && DecimalValue(s[p..e]) == n
  {
    var d := Digits(n);
    assert s[p] == d[0];
    forall k | p <= k < p + |d| ensures IsDigit(s[k]) {
      assert s[k] == d[k - p];
    }
    DigitRunEndAt(s, p, p + |d|);
    DigitsValue(n);
  }

  /** A token character at the cursor is not skipped. */
  lemma NothingToSkip(s: seq<char>, p: nat)
    requires p < |s| && (IsDigit(s[p]) || IsLetter(s[p]))
    ensures SkipEnd(s, p) == p
  {
  }

  /** The numeral of any `n` that fits in `i64`, standing at the cursor and not
      followed by a digit, scans as `Number(n)`. */
  lemma ScanNumeral(s: seq<char>, p: nat, n: nat)
    requires n <= I64_MAX
    requires p + |Digits(n)| <= |s| && s[p..p + |Digits(n)|] == Digits(n)
    requires p + |Digits(n)| == |s| || !IsDigit(s[p + |Digits(n)|])
    ensures Scan(s, p) == Scanned(Number(n), p + |Digits(n)|)
  {
    NumeralAt(s, p, n);
    NothingToSkip(s, p);
    NumberCoversDigitRun(s, p);
  }

  /** A numeral too large for `i64` scans as `Number(0)`. */
  lemma OverflowingNumeralIsZero(s: seq<char>, p: nat, n: nat)
    requires n > I64_MAX
    requires p + |Digits(n)| <= |s| && s[p..p + |Digits(n)|] == Digits(n)
    requires p + |Digits(n)| == |s| || !IsDigit(s[p + |Digits(n)|])
    ensures Scan(s, p) == Scanned(Number(0), p + |Digits(n)|)
  {
    NumeralAt(s, p, n);
    NothingToSkip(s, p);
    NumberCoversDigitRun(s, p);
  }

  /** A word of letters and digits standing at the cursor, not followed by
      one, is the maximal alphanumeric run there. */
  lemma WordAt(s: seq<char>, p: nat, w: string)
    requires p + |w| <= |s| && s[p..p + |w|] == w
    requires forall k :: 0 <= k < |w| ==> IsAlphanumeric(w[k])
    requires p + |w| == |s| || !IsAlphanumeric(s[p + |w|])
    ensures WordEnd(s, p) == p + |w|
  {
    forall k | p <= k < p + |w| ensures IsAlphanumeric(s[k]) {
      assert s[k] == w[k - p];
    }
    WordEndAt(s, p, p + |w|);
  }

  /** A word after the blanks at `p` scans as its keyword or identifier. */
  lemma WordScanFrom(s: seq<char>, p: nat)
    requires p <= |s| && SkipEnd(s, p) < |s| && IsLetter(s[SkipEnd(s, p)])
    ensures var q := SkipEnd(s, p); var e := WordEnd(s, q);
            Scan(s, p) == Scanned(Keyword(s[q..e]), e)
  {
  }

  /** The scanner on a letter at the cursor: the word there, reclassified. */
  lemma WordScan(s: seq<char>, p: nat)
    requires p < |s| && IsLetter(s[p])
    ensures var e := WordEnd(s, p);
            Scan(s, p) == Scanned(Keyword(s[p..e]), e)
  {
    NothingToSkip(s, p);
  }
  // ---------------------------------------------------------------------------
  // Text in front of the cursor
  // ---------------------------------------------------------------------------

  // The scanner only looks forward from the cursor: scanning `t` inside a
  // longer text `s` that ends with it gives the same tokens, at positions
  // shifted by the length `k` of what comes before.

  /** `s` holds `t` from position `k` to its end. */
  predicate SuffixFrom(s: seq<char>, k: nat, t: seq<char>) {
    |s| == k + |t| && forall i :: 0 <= i < |t| ==> s[k + i] == t[i]
  }

  lemma {:induction false} LineEndShift(s: seq<char>, k: nat, t: seq<char>, p: nat)
    requires SuffixFrom(s, k, t) && p <= |t|
    ensures LineEnd(s, k + p) == k + LineEnd(t, p)
    decreases |t| - p
  {
    if p < |t| {
      assert s[k + p] == t[p];
      LineEndShift(s, k, t, p + 1);
    }
  }

  lemma {:induction false} SkipEndShift(s: seq<char>, k: nat, t: seq<char>, p: nat)
    requires SuffixFrom(s, k, t) && p <= |t|
    ensures SkipEnd(s, k + p) == k + SkipEnd(t, p)
    decreases |t| - p
  {
    if p < |t| {
      assert s[k + p] == t[p];
      if IsWhitespace(t[p]) {
        SkipEndShift(s, k, t, p + 1);
      } else if t[p] == '#' {
        LineEndShift(s, k, t, p);
        SkipEndShift(s, k, t, LineEnd(t, p));
      }
    }
  }

  lemma {:induction false} DigitRunEndShift(s: seq<char>, k: nat, t: seq<char>, p: nat)
    requires SuffixFrom(s, k, t) && p <= |t|
    ensures DigitRunEnd(s, k + p) == k + DigitRunEnd(t, p)
    decreases |t| - p
  {
    if p < |t| {
      assert s[k + p] == t[p];
      DigitRunEndShift(s, k, t, p + 1);
    }
  }

  lemma {:induction false} WordEndShift(s: seq<char>, k: nat, t: seq<char>, p: nat)
    requires SuffixFrom(s, k, t) && p <= |t|
    ensures WordEnd(s, k + p) == k + WordEnd(t, p)
    decreases |t| - p
  {
    if p < |t| {
      assert s[k + p] == t[p];
      WordEndShift(s, k, t, p + 1);
    }
  }

  lemma SliceShift(s: seq<char>, k: nat, t: seq<char>, a: nat, b: nat)
    requires SuffixFrom(s, k, t) && a <= b <= |t|
    ensures s[k + a..k + b] == t[a..b]
  {
    forall i | 0 <= i < b - a
      ensures s[k + a..k + b][i] == t[a..b][i]
    {
      assert t[a + i] == s[k + a + i];
    }
  }

  lemma CharShift(s: seq<char>, k: nat, t: seq<char>, q: nat)
    requires SuffixFrom(s, k, t) && q < |t|
    ensures s[k + q] == t[q] && CharAfter(s, k + q) == CharAfter(t, q)
  {
    if q + 1 < |t| {
      assert t[q + 1] == s[k + q + 1];
    }
  }

  /** One call of the scanner inside `s` is the call on `t`, shifted by `k`. */
  lemma ScanShift(s: seq<char>, k: nat, t: seq<char>, p: nat)
    requires SuffixFrom(s, k, t) && p <= |t|
    ensures Scan(s, k + p) == Scanned(Scan(t, p).token, k + Scan(t, p).next)
  {
    SkipEndShift(s, k, t, p);
    var q := SkipEnd(t, p);
    if q < |t| {
      CharShift(s, k, t, q);
      if IsDigit(t[q]) {
        NumberShift(s, k, t, p);
      } else if IsLetter(t[q]) {
        WordShift(s, k, t, p);
      } else {
        OtherShift(s, k, t, p);
      }
    }
  }

  lemma NumberShift(s: seq<char>, k: nat, t: seq<char>, p: nat)
    requires SuffixFrom(s, k, t) && p <= |t|
    requires SkipEnd(s, k + p) == k + SkipEnd(t, p)
    requires SkipEnd(t, p) < |t| && IsDigit(t[SkipEnd(t, p)]) && s[k + SkipEnd(t, p)] == t[SkipEnd(t, p)]
    ensures Scan(s, k + p) == Scanned(Scan(t, p).token, k + Scan(t, p).next)
  {
    DigitsShift(s, k, t, SkipEnd(t, p));
    SameNumeralSameScan(s, k + p, t, p, k);
  }

  lemma DigitsShift(s: seq<char>, k: nat, t: seq<char>, q: nat)
    requires SuffixFrom(s, k, t) && q <= |t|
    ensures DigitRunEnd(s, k + q) == k + DigitRunEnd(t, q)
    ensures s[k + q..DigitRunEnd(s, k + q)] == t[q..DigitRunEnd(t, q)]
  {
    DigitRunEndShift(s, k, t, q);
    SliceShift(s, k, t, q, DigitRunEnd(t, q));
  }

  /** Two cursors in front of the same digits scan the same token. */
  lemma SameNumeralSameScan(s: seq<char>, ps: nat, t: seq<char>, pt: nat, k: nat)
    requires ps <= |s| && SkipEnd(s, ps) < |s| && IsDigit(s[SkipEnd(s, ps)])
    requires pt <= |t| && SkipEnd(t, pt) < |t| && IsDigit(t[SkipEnd(t, pt)])
    requires SkipEnd(s, ps) == k + SkipEnd(t, pt)
    requires DigitRunEnd(s, SkipEnd(s, ps)) == k + DigitRunEnd(t, SkipEnd(t, pt))
    requires s[SkipEnd(s, ps)..DigitRunEnd(s, SkipEnd(s, ps))] == t[SkipEnd(t, pt)..DigitRunEnd(t, SkipEnd(t, pt))]
    ensures Scan(s, ps) == Scanned(Scan(t, pt).token, k + Scan(t, pt).next)
  {
  }

  lemma WordShift(s: seq<char>, k: nat, t: seq<char>, p: nat)
    requires SuffixFrom(s, k, t) && p <= |t|
    requires SkipEnd(s, k + p) == k + SkipEnd(t, p)
    requires SkipEnd(t, p) < |t| && IsLetter(t[SkipEnd(t, p)]) && s[k + SkipEnd(t, p)] == t[SkipEnd(t, p)]
    ensures Scan(s, k + p) == Scanned(Scan(t, p).token, k + Scan(t, p).next)
  {
    WordsShift(s, k, t, SkipEnd(t, p));
    SameWordSameScan(s, k + p, t, p, k);
  }

  lemma WordsShift(s: seq<char>, k: nat, t: seq<char>, q: nat)
    requires SuffixFrom(s, k, t) && q <= |t|
    ensures WordEnd(s, k + q) == k + WordEnd(t, q)
    ensures s[k + q..WordEnd(s, k + q)] == t[q..WordEnd(t, q)]
  {
    WordEndShift(s, k, t, q);
    SliceShift(s, k, t, q, WordEnd(t, q));
  }

  /** Two cursors in front of the same word scan the same token. */
  lemma SameWordSameScan(s: seq<char>, ps: nat, t: seq<char>, pt: nat, k: nat)
    requires ps <= |s| && SkipEnd(s, ps) < |s| && IsLetter(s[SkipEnd(s, ps)])
    requires pt <= |t| && SkipEnd(t, pt) < |t| && IsLetter(t[SkipEnd(t, pt)])
    requires SkipEnd(s, ps) == k + SkipEnd(t, pt)
    requires WordEnd(s, SkipEnd(s, ps)) == k + WordEnd(t, SkipEnd(t, pt))
    requires s[SkipEnd(s, ps)..WordEnd(s, SkipEnd(s, ps))] == t[SkipEnd(t, pt)..WordEnd(t, SkipEnd(t, pt))]
    ensures Scan(s, ps) == Scanned(Scan(t, pt).token, k + Scan(t, pt).next)
  {
    WordScanFrom(t, pt);
    WordScanFrom(s, ps);
  }

  lemma OtherShift(s: seq<char>, k: nat, t: seq<char>, p: nat)
    requires k <= |s| && p <= |t| && |s| == k + |t|
    requires SkipEnd(s, k + p) == k + SkipEnd(t, p)
    requires var q := SkipEnd(t, p);
             q < |t| && !IsDigit(t[q]) && !IsLetter(t[q])
             && s[k + q] == t[q] && CharAfter(s, k + q) == CharAfter(t, q)
    ensures Scan(s, k + p) == Scanned(Scan(t, p).token, k + Scan(t, p).next)
  {
  }

  /** One token scanned, then the ones after it. */
  lemma TokensFromStep(s: seq<char>, p: nat, t: Token, e: nat)
    requires p <= |s| && t != EOF && Scan(s, p).token == t && Scan(s, p).next == e
    ensures e <= |s| && TokensFrom(s, p) == [t] + TokensFrom(s, e)
  {
  }

  /** No tokens once the scanner yields `EOF`. */
  lemma TokensFromEnd(s: seq<char>, p: nat)
    requires p <= |s| && Scan(s, p).token == EOF
    ensures TokensFrom(s, p) == []
  {
  }

  /** The tokens from `ps` in `s` are the tokens from `pt` in `t`, when `s`
      ends with `t` and `ps` is `pt` shifted by what comes before it. */
  lemma {:induction false} TokensFromShift(s: seq<char>, k: nat, t: seq<char>, ps: nat, pt: nat)
    requires SuffixFrom(s, k, t) && pt <= |t| && ps == k + pt
    ensures TokensFrom(s, ps) == TokensFrom(t, pt)
    decreases |t| - pt
  {
    var token, es, et := ScanShiftAt(s, k, t, ps, pt);
    if token == EOF {
      TokensFromEnd(s, ps);
      TokensFromEnd(t, pt);
    } else {
      TokensFromShift(s, k, t, es, et);
      SameStepSameTokens(s, ps, t, pt, token, es, et);
    }
  }

  /** `ScanShift`, with the token and the two new cursors named. */
  lemma ScanShiftAt(s: seq<char>, k: nat, t: seq<char>, ps: nat, pt: nat) returns (token: Token, es: nat, et: nat)
    requires SuffixFrom(s, k, t) && pt <= |t| && ps == k + pt
    ensures Scan(s, ps).token == token && Scan(s, ps).next == es
    ensures Scan(t, pt).token == token && Scan(t, pt).next == et
    ensures es == k + et && pt <= et <= |t| && (token != EOF ==> pt < et)
  {
    ScanShift(s, k, t, pt);
    token, et := Scan(t, pt).token, Scan(t, pt).next;
    es := k + et;
  }

  /** Two cursors that scan the same token, and after which the same tokens
      follow, read the same tokens. */
  lemma SameStepSameTokens(s: seq<char>, ps: nat, t: seq<char>, pt: nat, token: Token, es: nat, et: nat)
    requires ps <= |s| && pt <= |t| && token != EOF
    requires Scan(s, ps).token == token && Scan(s, ps).next == es
    requires Scan(t, pt).token == token && Scan(t, pt).next == et
    requires TokensFrom(s, es) == TokensFrom(t, et)
    ensures TokensFrom(s, ps) == TokensFrom(t, pt)
  {
    TokensFromStep(s, ps, token, es);
    TokensFromStep(t, pt, token, et);
  }

  /** Two cursors that skip to the same place read the same tokens. */
  lemma SameSkipSameTokens(s: seq<char>, p: nat, q: nat)
    requires p <= |s| && q <= |s| && SkipEnd(s, p) == SkipEnd(s, q)
    ensures TokensFrom(s, p) == TokensFrom(s, q)
  {
    SameSkipSameScan(s, p, q);
    if Scan(s, p).token == EOF {
      TokensFromEnd(s, p);
      TokensFromEnd(s, q);
    } else {
      TokensFromStep(s, p, Scan(s, p).token, Scan(s, p).next);
      TokensFromStep(s, q, Scan(s, p).token, Scan(s, p).next);
    }
  }

  lemma SameSkipSameScan(s: seq<char>, p: nat, q: nat)
    requires p <= |s| && q <= |s| && SkipEnd(s, p) == SkipEnd(s, q)
    ensures Scan(s, p).token == Scan(s, q).token && Scan(s, p).next == Scan(s, q).next
  {
    ScanFromSkipped(s, p);
    ScanFromSkipped(s, q);
  }

  /** Scanning from `p` is scanning from where skipping from `p` stops. */
  lemma ScanFromSkipped(s: seq<char>, p: nat)
    requires p <= |s|
    ensures Scan(s, p) == Scan(s, SkipEnd(s, p))
  {
    SkipIsIdempotent(s, p);
  }

  /** A line holding only a comment, in front of a text, changes none of the
      text's tokens. */
  lemma CommentLineChangesNothing(c: string, t: string)
    requires '\n' !in c
    ensures TokensFrom("#" + c + "\n" + t, 0) == TokensFrom(t, 0)
  {
    CommentLineIsSkipped(c, t);
    SkippedPrefixChangesNothing("#" + c + "\n" + t, |c| + 2, t);
  }

  /** A prefix the scanner skips as a whole changes none of the tokens after it. */
  lemma SkippedPrefixChangesNothing(s: seq<char>, k: nat, t: seq<char>)
    requires SuffixFrom(s, k, t) && SkipEnd(s, 0) == SkipEnd(s, k)
    ensures TokensFrom(s, 0) == TokensFrom(t, 0)
  {
    SameSkipSameTokens(s, 0, k);
    TokensFromShift(s, k, t, k, 0);
  }

  /** Skipping from the `#` of a comment line lands where skipping from the
      start of the next line does. */
  lemma CommentLineIsSkipped(c: string, t: string)
    requires '\n' !in c
    ensures var s := "#" + c + "\n" + t;
            SuffixFrom(s, |c| + 2, t) && SkipEnd(s, 0) == SkipEnd(s, |c| + 2)
  {
    CommentLineSuffix(c, t);
    CommentLineBreak(c, t);
    CommentThenBreakIsSkipped("#" + c + "\n" + t, |c| + 1);
  }

  /** A comment from position 0 that ends at a line break at `e` is skipped
      together with that line break. */
  lemma CommentThenBreakIsSkipped(s: seq<char>, e: nat)
    requires e < |s| && s[0] == '#' && s[e] == '\n' && LineEnd(s, 0) == e
    ensures SkipEnd(s, 0) == SkipEnd(s, e + 1)
  {
    assert SkipEnd(s, 0) == SkipEnd(s, e);
  }

  lemma CommentLineSuffix(c: string, t: string)
    ensures SuffixFrom("#" + c + "\n" + t, |c| + 2, t)
  {
    var s := "#" + c + "\n" + t;
    forall i | 0 <= i < |t|
      ensures s[|c| + 2 + i] == t[i]
    {
    }
  }

  /** The comment of a comment line ends at its line break. */
  lemma CommentLineBreak(c: string, t: string)
    requires '\n' !in c
    ensures var s := "#" + c + "\n" + t;
            s[0] == '#' && s[|c| + 1] == '\n' && LineEnd(s, 0) == |c| + 1
  {
    var s := "#" + c + "\n" + t;
    forall i | 0 <= i < |c| + 1
      ensures s[i] != '\n'
    {
      if 0 < i {
        assert s[i] == c[i - 1];
      }
    }
  }
}
