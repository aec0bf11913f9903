/** The scanner and the parser together: tokens written out with one space
    between them scan back to the same tokens, so a program printed as text
    parses back to the same program. */
module Rendering {
  import opened Wrappers
  import opened Lexing
  import opened LexingFacts
  import opened Syntax
  import opened Grammar
  import opened GrammarFacts
  import opened Parsing

  /** A name the scanner reads as one identifier: a letter, then letters and
      digits, and not a keyword. */
  predicate IsName(x: string) {
    && x != []
    && IsLetter(x[0])
    && (forall k :: 0 <= k < |x| ==> IsAlphanumeric(x[k]))
    && Keyword(x) == Token.Ident(x)
  }

  /** The tokens the scanner can produce from their spelling: `EOF` has none,
      and a number is a decimal numeral that fits in `i64`. */
  predicate Spellable(t: Token) {
    match t
    case Ident(x) => IsName(x)
    case Number(n) => 0 <= n <= I64_MAX
    case EOF => false
    case _ => true
  }

  /** How a token is written in the source. */
  function Spelling(t: Token): string
    requires Spellable(t)
  {
    match t
    case Ident(x) => x
    case Number(n) => Digits(n)
    case Plus => "+"
    case Minus => "-"
    case Star => "*"
    case Slash => "/"
    case Equals => "="
    case DoubleEquals => "=="
    case LessThan => "<"
    case GreaterThan => ">"
    case LParen => "("
    case RParen => ")"
    case If => "if"
    case While => "while"
    case End => "end"
  }

  predicate AllSpellable(ts: seq<Token>) {
    forall k :: 0 <= k < |ts| ==> Spellable(ts[k])
  }

  /** The tokens written out, each after one space. */
  function SpacedOut(ts: seq<Token>): string
    requires AllSpellable(ts)
  {
    if ts == [] then [] else " " + Spelling(ts[0]) + SpacedOut(ts[1..])
  }

  /** The tokens written out with one space between each two. */
  function Render(ts: seq<Token>): string
    requires AllSpellable(ts)
  {
    if ts == [] then [] else Spelling(ts[0]) + SpacedOut(ts[1..])
  }

  /** A spelling is never empty and never starts with whitespace or `#`, so
      the scanner starts reading it where it stands. */
  lemma SpellingStartsAToken(t: Token)
    requires Spellable(t)
    ensures Spelling(t) != [] && !IsWhitespace(Spelling(t)[0]) && Spelling(t)[0] != '#'
  {
    if t.Number? {
      assert IsDigit(Digits(t.value)[0]);
    }
  }

  /** One call of the scanner on a spelling that ends at a space or at the
      end of the input returns the token it spells, and leaves the cursor
      just after it. */
  lemma ScanSpelling(s: seq<char>, p: nat, t: Token)
    requires Spellable(t)
    requires p + |Spelling(t)| <= |s| && s[p..p + |Spelling(t)|] == Spelling(t)
    requires p + |Spelling(t)| == |s| || s[p + |Spelling(t)|] == ' '
    ensures Scan(s, p) == Scanned(t, p + |Spelling(t)|)
  {
    var w := Spelling(t);
    var e := p + |w|;
    SpellingStartsAToken(t);
    assert s[p] == w[0];
    assert SkipEnd(s, p) == p;
    match t
    case Number(n) =>
      ScanNumeral(s, p, n);
    case Ident(x) =>
      WordAt(s, p, x);
      WordScan(s, p);
      assert s[p..e] == x;
    case DoubleEquals =>
      assert s[p + 1] == w[1];
    case Equals =>
      assert CharAfter(s, p) != Some('=');
    case If =>
      KeywordAt(s, p, t);
    case While =>
      KeywordAt(s, p, t);
    case End =>
      KeywordAt(s, p, t);
    case _ =>
  }

  /** A keyword's spelling, standing at the cursor and followed by a space
      or nothing, scans as that keyword. */
  lemma KeywordAt(s: seq<char>, p: nat, t: Token)
    requires t == Token.If || t == Token.While || t == End
    requires p + |Spelling(t)| <= |s| && s[p..p + |Spelling(t)|] == Spelling(t)
    requires p + |Spelling(t)| == |s| || s[p + |Spelling(t)|] == ' '
    ensures Scan(s, p) == Scanned(t, p + |Spelling(t)|)
  {
    var w := Spelling(t);
    assert forall k :: 0 <= k < |w| ==> IsAlphanumeric(w[k]);
    assert s[p] == w[0];
    WordAt(s, p, w);
    WordScan(s, p);
  }

  /** A space in front of the cursor changes nothing the scanner returns. */
  lemma SpaceIsSkipped(s: seq<char>, p: nat)
    requires p < |s| && s[p] == ' '
    ensures Scan(s, p) == Scan(s, p + 1)
    ensures TokensFrom(s, p) == TokensFrom(s, p + 1)
  {
    assert SkipEnd(s, p) == SkipEnd(s, p + 1);
  }

  /** Where `s` continues with `w` and then `r`. */
  lemma SplitAt(s: seq<char>, p: nat, w: string, r: string)
    requires p <= |s| && s[p..] == w + r
    ensures p + |w| <= |s| && s[p..p + |w|] == w && s[p + |w|..] == r
    ensures r != [] ==> s[p + |w|] == r[0]
  {
    assert s[p..p + |w|] == s[p..][..|w|];
    assert s[p + |w|..] == s[p..][|w|..];
  }

  /** The tokens of spaced-out tokens are those tokens. */
  lemma {:induction false} TokensOfSpacedOut(s: seq<char>, p: nat, ts: seq<Token>)
    requires AllSpellable(ts)
    requires p <= |s| && s[p..] == SpacedOut(ts)
    ensures TokensFrom(s, p) == ts
    decreases ts
  {
    if ts == [] {
      assert p == |s|;
    } else {
      var w, r := Spelling(ts[0]), SpacedOut(ts[1..]);
      assert s[p..] == [' '] + (w + r);
      assert s[p] == s[p..][0] == ' ';
      assert s[p + 1..] == s[p..][1..] == w + r;
      SpaceIsSkipped(s, p);
      TokensOfSpelling(s, p + 1, ts);
    }
  }

  /** The first token read from its spelling, then the rest spaced out. */
  lemma {:induction false} TokensOfSpelling(s: seq<char>, p: nat, ts: seq<Token>)
    requires ts != [] && AllSpellable(ts)
    requires p <= |s| && s[p..] == Spelling(ts[0]) + SpacedOut(ts[1..])
    ensures TokensFrom(s, p) == ts
    decreases ts, 0
  {
    var w, r := Spelling(ts[0]), SpacedOut(ts[1..]);
    var e := p + |w|;
    SplitAt(s, p, w, r);
    ScanSpelling(s, p, ts[0]);
    TokensFromStep(s, p, ts[0], e);
    TokensOfSpacedOut(s, e, ts[1..]);
    Unpeel(ts);
  }

  /** One token scanned, then the ones after it. */
  lemma Unpeel(ts: seq<Token>)
    requires ts != []
    ensures [ts[0]] + ts[1..] == ts
  {
  }

  /** The scanner inverts `Render`. */
  lemma RenderRoundTrip(ts: seq<Token>)
    requires AllSpellable(ts)
    ensures TokensFrom(Render(ts), 0) == ts
  {
    var s := Render(ts);
    assert s[0..] == s;
    if ts != [] {
      TokensOfSpelling(s, 0, ts);
    } else {
      assert SkipEnd(s, 0) == 0;
    }
  }

  /** A program printed as source text parses back to itself, provided its
      names are names and its numbers fit in `i64`. */
  lemma SourceRoundTrip(program: seq<Statement>)
    requires PrintableBlock(program)
    requires AllSpellable(UnparseBlock(program))
    ensures Parse(Render(UnparseBlock(program))) == Ok(program)
  {
    RenderRoundTrip(UnparseBlock(program));
    ProgramRoundTrip(program);
  }
}
