/** The scanner of src/lexer.rs: a character array read through one cursor
    `pos`, turned into one `Token` per call of `NextToken`.

    The pure functions `SkipEnd`, `DigitRunEnd`, `WordEnd` and `Scan` say what
    one call does to the cursor; the class `Lexer` does it step by step with
    loops, as the Rust code does, and is proved to agree with them. */
module Lexing {
  import opened Wrappers

  /** The tokens of the language. `EOF` is also what an unrecognised character
      produces (see `Scan`). */
  datatype Token =
    | Ident(name: string)
    | Number(value: int)
    | Plus
    | Minus
    | Star
    | Slash
    | Equals
    | DoubleEquals
    | LessThan
    | GreaterThan
    | LParen
    | RParen
    | If
    | While
    | End
    | EOF

  /** The largest value of Rust's `i64`. */
  const I64_MAX: int := 0x7FFF_FFFF_FFFF_FFFF

  // ---------------------------------------------------------------------------
  // Character classes
  // ---------------------------------------------------------------------------

  /** Rust's `char::is_whitespace`: the characters with the Unicode property
      White_Space. */
  predicate IsWhitespace(c: char) {
    || ('\t' <= c <= '\r')
    || c == ' '
    || c == '\U{85}'
    || c == '\U{A0}'
    || c == '\U{1680}'
    || ('\U{2000}' <= c <= '\U{200A}')
    || c == '\U{2028}'
    || c == '\U{2029}'
    || c == '\U{202F}'
    || c == '\U{205F}'
    || c == '\U{3000}'
  }

  /** `char::is_ascii_digit`, and the pattern `'0'..='9'`. */
  predicate IsDigit(c: char) {
    '0' <= c <= '9'
  }

  /** The pattern `'a'..='z' | 'A'..='Z'` that starts a word. */
  predicate IsLetter(c: char) {
    'a' <= c <= 'z' || 'A' <= c <= 'Z'
  }

  /** `char::is_alphanumeric`, restricted to ASCII letters and digits. */
  predicate IsAlphanumeric(c: char) {
    IsLetter(c) || IsDigit(c)
  }

  // ---------------------------------------------------------------------------
  // What one call to the scanner does, as functions of the input and cursor
  // ---------------------------------------------------------------------------

  /** Where a `#` comment starting at `p` stops: at the next line break, which
      the comment does not include, or at the end of the input. */
  function LineEnd(s: seq<char>, p: nat): (r: nat)
    requires p <= |s|
    ensures p <= r <= |s|
    ensures r == |s| || s[r] == '\n'
    ensures forall k :: p <= k < r ==> s[k] != '\n'
    decreases |s| - p
  {
    if p < |s| && s[p] != '\n' then LineEnd(s, p + 1) else p
  }

  /** Where the cursor stands after whitespace and comments from `p` on are
      skipped: at the end of the input, or on a character that is neither
      whitespace nor `#`. */
  function SkipEnd(s: seq<char>, p: nat): (r: nat)
    requires p <= |s|
    ensures p <= r <= |s|
    ensures r == |s| || (!IsWhitespace(s[r]) && s[r] != '#')
    ensures p < |s| && !IsWhitespace(s[p]) && s[p] != '#' ==> r == p
    decreases |s| - p
  {
    if p == |s| then p
    else if IsWhitespace(s[p]) then SkipEnd(s, p + 1)
    else if s[p] == '#' then SkipEnd(s, LineEnd(s, p))
    else p
  }

  /** The end of the maximal run of ASCII digits starting at `p`. */
  function DigitRunEnd(s: seq<char>, p: nat): (r: nat)
    requires p <= |s|
    ensures p <= r <= |s|
    ensures forall k :: p <= k < r ==> IsDigit(s[k])
    ensures r == |s| || !IsDigit(s[r])
    decreases |s| - p
  {
    if p < |s| && IsDigit(s[p]) then DigitRunEnd(s, p + 1) else p
  }

  /** The end of the maximal alphanumeric run starting at `p`. */
  function WordEnd(s: seq<char>, p: nat): (r: nat)
    requires p <= |s|
    ensures p <= r <= |s|
    ensures forall k :: p <= k < r ==> IsAlphanumeric(s[k])
    ensures r == |s| || !IsAlphanumeric(s[r])
    decreases |s| - p
  {
    if p < |s| && IsAlphanumeric(s[p]) then WordEnd(s, p + 1) else p
  }

  predicate AllDigits(d: seq<char>) {
    forall k :: 0 <= k < |d| ==> IsDigit(d[k])
  }

  /** The number a string of decimal digits denotes (most significant first). */
  function DecimalValue(d: seq<char>): nat
    requires AllDigits(d)
  {
    if d == [] then 0
    else 10 * DecimalValue(d[..|d| - 1]) + (d[|d| - 1] as int - '0' as int)
  }

  /** `str::parse::<i64>().unwrap_or(0)` on a string of digits: the empty
      string and a value beyond `i64` fail to parse and give 0. */
  function ParseI64(d: seq<char>): (r: int)
    requires AllDigits(d)
    ensures 0 <= r <= I64_MAX
    ensures d != [] && DecimalValue(d) <= I64_MAX ==> r == DecimalValue(d)
    ensures DecimalValue(d) > I64_MAX ==> r == 0
  {
    if d != [] && DecimalValue(d) <= I64_MAX then DecimalValue(d) else 0
  }

  /** The reclassification of a word against the keywords: `if`, `while`
      and `end` are keywords, any other word is the name it spells. */
  function Keyword(w: string): (t: Token)
    ensures t == If || t == While || t == End || t == Ident(w)
    ensures t == If <==> w == "if"
    ensures t == While <==> w == "while"
    ensures t == End <==> w == "end"
  {
    if w == "if" then If
    else if w == "while" then While
    else if w == "end" then End
    else Ident(w)
  }

  /** The character after the one at `p`, if there is one. */
  function CharAfter(s: seq<char>, p: nat): (r: Option<char>)
    ensures r.Some? <==> p + 1 < |s|
    ensures r.Some? ==> r.value == s[p + 1]
  {
    if p + 1 < |s| then Some(s[p + 1]) else None
  }

  /** The token one call to the scanner returns and where it leaves the cursor. */
  datatype Scanned = Scanned(token: Token, next: nat)

  /** One call of the scanner from cursor `p`. The cursor never moves backwards
      nor past the end, and it stays put only at the end of the input. */
  function Scan(s: seq<char>, p: nat): (r: Scanned)
    requires p <= |s|
    ensures p <= r.next <= |s|
    ensures r.next == p ==> r.token == EOF && p == |s|
    ensures r.token != EOF ==> SkipEnd(s, p) < r.next
  {
    var q := SkipEnd(s, p);
    if q == |s| then Scanned(EOF, q)
    else
      var c := s[q];
      if c == '+' then Scanned(Plus, q + 1)
      else if c == '-' then Scanned(Minus, q + 1)
      else if c == '*' then Scanned(Star, q + 1)
      else if c == '/' then Scanned(Slash, q + 1)
      else if c == '=' then
        (if CharAfter(s, q) == Some('=') then Scanned(DoubleEquals, q + 2)
         else Scanned(Equals, q + 1))
      else if c == '<' then Scanned(LessThan, q + 1)
      else if c == '>' then Scanned(GreaterThan, q + 1)
      else if c == '(' then Scanned(LParen, q + 1)
      else if c == ')' then Scanned(RParen, q + 1)
      else if IsDigit(c) then
        var e := DigitRunEnd(s, q);
        Scanned(Number(ParseI64(s[q..e])), e)
      else if IsLetter(c) then
        var e := WordEnd(s, q);
        Scanned(Keyword(s[q..e]), e)
      else Scanned(EOF, q + 1)
  }

  /** The tokens the scanner yields from `p` on, up to (not including) the
      first `EOF`. A caller that stops at the first `EOF`, as the parser does,
      sees exactly these tokens followed by `EOF`. */
  function TokensFrom(s: seq<char>, p: nat): (ts: seq<Token>)
    requires p <= |s|
    ensures forall k :: 0 <= k < |ts| ==> ts[k] != EOF
    decreases |s| - p
  {
    var sc := Scan(s, p);
    if sc.token == EOF then [] else [sc.token] + TokensFrom(s, sc.next)
  }

  // ---------------------------------------------------------------------------
  // The scanner as the Rust code runs it
  // ---------------------------------------------------------------------------

  class Lexer {
    const input: seq<char>
    var pos: nat

    ghost predicate Valid()
      reads this
    {
      pos <= |input|
    }

    /** `Lexer::new`: the cursor starts at the first character. */
    constructor (text: string)
      ensures Valid() && input == text && pos == 0
    {
      input := text;
      pos := 0;
    }

    /** `next_token`: skips whitespace and comments, then reads one token. */
    method NextToken() returns (t: Token)
      requires Valid()
      modifies this
      ensures Valid()
      ensures Scanned(t, pos) == Scan(input, old(pos))
    {
      SkipWhitespace();
      if pos >= |input| {
        return EOF;
      }
      var ch := input[pos];
      if ch == '+' {
        pos := pos + 1;
        t := Plus;
      } else if ch == '-' {
        pos := pos + 1;
        t := Minus;
      } else if ch == '*' {
        pos := pos + 1;
        t := Star;
      } else if ch == '/' {
        pos := pos + 1;
        t := Slash;
      } else if ch == '=' {
        if Peek() == Some('=') {
          pos := pos + 2;
          t := DoubleEquals;
        } else {
          pos := pos + 1;
          t := Equals;
        }
      } else if ch == '<' {
        pos := pos + 1;
        t := LessThan;
      } else if ch == '>' {
        pos := pos + 1;
        t := GreaterThan;
      } else if ch == '(' {
        pos := pos + 1;
        t := LParen;
      } else if ch == ')' {
        pos := pos + 1;
        t := RParen;
      } else if IsDigit(ch) {
        t := ReadNumber();
      } else if IsLetter(ch) {
        var word := ReadIdent();
        t := Keyword(word);
      } else {
        // an unrecognised character is consumed and reported as EOF
        pos := pos + 1;
        t := EOF;
      }
    }

    /** `skip_whitespace`: whitespace is consumed one character at a time; a
        `#` starts a comment that is consumed up to the next line break. */
    method SkipWhitespace()
      requires Valid()
      modifies this
      ensures Valid() && pos == SkipEnd(input, old(pos))
    {
      while pos < |input|
        invariant pos <= |input|
        invariant SkipEnd(input, pos) == SkipEnd(input, old(pos))
        decreases |input| - pos
      {
        var ch := input[pos];
        if IsWhitespace(ch) {
          pos := pos + 1;
        } else if ch == '#' {
          ghost var hash := pos;
          while pos < |input| && input[pos] != '\n'
            invariant hash <= pos <= |input|
            invariant LineEnd(input, pos) == LineEnd(input, hash)
            decreases |input| - pos
          {
            pos := pos + 1;
          }
        } else {
          break;
        }
      }
    }

    /** `read_number`: consumes the maximal run of digits and converts it. */
    method ReadNumber() returns (t: Token)
      requires Valid()
      modifies this
      ensures Valid() && pos == DigitRunEnd(input, old(pos))
      ensures t == Number(ParseI64(input[old(pos)..pos]))
    {
      var start := pos;
      while pos < |input| && IsDigit(input[pos])
        invariant start <= pos <= |input|
        invariant DigitRunEnd(input, pos) == DigitRunEnd(input, start)
        decreases |input| - pos
      {
        pos := pos + 1;
      }
      t := Number(ParseI64(input[start..pos]));
    }

    /** `read_ident`: consumes the maximal alphanumeric run and returns it. */
    method ReadIdent() returns (w: string)
      requires Valid()
      modifies this
      ensures Valid() && pos == WordEnd(input, old(pos))
      ensures w == input[old(pos)..pos]
    {
      var start := pos;
      while pos < |input| && IsAlphanumeric(input[pos])
        invariant start <= pos <= |input|
        invariant WordEnd(input, pos) == WordEnd(input, start)
        decreases |input| - pos
      {
        pos := pos + 1;
      }
      w := input[start..pos];
    }

    /** `peek`: the character after the cursor, without moving it. */
    function Peek(): (r: Option<char>)
      reads this
      ensures r.Some? <==> pos + 1 < |input|
      ensures r.Some? ==> r.value == input[pos + 1]
    {
      CharAfter(input, pos)
    }
  }
}
