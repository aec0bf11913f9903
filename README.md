# A verified model of a small interpreter's lexer, parser and evaluator

The interpreter runs a tiny imperative language: integer variables, `print`,
`if … end` and `while … end`, and the operators `+ - * / == < >` with the
usual precedence. Its pipeline lives in two files:

- `src/lexer.rs` is a scanner over a character array with one cursor `pos`.
  It returns one `Token` per call of `next_token`.
- `src/parser.rs` holds three parts:
  - a recursive-descent `Parser` with one token of lookahead;
  - the trees `Expr` and `Statement`;
  - `Expr::eval` and `Statement::execute` over a `Context` of variables.

The model follows that structure, one module per concern:

| module | file | what it holds |
|---|---|---|
| `Wrappers` | `wrappers.dfy` | `Option` and `Result` |
| `Lexing` | `lexer.dfy` | `Token`; what one call of the scanner does (`Scan`, `TokensFrom`); the class `Lexer`, whose methods advance `pos` with the same loops as the Rust code and are proved to agree with `Scan` |
| `LexingFacts` | `lexer_facts.dfy` | properties of the scanner: sticky end of input, comments, `=` versus `==`, numerals and their `i64` overflow, keywords, unrecognised characters |
| `Syntax` | `syntax.dfy` | `Expr`, `Statement`, the operator classes, well-formedness, free and assigned variables |
| `Evaluation` | `evaluation.dfy` | Rust's truncating `/`; `Eval`; the fuel-indexed semantics `Exec`/`ExecBlock`; the classes `Context` and `Console`; the methods `Execute`/`ExecuteBody`, which update them in place and are proved to agree with `Exec` |
| `EvaluationFacts` | `evaluation_facts.dfy` | properties of evaluation and execution: error cases, evaluation order, frames, `while` exit, fuel monotonicity, no invalid operator in well-formed trees |
| `Grammar` | `grammar.dfy` | the parser as functions on the tokens still unread, with one function per method and one per `while` loop |
| `GrammarFacts` | `grammar_facts.dfy` | a printer `Unparse` for trees and programs; the proof that parsing inverts it; precedence and left associativity; parsed programs are printable; error cases |
| `Leftovers` | `leftovers.dfy` | the parser leaves unread only tokens it was given, so it invents none; a block without `end` is an error |
| `Parsing` | `parser.dfy` | the class `Parser`, whose methods update `current` and pull tokens from a `Lexer`; each is proved to return what the matching `Grammar` function returns |
| `Rendering` | `render.dfy` | tokens written out as text scan back to themselves, so printed programs parse back to themselves from source text |
| `Scenarios` | `scenarios.dfy` | whole programs, from source text to printed output |

A few model choices:

- **Output.** `println!` appends the value to the output sequence of the `State` (in the methods, of a `Console`).
- **Errors.** Syntax and runtime errors are variants, not strings.
- **Non-termination.** Execution takes a fuel bound. A `while` given fuel `f` repeats at most `f` times, and its body runs on one unit less for each pass already made; every statement of a body is given the same fuel. So fuel limits how many times each loop can repeat, counting the loops it sits inside; it does not limit the total number of iterations. A loop that needs more ends the run in `OutOfFuel`, not in an error.
- **Failed runs.** A failed run keeps the variables and output it had reached, as `execute` leaves `ctx` when it returns an error midway.

An unrecognised character is not skipped: `src/lexer.rs:99-102` consumes it
and returns `Token::EOF`, although its comment says invalid symbols are
ignored silently. The parser stops at the first `EOF`, so the rest of the
input is ignored. The model follows the code (`Lexing.Scan`,
`LexingFacts.UnrecognisedCharacterEndsTheStream`).

## Model

| member | source | states |
|---|---|---|
| Lexing.LineEnd | src/lexer.rs:112-116 | a comment reaches the next line break, which it excludes, or the end of the input, and contains no line break |
| Lexing.SkipEnd | src/lexer.rs:107-121 | skipping stops at the end of the input or at a character that is neither whitespace nor `#`, never before the start, and does not move a cursor already on such a character |
| Lexing.DigitRunEnd | src/lexer.rs:126-128 | the digit loop stops at the end of the maximal run of ASCII digits |
| Lexing.WordEnd | src/lexer.rs:137-139 | the identifier loop stops at the end of the maximal alphanumeric run |
| Lexing.ParseI64 | src/lexer.rs:129-130 | `parse::<i64>().unwrap_or(0)` on a digit run: the run's decimal value when it fits in `i64`, otherwise 0, and always within `0..=i64::MAX` |
| Lexing.Keyword | src/lexer.rs:92-97 | a word is `If`, `While` or `End` exactly when it spells `if`, `while` or `end`, and otherwise `Ident` of itself |
| Lexing.CharAfter | src/lexer.rs:144-150 | the character after the cursor exists exactly when `pos + 1 < len`, and is `input[pos + 1]` |
| Lexing.Scan | src/lexer.rs:38-104 | one call never moves the cursor backwards or past the end; it stays put only at the end with `EOF`; every other token ends beyond the skipped whitespace |
| Lexing.TokensFrom | src/lexer.rs:38-104 | the tokens read from a position up to the first `EOF` contain no `EOF` |
| Lexing.Lexer.constructor | src/lexer.rs:30-35 | `Lexer::new` puts the cursor at the first character |
| Lexing.Lexer.NextToken | src/lexer.rs:38-104 | the token returned and the new cursor are the ones `Scan` gives for the old cursor |
| Lexing.Lexer.SkipWhitespace | src/lexer.rs:107-121 | the loop leaves the cursor where `SkipEnd` says: at the end or on a character that is neither whitespace nor `#` |
| Lexing.Lexer.ReadNumber | src/lexer.rs:124-132 | consumes the maximal digit run and returns `Number` of its `ParseI64` value |
| Lexing.Lexer.ReadIdent | src/lexer.rs:135-141 | consumes the maximal alphanumeric run and returns exactly those characters |
| Lexing.Lexer.Peek | src/lexer.rs:144-150 | `peek` gives `input[pos + 1]` when `pos + 1 < len` and `None` otherwise; as a function it cannot move `pos` |
| LexingFacts.EofIsSticky | src/lexer.rs:39-43 | once only whitespace and comments remain, a call returns `EOF` with the cursor at the end, every later call does the same, and no tokens remain |
| LexingFacts.SkipIsIdempotent | src/lexer.rs:107-121 | after skipping there is nothing left to skip |
| LexingFacts.CommentStopsAtLineBreak | src/lexer.rs:112-116 | a `#` comment is consumed up to the next line break, excluding it, and skipping goes on from there |
| LexingFacts.EqualsNeedsOneCharOfLookahead | src/lexer.rs:64-72 | `=` followed by `=` is `DoubleEquals` and advances by 2; any other `=` is `Equals` and advances by 1 |
| LexingFacts.UnrecognisedCharacterEndsTheStream | src/lexer.rs:99-102 | an unrecognised character advances the cursor by exactly one and yields `EOF`, so no tokens follow |
| LexingFacts.NumberCoversDigitRun | src/lexer.rs:124-131 | a digit starts a `Number` that ends at the end of the maximal digit run and whose value is that run's `ParseI64` value |
| LexingFacts.WordIsKeywordOrIdent | src/lexer.rs:90-97 | a letter starts a word covering the maximal alphanumeric run; `if`, `while` and `end` become keywords, any other spelling becomes `Ident` of it |
| LexingFacts.ScanNumeral | src/lexer.rs:124-131 | the decimal numeral of any `n` up to `i64::MAX`, followed by a non-digit, scans as `Number(n)` and consumes exactly the numeral |
| LexingFacts.OverflowingNumeralIsZero | src/lexer.rs:130 | the decimal numeral of any `n` beyond `i64::MAX` scans as `Number(0)` |
| LexingFacts.WordScan | src/lexer.rs:90-97 | a letter at the cursor is scanned as the keyword reclassification of the word that starts there |
| LexingFacts.SkippedIsBlankOrComment | src/lexer.rs:107-121 | every character skipped is whitespace or lies in a `#` comment that has not yet met a line break; skipping never stops inside such a comment |
| LexingFacts.SingleCharacterTokens | src/lexer.rs:48-88 | after skipping, each of `+ - * / < > ( )` is scanned as its token and consumes exactly that character, whatever character follows |
| LexingFacts.TokensFromShift | src/lexer.rs:38-121 | the scanner only reads forward: the tokens from a cursor inside a text equal the tokens of the text's tail from the matching cursor |
| LexingFacts.CommentLineChangesNothing | src/lexer.rs:107-121 | a line holding only a `#` comment, put in front of a text, changes none of the text's tokens |
| Evaluation.TruncDiv | src/parser.rs:40 | the quotient of Rust's `/` on a non-zero divisor: the remainder it leaves has the dividend's sign and is smaller than the divisor in magnitude |
| Evaluation.TruncDivIsTruncation | src/parser.rs:40 | `TruncDiv` is the one quotient whose remainder has the dividend's sign and is smaller than the divisor in magnitude, which is Rust's `/` |
| Evaluation.TruncDivRemainder | src/parser.rs:40 | the remainder left by the absolute quotient, negated when the signs differ, has the dividend's sign and is smaller than the divisor in magnitude |
| Evaluation.TruncatedQuotientIsUnique | src/parser.rs:40 | two quotients that both leave such a remainder are equal |
| Evaluation.Apply | src/parser.rs:32-47 | an operator fails exactly when it is none of the seven binary operators (`InvalidOperator` of it) or is `/` with divisor 0 (`DivisionByZero`); `/` otherwise gives `TruncDiv`; a comparison gives 0 or 1 |
| Evaluation.Eval | src/parser.rs:22-50 | an `UndefinedVariable` error names a free variable of the expression that is unbound; an `InvalidOperator` error names an operator that is not binary |
| Evaluation.Exec | src/parser.rs:68-97 | a run that stops on an undefined variable names one unbound in the state it stopped in; one that stops on an invalid operator names a non-binary operator |
| Evaluation.ExecBlock | src/parser.rs:82-84 | the same for a body run statement by statement, stopping at the first failure |
| Evaluation.Context.GetVariable | src/parser.rs:291-293 | the value bound to the name exactly when the context binds it, and nothing otherwise (no default) |
| Evaluation.Lookup | src/parser.rs:291-293 | a name has a value exactly when it is bound, and that value is its binding; there is no default |
| Evaluation.Context.constructor | src/parser.rs:279-283 | a new context binds no variable |
| Evaluation.Context.SetVariable | src/parser.rs:286-288 | the name is bound to the value afterwards and every other name keeps its binding |
| Evaluation.Console.PrintLine | src/parser.rs:77 | printing appends exactly the value to the output |
| Evaluation.Execute | src/parser.rs:68-97 | running a statement in place returns the status `Exec` prescribes, and leaves the context and output `Exec` prescribes, on success, error and fuel exhaustion |
| Evaluation.ExecuteBody | src/parser.rs:82-84 | running a body statement by statement and stopping at the first failure gives the outcome of `ExecBlock` |
| EvaluationFacts.IdentNeedsBinding | src/parser.rs:25-28 | a name evaluates to its binding when it is bound and to `UndefinedVariable(name)` otherwise |
| EvaluationFacts.LeftOperandFirst | src/parser.rs:29-31 | a binary node evaluates its left operand first, and its error is the result; then the right one, and its error is the result; then the operator |
| EvaluationFacts.DivisionRoundsTowardZero | src/parser.rs:36-42 | dividing by zero is `DivisionByZero`; otherwise the result is the quotient rounded toward zero |
| EvaluationFacts.ComparisonsYieldZeroOrOne | src/parser.rs:43-45 | `==`, `<` and `>` yield 1 when the comparison holds and 0 otherwise |
| EvaluationFacts.ComparisonApplies | src/parser.rs:43-45 | a comparison operator applied to two values is 1 exactly when it holds and 0 otherwise |
| EvaluationFacts.OnlyBinaryOperatorsApply | src/parser.rs:32-46 | an operator is rejected with `InvalidOperator` exactly when it is not one of the seven binary operators |
| EvaluationFacts.WellFormedHasNoInvalidOperator | src/parser.rs:46 | a tree whose operators are all binary operators never evaluates to `InvalidOperator` |
| EvaluationFacts.EvalReadsFreeVars | src/parser.rs:22-50 | evaluation depends only on the bindings of the expression's free variables |
| EvaluationFacts.UndefinedVariablesAreFree | src/parser.rs:25-31 | evaluation succeeds only when every free variable is bound, and an undefined-variable error names an unbound free variable |
| EvaluationFacts.AssignmentBindsOnlyItsTarget | src/parser.rs:70-74 | a successful assignment binds its target to the value and changes nothing else; a failing one leaves the state untouched and reports the error |
| EvaluationFacts.PrintAppendsValue | src/parser.rs:75-79 | `print` appends exactly the value to the output and changes no variable; a failing one changes nothing |
| EvaluationFacts.IfRunsBodyOnNonZero | src/parser.rs:80-87 | an `if` whose condition is 0 changes nothing; otherwise its body runs |
| EvaluationFacts.BlockConcatenation | src/parser.rs:82-84 | running two bodies in sequence runs the first and then, only if it completed, the second |
| EvaluationFacts.BlockStopsAtFirstFailure | src/parser.rs:82-84 | once a prefix of a body fails, the statements after it do not run |
| EvaluationFacts.WhileExitsOnZero | src/parser.rs:88-95 | a `while` that completes leaves its condition evaluating to 0 in the final state |
| EvaluationFacts.ExecFrame | src/parser.rs:68-97 | unless fuel runs out, a statement changes only the variables it assigns, unbinds none, and only appends to the output, on success and on error |
| EvaluationFacts.ExecBlockFrame | src/parser.rs:82-84 | the same for a body and the variables its statements assign |
| EvaluationFacts.ExecFuelMonotone | src/parser.rs:88-95 | an outcome reached with some fuel is reached with any more fuel: fuel only bounds the run |
| EvaluationFacts.ExecBlockFuelMonotone | src/parser.rs:82-84 | the same for a body |
| EvaluationFacts.WellFormedExecHasNoInvalidOperator | src/parser.rs:68-97 | a statement whose expressions are well formed never stops with `InvalidOperator` |
| EvaluationFacts.WellFormedBlockHasNoInvalidOperator | src/parser.rs:82-84 | the same for a body |
| Grammar.ParseExpression | src/parser.rs:180-182 | an accepted expression consumes at least one token and is well formed |
| Grammar.ParseComparison | src/parser.rs:185-203 | an accepted comparison consumes at least one token and is well formed |
| Grammar.ComparisonLoop | src/parser.rs:188-200 | the loop never adds tokens and keeps the tree well formed |
| Grammar.ParseTerm | src/parser.rs:206-221 | an accepted term consumes at least one token and is well formed |
| Grammar.TermLoop | src/parser.rs:209-218 | the loop never adds tokens and keeps the tree well formed |
| Grammar.ParseFactor | src/parser.rs:224-239 | an accepted factor consumes at least one token and is well formed |
| Grammar.FactorLoop | src/parser.rs:227-236 | the loop never adds tokens and keeps the tree well formed |
| Grammar.ParsePrimary | src/parser.rs:242-265 | an accepted primary consumes at least one token and is well formed |
| Grammar.ParseStatement | src/parser.rs:132-163 | every successful `parse_statement` consumes at least one token and yields a well-formed statement |
| Grammar.ParseBlock | src/parser.rs:166-177 | an accepted block consumes at least its `end` and holds well-formed statements |
| Grammar.BlockLoop | src/parser.rs:168-176 | the loop consumes at least the `end` and keeps the statements well formed |
| Grammar.ParseStatements | src/parser.rs:123-129 | an accepted program stops at `EOF` and holds well-formed statements |
| Grammar.ProgramLoop | src/parser.rs:125-127 | the loop stops at `EOF` and keeps the statements well formed |
| GrammarFacts.ComparisonRoundTrip | src/parser.rs:185-203 | `parse_comparison` on a printed tree reads its operands back and continues the loop with the tree |
| GrammarFacts.TermRoundTrip | src/parser.rs:206-221 | `parse_term` on a printed tree at the additive level reads the tree back |
| GrammarFacts.FactorRoundTrip | src/parser.rs:224-239 | `parse_factor` on a printed tree at the multiplicative level reads the tree back |
| GrammarFacts.PrimaryRoundTrip | src/parser.rs:242-265 | `parse_primary` reads back a number, a name, or a parenthesised tree |
| GrammarFacts.ExpressionRoundTrip | src/parser.rs:180-239 | parsing a printed well-formed tree, followed by any token that is no operator, gives the tree back and stops in front of that token |
| GrammarFacts.WholeExpressionRoundTrip | src/parser.rs:180-182 | parsing a printed well-formed tree consumes it all and gives the tree back |
| GrammarFacts.LeftAssociative | src/parser.rs:185-239 | two operators of the same level group to the left: `a - b - c` is `(a - b) - c` |
| GrammarFacts.TighterBindsFirst | src/parser.rs:185-239 | a tighter operator on the right groups first: `a + b * c` is `a + (b * c)` |
| GrammarFacts.TighterBindsFirstOnTheLeft | src/parser.rs:185-239 | a tighter operator on the left groups first: `a * b + c` is `(a * b) + c` |
| GrammarFacts.StatementRoundTrip | src/parser.rs:132-163 | `parse_statement` reads a printed statement back and stops where the next statement, `end` or `EOF` starts |
| GrammarFacts.AssignmentRoundTrip | src/parser.rs:139-148 | a name other than `print`, `=` and an expression read back as that assignment |
| GrammarFacts.PrintRoundTrip | src/parser.rs:134-138 | the name `print` and an expression read back as a `print` statement |
| GrammarFacts.HeaderAndBodyRoundTrip | src/parser.rs:149-160 | the condition of an `if` or `while` and its body up to `end` are read back |
| GrammarFacts.BlockRoundTrip | src/parser.rs:166-177 | `parse_block` reads a printed body back, consuming its `end` |
| GrammarFacts.ProgramLoopRoundTrip | src/parser.rs:123-129 | the loop of `parse_statements` reads a printed program back, to the last token |
| GrammarFacts.ProgramRoundTrip | src/parser.rs:123-129 | `parse_statements` is a left inverse of printing on programs the parser can produce |
| GrammarFacts.ParsedStatementIsPrintable | src/parser.rs:132-163 | every statement the parser accepts is one printing represents faithfully |
| GrammarFacts.ParsedBlockIsPrintable | src/parser.rs:166-177 | the same for every block |
| GrammarFacts.ParsedProgramIsPrintable | src/parser.rs:123-129 | the same for every program, so the round trip covers all parsed programs |
| GrammarFacts.UnendedBlock | src/parser.rs:168-176 | a printed body that runs into `EOF` without `end` is rejected with `ExpectedEnd` |
| GrammarFacts.AssignmentNeedsEquals | src/parser.rs:139-144 | a statement starting with a name other than `print` and not followed by `=` is rejected with `ExpectedEquals` |
| GrammarFacts.NothingAfterEof | src/parser.rs:123-177 | at `EOF`: a program is empty, a statement is invalid, a block lacks `end`, and an expression meets an unexpected token |
| Leftovers.ExpressionKeepsOut | src/parser.rs:180-182 | a token absent from the input is absent from what `parse_expression` leaves unread |
| Leftovers.ComparisonKeepsOut | src/parser.rs:185-203 | the same for `parse_comparison` |
| Leftovers.ComparisonLoopKeepsOut | src/parser.rs:188-200 | the same for its loop |
| Leftovers.TermKeepsOut | src/parser.rs:206-221 | the same for `parse_term` |
| Leftovers.TermLoopKeepsOut | src/parser.rs:209-218 | the same for its loop |
| Leftovers.FactorKeepsOut | src/parser.rs:224-239 | the same for `parse_factor` |
| Leftovers.FactorLoopKeepsOut | src/parser.rs:227-236 | the same for its loop |
| Leftovers.PrimaryKeepsOut | src/parser.rs:242-265 | the same for `parse_primary` |
| Leftovers.StatementKeepsOut | src/parser.rs:132-163 | the same for `parse_statement` |
| Leftovers.HeaderAndBlockKeepOut | src/parser.rs:149-160 | the same for the condition and body of `if` and `while` |
| Leftovers.BlockKeepsOut | src/parser.rs:166-177 | the same for `parse_block` |
| Leftovers.BlockLoopKeepsOut | src/parser.rs:168-176 | the same for its loop |
| Leftovers.BlockNeedsEnd | src/parser.rs:166-177 | `parse_block` on tokens without `end` fails: reaching `EOF` before `end` is an error |
| Leftovers.ProgramKeepsOut | src/parser.rs:123-129 | a token absent from the input is absent from what `parse_statements` leaves: the parser invents no token |
| Parsing.Parse | src/parser.rs:112-129 | every program parsed from source text is well formed |
| Parsing.Parser.constructor | src/parser.rs:112-115 | `Parser::new` reads the first token, so the tokens still to read are all those of the lexer |
| Parsing.Parser.Advance | src/parser.rs:118-120 | the next token replaces `current` and exactly one token is consumed; it is only called on a `current` other than `EOF`, so the parser never advances past `EOF` |
| Parsing.Parser.ParseStatements | src/parser.rs:123-129 | the method returns what `Grammar.ParseStatements` returns on the unread tokens, and leaves unread what it leaves |
| Parsing.Parser.ParseStatement | src/parser.rs:132-163 | the same against `Grammar.ParseStatement` |
| Parsing.Parser.ParseBlock | src/parser.rs:166-177 | the same against `Grammar.ParseBlock` |
| Parsing.Parser.ParseExpression | src/parser.rs:180-182 | the same against `Grammar.ParseExpression` |
| Parsing.Parser.ParseComparison | src/parser.rs:185-203 | the same against `Grammar.ParseComparison` |
| Parsing.Parser.ParseTerm | src/parser.rs:206-221 | the same against `Grammar.ParseTerm` |
| Parsing.Parser.ParseFactor | src/parser.rs:224-239 | the same against `Grammar.ParseFactor` |
| Parsing.Parser.ParsePrimary | src/parser.rs:242-265 | the same against `Grammar.ParsePrimary` |
| Parsing.ParseSource | src/main.rs:99-102 | building a lexer and a parser on source text and calling `parse_statements` gives `Parse` of the text |
| Rendering.ScanSpelling | src/lexer.rs:38-104 | the scanner reads any token back from its spelling when a space or the end of the input follows it |
| Rendering.KeywordAt | src/lexer.rs:90-97 | `if`, `while` and `end` followed by a space or the end scan as their keywords |
| Rendering.SpaceIsSkipped | src/lexer.rs:107-111 | a space in front of the cursor changes nothing the scanner returns |
| Rendering.TokensOfSpacedOut | src/lexer.rs:38-104 | tokens written out, each after a space, scan back to those tokens |
| Rendering.RenderRoundTrip | src/lexer.rs:38-104 | the scanner inverts writing tokens out with spaces between them |
| Rendering.SourceRoundTrip | src/main.rs:99-102 | a program printed as source text parses back to itself |
| Scenarios.Interpret | src/main.rs:98-107 | a syntax error is reported exactly when parsing fails; otherwise the outcome is that of running the program from no variables and no output, and it never stops on an invalid operator |
| Scenarios.PrintNumeral | src/parser.rs:75-79 | `print n` prints `n` |
| Scenarios.ProductBindsTighter | src/parser.rs:206-239 | `print a + b * c` prints `a + b * c` computed with `*` first |
| Scenarios.ParenthesesOverride | src/parser.rs:254-262 | `print (a + b) * c` prints `(a + b) * c` |
| Scenarios.ComparisonChaining | src/parser.rs:185-203 | `a < b < c` compares the 0 or 1 of `a < b` with `c` |
| Scenarios.DivisionByZeroFails | src/parser.rs:36-38 | `print a / 0` fails with `DivisionByZero` before anything is printed |
| Scenarios.UnboundNameFails | src/parser.rs:25-28 | printing a name nothing has assigned fails with `UndefinedVariable` |
| Scenarios.Conditional | src/parser.rs:80-87 | `if c print n end` prints `n` exactly when `c` is not 0 |
| Scenarios.CountBodyStep | src/parser.rs:70-79 | the body `print x x = x + 1` prints `x` and increments it |
| Scenarios.CountLoopRuns | src/parser.rs:88-95 | from `x == n`, `while x < k` prints `n` to `k - 1` and stops with `x == k` |
| Scenarios.CountingProgramRuns | src/parser.rs:88-95 | `x = 0 while x < k print x x = x + 1 end` prints `0` to `k - 1` and leaves `x` at `k` |
| Scenarios.CountingLoop | src/parser.rs:88-95 | the same from the program's source text |
| Scenarios.UnterminatedBlockParse | src/parser.rs:166-177 | `if c print n` without `end` is rejected with `ExpectedEnd` |
| Scenarios.UnterminatedBlock | src/parser.rs:171-176 | that text is a syntax error, so nothing runs |

## Left out

- The GUI in `src/main.rs` is presentation only: the window, the input history, colours and styles.
- The driver `interpretar` (`src/main.rs:98`) formats strings and prints a completion message; neither is modelled. It also calls `execute` with two arguments, which does not match the one-argument `execute` of `src/parser.rs:68`. `Scenarios.Interpret` models only parsing, then execution from a fresh context.
- Writing to stdout is modelled as appending the value to an output sequence; the text formatting of the value is not modelled.
- Native `i64` overflow in `+`, `-`, `*` and `i64::MIN / -1` is not modelled: values are unbounded integers. Rust panics on these in debug builds and wraps in release builds. Numerals are bounded, since the scanner turns one beyond `i64::MAX` into 0.
- `char::is_alphanumeric` (`src/lexer.rs:137`) is modelled on ASCII letters and digits only; a word starts with an ASCII letter in the source too. In the model a non-ASCII letter inside an identifier ends the identifier and is then scanned as an unrecognised character, that is as `EOF`, which ends the whole token stream. So `abé = 1` is read as the single token `Ident("ab")` and rejected with `ExpectedEquals`, where the source reads `Ident("abé")`, `Equals`, `Number(1)` and assigns. `char::is_whitespace` is modelled exactly.
- Error messages are variants. The Spanish message text is not modelled.
- A `while` that does not terminate cannot be run to the end. Execution takes a fuel bound that limits how many times each loop repeats, counting the loops it sits inside (not the total number of iterations), and reports `OutOfFuel` when a loop needs more. Fuel only bounds the run (`EvaluationFacts.ExecFuelMonotone`).
- Line counting is not modelled. The code does not track lines, and its errors carry no position.
- `Grammar.ParseStatement`: like every `Grammar` parsing function, its contract states only that the unread tokens are fewer than the tokens given, plus well-formedness. That the unread tokens come from the input is stated separately in `Leftovers`, token by token. That they form a suffix of the input is not stated.
- `GrammarFacts.Unparse`, `UnparseStatement`, `UnparseBlock` and `Rendering.Render` have no counterpart in the source. They exist to state the round trips and the whole-program scenarios.
