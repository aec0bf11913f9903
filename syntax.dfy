/** The abstract syntax of src/parser.rs: expressions and statements are
    immutable trees whose subtrees belong to their parent. */
module Syntax {
  import Lexing

  type Token = Lexing.Token

  /** `enum Expr`. The operator of a `Binary` node is the token that spelled it. */
  datatype Expr =
    | Number(value: int)
    | Ident(name: string)
    | Binary(left: Expr, op: Token, right: Expr)

  /** `enum Statement`. */
  datatype Statement =
    | Assign(target: string, value: Expr)
    | Print(arg: Expr)
    | If(cond: Expr, body: seq<Statement>)
    | While(cond: Expr, body: seq<Statement>)

  /** The comparison operators `==`, `<` and `>`. */
  predicate IsComparison(t: Token) {
    t == Lexing.DoubleEquals || t == Lexing.LessThan || t == Lexing.GreaterThan
  }

  /** The additive operators `+` and `-`. */
  predicate IsAdditive(t: Token) {
    t == Lexing.Plus || t == Lexing.Minus
  }

  /** The multiplicative operators `*` and `/`. */
  predicate IsMultiplicative(t: Token) {
    t == Lexing.Star || t == Lexing.Slash
  }

  /** The seven tokens the grammar puts between two operands. */
  predicate IsBinaryOperator(t: Token) {
    IsComparison(t) || IsAdditive(t) || IsMultiplicative(t)
  }

  /** Every operator in the tree is one of the seven binary operators. */
  predicate WellFormed(e: Expr) {
    match e
    case Number(_) => true
    case Ident(_) => true
    case Binary(l, op, r) => IsBinaryOperator(op) && WellFormed(l) && WellFormed(r)
  }

  /** Every expression in the statement is well formed. */
  predicate WellFormedStatement(s: Statement) {
    match s
    case Assign(_, e) => WellFormed(e)
    case Print(e) => WellFormed(e)
    case If(c, body) => WellFormed(c) && WellFormedBlock(body)
    case While(c, body) => WellFormed(c) && WellFormedBlock(body)
  }

  predicate WellFormedBlock(b: seq<Statement>) {
    forall i :: 0 <= i < |b| ==> WellFormedStatement(b[i])
  }

  /** The variables an expression reads. */
  function FreeVars(e: Expr): set<string> {
    match e
    case Number(_) => {}
    case Ident(x) => {x}
    case Binary(l, _, r) => FreeVars(l) + FreeVars(r)
  }

  /** The variables a statement may assign. */
  function Assigned(s: Statement): set<string> {
    match s
    case Assign(x, _) => {x}
    case Print(_) => {}
    case If(_, body) => AssignedBlock(body)
    case While(_, body) => AssignedBlock(body)
  }

  function AssignedBlock(b: seq<Statement>): set<string> {
    if b == [] then {} else Assigned(b[0]) + AssignedBlock(b[1..])
  }
}
