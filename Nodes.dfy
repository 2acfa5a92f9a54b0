/**
 * The abstract syntax tree the parser builds and the evaluator walks. Every
 * node is an immutable value, so each node sort is a datatype; the visitor's
 * double dispatch becomes a `match` over these constructors.
 */
module Nodes {
  import opened Longs

  /** Arithmetic expressions over 64-bit values. */
  datatype AlgebraicExpression =
    | SumExpression(left: AlgebraicExpression, right: AlgebraicExpression)
    | MinusExpression(left: AlgebraicExpression, right: AlgebraicExpression)
    | DivisionExpression(left: AlgebraicExpression, right: AlgebraicExpression)
    | MultiplicationExpression(left: AlgebraicExpression, right: AlgebraicExpression)
    | NumberLiteral(value: Long)
    | NumericVariable(name: string)

  /** The six comparisons of two arithmetic expressions. */
  datatype Relation =
    | EqualsRelation(left: AlgebraicExpression, right: AlgebraicExpression)
    | NotEqualsRelation(left: AlgebraicExpression, right: AlgebraicExpression)
    | SmallerThanRelation(left: AlgebraicExpression, right: AlgebraicExpression)
    | GreaterThanRelation(left: AlgebraicExpression, right: AlgebraicExpression)
    | SmallerThanOrEqualRelation(left: AlgebraicExpression, right: AlgebraicExpression)
    | GreaterThanOrEqualRelation(left: AlgebraicExpression, right: AlgebraicExpression)

  /** Boolean expressions; a relation is one of them. */
  datatype BooleanExpression =
    | AndExpression(left: BooleanExpression, right: BooleanExpression)
    | OrExpression(left: BooleanExpression, right: BooleanExpression)
    | NotExpression(expr: BooleanExpression)
    | BooleanConstant(value: bool)
    | RelationExpression(relation: Relation)

  /** Statements; bodies and branches are ordered statement lists. */
  datatype Statement =
    | AssignStatement(variable: string, expr: AlgebraicExpression)
    | LoopStatement(condition: BooleanExpression, body: seq<Statement>)
    | ConditionalStatement(condition: BooleanExpression, thenStmt: seq<Statement>, elseStmt: seq<Statement>)
    | ReadStatment(varList: seq<string>)
    | WriteStatement(varList: seq<string>)
    | SkipStatement

  /** The root: the top-level statements in source order. */
  datatype Program = Program(statements: seq<Statement>)

  /** The variable names an arithmetic expression reads. */
  function Names(e: AlgebraicExpression): set<string>
  {
    match e
    case NumberLiteral(_) => {}
    case NumericVariable(n) => {n}
    case SumExpression(l, r) => Names(l) + Names(r)
    case MinusExpression(l, r) => Names(l) + Names(r)
    case DivisionExpression(l, r) => Names(l) + Names(r)
    case MultiplicationExpression(l, r) => Names(l) + Names(r)
  }

  /** The variable names a relation reads. */
  function RelationNames(r: Relation): set<string>
  {
    Names(r.left) + Names(r.right)
  }

  /** The variable names a boolean expression may read. */
  function BooleanNames(b: BooleanExpression): set<string>
  {
    match b
    case BooleanConstant(_) => {}
    case NotExpression(x) => BooleanNames(x)
    case AndExpression(l, r) => BooleanNames(l) + BooleanNames(r)
    case OrExpression(l, r) => BooleanNames(l) + BooleanNames(r)
    case RelationExpression(rel) => RelationNames(rel)
  }

  /** Number of nodes of an arithmetic expression. */
  function Size(e: AlgebraicExpression): (n: nat)
    ensures n >= 1
    ensures e.NumberLiteral? || e.NumericVariable? <==> n == 1
    ensures !(e.NumberLiteral? || e.NumericVariable?) ==> Size(e.left) < n && Size(e.right) < n
  {
    match e
    case NumberLiteral(_) => 1
    case NumericVariable(_) => 1
    case SumExpression(l, r) => 1 + Size(l) + Size(r)
    case MinusExpression(l, r) => 1 + Size(l) + Size(r)
    case DivisionExpression(l, r) => 1 + Size(l) + Size(r)
    case MultiplicationExpression(l, r) => 1 + Size(l) + Size(r)
  }
}
