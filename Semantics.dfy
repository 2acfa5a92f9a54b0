/**
 * What running a program means, as functions: expressions evaluate to a value
 * or to the exception they raise; statements transform a configuration (the
 * variables, the unread input lines, the printed values and the leftover
 * booleans a finished loop leaves behind) or stop it with an exception.
 */
module Semantics {
  import opened Results
  import opened Longs
  import opened Texts
  import opened Nodes

  /** The exceptions a running program can raise. */
  datatype RuntimeError =
    | VariableNotDefined(name: string)
    | InvalidIntegerValue(text: string)
    | DivisionByZero
    | InputExhausted
    | OutOfFuel

  /**
   * The interpreter's observable state: `vars` the variable map, `input` the
   * lines not yet read, `output` the values written so far, `bools` the
   * boolean stack between statements.
   */
  datatype Config = Config(vars: map<string, Long>, input: seq<string>, output: seq<Long>, bools: seq<bool>)

  /** A statement's completion: normal with the new configuration, or abrupt with the exception and the configuration when it was raised. */
  datatype Exec = Normal(config: Config) | Abrupt(error: RuntimeError, config: Config)

  /** The value of an arithmetic expression, left operand first; 64-bit wrap-around, truncating division. */
  function EvalA(e: AlgebraicExpression, vars: map<string, Long>): Result<Long, RuntimeError>
  {
    match e
    case NumberLiteral(v) => Ok(v)
    case NumericVariable(n) => if n in vars then Ok(vars[n]) else Err(VariableNotDefined(n))
    case SumExpression(l, r) =>
      var a :- EvalA(l, vars);
      var b :- EvalA(r, vars);
      Ok(Plus(a, b))
    case MinusExpression(l, r) =>
      var a :- EvalA(l, vars);
      var b :- EvalA(r, vars);
      Ok(Minus(a, b))
    case MultiplicationExpression(l, r) =>
      var a :- EvalA(l, vars);
      var b :- EvalA(r, vars);
      Ok(Times(a, b))
    case DivisionExpression(l, r) =>
      var a :- EvalA(l, vars);
      var b :- EvalA(r, vars);
      match Divide(a, b)
      case None => Err(DivisionByZero)
      case Some(q) => Ok(q)
  }

  /** The outcome of comparing the two sides of a relation. */
  function Compare(rel: Relation, a: Long, b: Long): bool
  {
    match rel
    case EqualsRelation(_, _) => a == b
    case NotEqualsRelation(_, _) => a != b
    case SmallerThanRelation(_, _) => a < b
    case GreaterThanRelation(_, _) => a > b
    case SmallerThanOrEqualRelation(_, _) => a <= b
    case GreaterThanOrEqualRelation(_, _) => a >= b
  }

  /** The value of a boolean expression; `and` and `or` skip their right operand once the left decides. */
  function EvalB(b: BooleanExpression, vars: map<string, Long>): Result<bool, RuntimeError>
  {
    match b
    case BooleanConstant(v) => Ok(v)
    case NotExpression(x) =>
      var v :- EvalB(x, vars);
      Ok(!v)
    case AndExpression(l, r) =>
      var v :- EvalB(l, vars);
      if !v then Ok(false) else EvalB(r, vars)
    case OrExpression(l, r) =>
      var v :- EvalB(l, vars);
      if v then Ok(true) else EvalB(r, vars)
    case RelationExpression(rel) =>
      var x :- EvalA(rel.left, vars);
      var y :- EvalA(rel.right, vars);
      Ok(Compare(rel, x, y))
  }

  /** `read`: each name takes the next input line, trimmed, as a decimal Long, bound before the next line is read. */
  function ReadVars(names: seq<string>, c: Config): Exec
    decreases |names|
  {
    if |names| == 0 then Normal(c)
    else if |c.input| == 0 then Abrupt(InputExhausted, c)
    else
      var text := Trim(c.input[0]);
      match ToLongOrNull(text)
      case None => Abrupt(InvalidIntegerValue(text), c.(input := c.input[1..]))
      case Some(v) => ReadVars(names[1..], c.(vars := c.vars[names[0] := v], input := c.input[1..]))
  }

  /** `write`: prints each name's value in order; an undefined name stops at that point. */
  function WriteVars(names: seq<string>, c: Config): Exec
    decreases |names|
  {
    if |names| == 0 then Normal(c)
    else if names[0] !in c.vars then Abrupt(VariableNotDefined(names[0]), c)
    else WriteVars(names[1..], c.(output := c.output + [c.vars[names[0]]]))
  }

  /**
   * One statement. `fuel` bounds how many times any single loop activation
   * may run its body; a loop that needs more stops with `OutOfFuel`.
   */
  function ExecStmt(s: Statement, c: Config, fuel: nat): Exec
    decreases s, 0, 0
  {
    match s
    case SkipStatement => Normal(c)
    case AssignStatement(x, e) =>
      (match EvalA(e, c.vars)
       case Err(err) => Abrupt(err, c)
       case Ok(v) => Normal(c.(vars := c.vars[x := v])))
    case ConditionalStatement(cond, thenPart, elsePart) =>
      (match EvalB(cond, c.vars)
       case Err(err) => Abrupt(err, c)
       case Ok(v) => if v then ExecList(thenPart, c, fuel) else ExecList(elsePart, c, fuel))
    case LoopStatement(cond, body) => Loop(cond, body, c, fuel, fuel)
    case ReadStatment(names) => ReadVars(names, c)
    case WriteStatement(names) => WriteVars(names, c)
  }

  /** A statement list, in order, stopping at the first exception. */
  function ExecList(ss: seq<Statement>, c: Config, fuel: nat): Exec
    decreases ss, 0, 0
  {
    if |ss| == 0 then Normal(c)
    else
      match ExecStmt(ss[0], c, fuel)
      case Abrupt(err, c') => Abrupt(err, c')
      case Normal(c') => ExecList(ss[1..], c', fuel)
  }

  /** A loop at its head: evaluates the condition, then lets `LoopTest` act on it; `k` iterations remain. */
  function Loop(cond: BooleanExpression, body: seq<Statement>, c: Config, fuel: nat, k: nat): Exec
    decreases body, k, 1
  {
    match EvalB(cond, c.vars)
    case Err(err) => Abrupt(err, c)
    case Ok(v) => LoopTest(v, cond, body, c, fuel, k)
  }

  /**
   * A loop with the condition's value `v` on top of the boolean stack: false
   * ends the loop and stays on the stack; true is popped and the body runs.
   */
  function LoopTest(v: bool, cond: BooleanExpression, body: seq<Statement>, c: Config, fuel: nat, k: nat): Exec
    decreases body, k, 0
  {
    if !v then Normal(c.(bools := c.bools + [false]))
    else if k == 0 then Abrupt(OutOfFuel, c)
    else
      match ExecList(body, c, fuel)
      case Abrupt(err, c') => Abrupt(err, c')
      case Normal(c') => Loop(cond, body, c', fuel, k - 1)
  }

  /** A whole run: a fresh interpreter with no variables over the given input lines. */
  function Run(p: Program, input: seq<string>, fuel: nat): Exec
  {
    ExecList(p.statements, Config(map[], input, [], []), fuel)
  }
}
