/**
 * The tree-walking interpreter object: a variable map and two operand stacks
 * that the visit methods update in place, post-order, exactly as the visitor
 * does. Each method is proved against the functions of `Semantics`: an
 * expression leaves its value on top of its stack, a statement leaves the
 * configuration `ExecStmt` computes. An exception becomes a `Fail` outcome.
 */
module Interpreter {
  import opened Results
  import opened Longs
  import opened Texts
  import opened Nodes
  import opened Semantics

  class InterpretVisitor {
    var variables: map<string, Long>
    var arithmeticStack: seq<Long>
    var booleanStack: seq<bool>
    /** The console lines not yet read. */
    var input: seq<string>
    /** The values printed so far, one `Output:` line each. */
    var output: seq<Long>
    /** How many times one loop activation may run its body. */
    const fuel: nat

    constructor (input: seq<string>, fuel: nat)
      ensures variables == map[] && arithmeticStack == [] && booleanStack == []
      ensures this.input == input && output == [] && this.fuel == fuel
    {
      variables := map[];
      arithmeticStack := [];
      booleanStack := [];
      this.input := input;
      output := [];
      this.fuel := fuel;
    }

    ghost function Current(): Config
      reads this
    {
      Config(variables, input, output, booleanStack)
    }

    /**
     * The object reflects completion `x`: after a normal completion the whole
     * configuration and the untouched arithmetic stack `stack`; after an
     * exception the variables, input and output at the time it was raised.
     */
    ghost predicate Completed(o: Outcome<RuntimeError>, x: Exec, stack: seq<Long>)
      reads this
    {
      match x
      case Normal(c) => o == Pass && Current() == c && arithmeticStack == stack
      case Abrupt(err, c) => o == Fail(err) && variables == c.vars && input == c.input && output == c.output
    }

    /** `getVar`: the value bound to `name`, or VariableNotDefined. */
    method GetVar(name: string) returns (r: Result<Long, RuntimeError>)
      ensures r == EvalA(NumericVariable(name), variables)
    {
      if name !in variables {
        return Err(VariableNotDefined(name));
      }
      return Ok(variables[name]);
    }

    /** Visits an arithmetic expression: on success its value is pushed and nothing else changes. */
    method VisitAlgebraic(e: AlgebraicExpression) returns (o: Outcome<RuntimeError>)
      modifies this
      ensures variables == old(variables) && input == old(input) && output == old(output)
      ensures match EvalA(e, variables)
              case Ok(v) => o == Pass && arithmeticStack == old(arithmeticStack) + [v] && booleanStack == old(booleanStack)
              case Err(err) => o == Fail(err)
      decreases e, 1
    {
      match e
      case NumberLiteral(v) =>
        arithmeticStack := arithmeticStack + [v];
        return Pass;
      case NumericVariable(name) =>
        var value := GetVar(name);
        if value.Err? {
          return Fail(value.error);
        }
        arithmeticStack := arithmeticStack + [value.value];
        return Pass;
      case _ =>
        o := VisitArithmetic(e);
    }

    /** `visitArithmetic`: both operands, then pops right and left and pushes the combination. */
    method VisitArithmetic(e: AlgebraicExpression) returns (o: Outcome<RuntimeError>)
      requires !(e.NumberLiteral? || e.NumericVariable?)
      modifies this
      ensures variables == old(variables) && input == old(input) && output == old(output)
      ensures match EvalA(e, variables)
              case Ok(v) => o == Pass && arithmeticStack == old(arithmeticStack) + [v] && booleanStack == old(booleanStack)
              case Err(err) => o == Fail(err)
      decreases e, 0
    {
      o := VisitAlgebraic(e.left);
      if o.Fail? {
        return;
      }
      :- VisitAlgebraic(e.right);
      var right := arithmeticStack[|arithmeticStack| - 1];
      var left := arithmeticStack[|arithmeticStack| - 2];
      arithmeticStack := arithmeticStack[..|arithmeticStack| - 2];
      var value: Long;
      match e {
        case SumExpression(_, _) => value := Plus(left, right);
        case MinusExpression(_, _) => value := Minus(left, right);
        case MultiplicationExpression(_, _) => value := Times(left, right);
        case DivisionExpression(_, _) =>
          if right == 0 {
            return Fail(DivisionByZero);
          }
          value := Divide(left, right).value;
      }
      arithmeticStack := arithmeticStack + [value];
      return Pass;
    }

    /** Visits a boolean expression: on success its value is pushed and nothing else changes. */
    method VisitBoolean(b: BooleanExpression) returns (o: Outcome<RuntimeError>)
      modifies this
      ensures variables == old(variables) && input == old(input) && output == old(output)
      ensures match EvalB(b, variables)
              case Ok(v) => o == Pass && booleanStack == old(booleanStack) + [v] && arithmeticStack == old(arithmeticStack)
              case Err(err) => o == Fail(err)
      decreases b, 1
    {
      match b
      case BooleanConstant(v) =>
        booleanStack := booleanStack + [v];
        return Pass;
      case NotExpression(x) =>
        :- VisitBoolean(x);
        var v := booleanStack[|booleanStack| - 1];
        booleanStack := booleanStack[..|booleanStack| - 1] + [!v];
        return Pass;
      case AndExpression(_, _) =>
        o := VisitShortCircuit(b, false);
      case OrExpression(_, _) =>
        o := VisitShortCircuit(b, true);
      case RelationExpression(rel) =>
        o := VisitRelation(rel);
    }

    /**
     * `visitBoolean`: the left operand; if it equals `earlyReturnOn` it is the
     * result, else the right operand too and their conjunction or disjunction.
     */
    method VisitShortCircuit(b: BooleanExpression, earlyReturnOn: bool) returns (o: Outcome<RuntimeError>)
      requires (b.AndExpression? && !earlyReturnOn) || (b.OrExpression? && earlyReturnOn)
      modifies this
      ensures variables == old(variables) && input == old(input) && output == old(output)
      ensures match EvalB(b, variables)
              case Ok(v) => o == Pass && booleanStack == old(booleanStack) + [v] && arithmeticStack == old(arithmeticStack)
              case Err(err) => o == Fail(err)
      decreases b, 0
    {
      o := VisitBoolean(b.left);
      if o.Fail? {
        return;
      }
      if booleanStack[|booleanStack| - 1] == earlyReturnOn {
        booleanStack := booleanStack[..|booleanStack| - 1] + [earlyReturnOn];
        return Pass;
      }
      :- VisitBoolean(b.right);
      var right := booleanStack[|booleanStack| - 1];
      var left := booleanStack[|booleanStack| - 2];
      booleanStack := booleanStack[..|booleanStack| - 2];
      booleanStack := booleanStack + [if b.AndExpression? then left && right else left || right];
      return Pass;
    }

    /** `visitRelation`: both sides, then pops right and left and pushes the comparison. */
    method VisitRelation(rel: Relation) returns (o: Outcome<RuntimeError>)
      modifies this
      ensures variables == old(variables) && input == old(input) && output == old(output)
      ensures match EvalB(RelationExpression(rel), variables)
              case Ok(v) => o == Pass && booleanStack == old(booleanStack) + [v] && arithmeticStack == old(arithmeticStack)
              case Err(err) => o == Fail(err)
      decreases RelationExpression(rel), 0
    {
      o := VisitAlgebraic(rel.left);
      if o.Fail? {
        return;
      }
      :- VisitAlgebraic(rel.right);
      var right := arithmeticStack[|arithmeticStack| - 1];
      var left := arithmeticStack[|arithmeticStack| - 2];
      arithmeticStack := arithmeticStack[..|arithmeticStack| - 2];
      var holds: bool;
      match rel {
        case EqualsRelation(_, _) => holds := left == right;
        case NotEqualsRelation(_, _) => holds := left != right;
        case SmallerThanRelation(_, _) => holds := left < right;
        case GreaterThanRelation(_, _) => holds := left > right;
        case SmallerThanOrEqualRelation(_, _) => holds := left <= right;
        case GreaterThanOrEqualRelation(_, _) => holds := left >= right;
      }
      booleanStack := booleanStack + [holds];
      return Pass;
    }

    /** Visits a statement: the object then reflects `ExecStmt`. */
    method VisitStatement(s: Statement) returns (o: Outcome<RuntimeError>)
      modifies this
      ensures Completed(o, ExecStmt(s, old(Current()), fuel), old(arithmeticStack))
      decreases s, 0
    {
      match s
      case SkipStatement =>
        return Pass;
      case AssignStatement(x, e) =>
        :- VisitAlgebraic(e);
        var value := arithmeticStack[|arithmeticStack| - 1];
        arithmeticStack := arithmeticStack[..|arithmeticStack| - 1];
        variables := variables[x := value];
        return Pass;
      case ConditionalStatement(cond, thenPart, elsePart) =>
        :- VisitBoolean(cond);
        var v := booleanStack[|booleanStack| - 1];
        booleanStack := booleanStack[..|booleanStack| - 1];
        if v {
          o := VisitList(thenPart);
        } else {
          o := VisitList(elsePart);
        }
      case LoopStatement(cond, body) =>
        o := VisitLoop(cond, body);
      case ReadStatment(names) =>
        o := VisitRead(names);
      case WriteStatement(names) =>
        o := VisitWrite(names);
    }

    /** `forEach { it.accept(this) }` over a statement list. */
    method VisitList(ss: seq<Statement>) returns (o: Outcome<RuntimeError>)
      modifies this
      ensures Completed(o, ExecList(ss, old(Current()), fuel), old(arithmeticStack))
      decreases ss, 0
    {
      for i := 0 to |ss|
        invariant ExecList(ss, old(Current()), fuel) == ExecList(ss[i..], Current(), fuel)
        invariant arithmeticStack == old(arithmeticStack)
      {
        assert ss[i..][1..] == ss[i + 1..];
        :- VisitStatement(ss[i]);
      }
      return Pass;
    }

    /**
     * A loop: evaluates the condition, and while the top of the boolean stack
     * is true pops it, runs the body and evaluates the condition again. The
     * final false stays on the stack. Past `fuel` iterations: OutOfFuel.
     */
    method VisitLoop(cond: BooleanExpression, body: seq<Statement>) returns (o: Outcome<RuntimeError>)
      modifies this
      ensures Completed(o, Loop(cond, body, old(Current()), fuel, fuel), old(arithmeticStack))
      decreases body, 1
    {
      o := VisitBoolean(cond);
      if o.Fail? {
        return;
      }
      var k := fuel;
      while booleanStack[|booleanStack| - 1]
        invariant |booleanStack| > 0 && arithmeticStack == old(arithmeticStack)
        invariant Loop(cond, body, old(Current()), fuel, fuel)
               == LoopTest(booleanStack[|booleanStack| - 1], cond, body,
                           Current().(bools := booleanStack[..|booleanStack| - 1]), fuel, k)
        decreases k
      {
        if k == 0 {
          return Fail(OutOfFuel);
        }
        booleanStack := booleanStack[..|booleanStack| - 1];
        :- VisitList(body);
        :- VisitBoolean(cond);
        k := k - 1;
      }
      return Pass;
    }

    /** `read`: binds each name in turn to the next input line, trimmed and read as a Long. */
    method VisitRead(names: seq<string>) returns (o: Outcome<RuntimeError>)
      modifies this
      ensures Completed(o, ReadVars(names, old(Current())), old(arithmeticStack))
      decreases names, 0
    {
      for i := 0 to |names|
        invariant ReadVars(names, old(Current())) == ReadVars(names[i..], Current())
        invariant arithmeticStack == old(arithmeticStack)
      {
        assert names[i..][1..] == names[i + 1..];
        if |input| == 0 {
          return Fail(InputExhausted);
        }
        var line := input[0];
        input := input[1..];
        var strValue := Trim(line);
        var asLong := ToLongOrNull(strValue);
        if asLong.None? {
          return Fail(InvalidIntegerValue(strValue));
        }
        variables := variables[names[i] := asLong.value];
      }
      return Pass;
    }

    /** `write`: prints the value of each name in turn. */
    method VisitWrite(names: seq<string>) returns (o: Outcome<RuntimeError>)
      modifies this
      ensures Completed(o, WriteVars(names, old(Current())), old(arithmeticStack))
      decreases names, 0
    {
      for i := 0 to |names|
        invariant WriteVars(names, old(Current())) == WriteVars(names[i..], Current())
        invariant arithmeticStack == old(arithmeticStack)
      {
        assert names[i..][1..] == names[i + 1..];
        var value := GetVar(names[i]);
        if value.Err? {
          return Fail(value.error);
        }
        output := output + [value.value];
      }
      return Pass;
    }

    /** Visits the program root: its statements in order. */
    method VisitProgram(p: Program) returns (o: Outcome<RuntimeError>)
      modifies this
      ensures Completed(o, ExecList(p.statements, old(Current()), fuel), old(arithmeticStack))
    {
      o := VisitList(p.statements);
    }
  }

  /**
   * `Program.interpret`: a fresh interpreter runs the program over `input`;
   * the outcome and the printed values are those of `Run`.
   */
  method Interpret(p: Program, input: seq<string>, fuel: nat) returns (o: Outcome<RuntimeError>, output: seq<Long>)
    ensures match Run(p, input, fuel)
            case Normal(c) => o == Pass && output == c.output
            case Abrupt(err, c) => o == Fail(err) && output == c.output
  {
    var visitor := new InterpretVisitor(input, fuel);
    o := visitor.VisitProgram(p);
    output := visitor.output;
  }
}
