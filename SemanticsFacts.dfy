/**
 * What the evaluation functions of `Semantics` promise: expressions read only
 * their own names and fail only in the documented ways, `and`/`or` agree with
 * strict evaluation wherever that succeeds, statements only consume input and
 * only append output, extra fuel changes nothing once a run fits its fuel, a
 * loop ends exactly when its condition is false, and `read`/`write` bind and
 * print names in list order.
 */
module SemanticsFacts {
  import opened Results
  import opened Longs
  import opened Texts
  import opened Nodes
  import opened Semantics

  /* ---------- Expressions ---------- */

  /** `v1` and `v2` bind the same names among `names`, to the same values. */
  predicate AgreeOn(v1: map<string, Long>, v2: map<string, Long>, names: set<string>)
  {
    forall n :: n in names ==> (n in v1 <==> n in v2) && (n in v1 ==> v1[n] == v2[n])
  }

  /** An arithmetic expression reads only its own names. */
  lemma {:induction false} EvalAReadsOnlyItsNames(e: AlgebraicExpression, v1: map<string, Long>, v2: map<string, Long>)
    requires AgreeOn(v1, v2, Names(e))
    ensures EvalA(e, v1) == EvalA(e, v2)
  {
    match e
    case NumberLiteral(_) =>
    case NumericVariable(_) =>
    case SumExpression(l, r) => EvalAReadsOnlyItsNames(l, v1, v2); EvalAReadsOnlyItsNames(r, v1, v2);
    case MinusExpression(l, r) => EvalAReadsOnlyItsNames(l, v1, v2); EvalAReadsOnlyItsNames(r, v1, v2);
    case MultiplicationExpression(l, r) => EvalAReadsOnlyItsNames(l, v1, v2); EvalAReadsOnlyItsNames(r, v1, v2);
    case DivisionExpression(l, r) => EvalAReadsOnlyItsNames(l, v1, v2); EvalAReadsOnlyItsNames(r, v1, v2);
  }

  /** A boolean expression reads only the names it mentions. */
  lemma {:induction false} EvalBReadsOnlyItsNames(b: BooleanExpression, v1: map<string, Long>, v2: map<string, Long>)
    requires AgreeOn(v1, v2, BooleanNames(b))
    ensures EvalB(b, v1) == EvalB(b, v2)
  {
    match b
    case BooleanConstant(_) =>
    case NotExpression(x) => EvalBReadsOnlyItsNames(x, v1, v2);
    case AndExpression(l, r) => EvalBReadsOnlyItsNames(l, v1, v2); EvalBReadsOnlyItsNames(r, v1, v2);
    case OrExpression(l, r) => EvalBReadsOnlyItsNames(l, v1, v2); EvalBReadsOnlyItsNames(r, v1, v2);
    case RelationExpression(rel) =>
      EvalAReadsOnlyItsNames(rel.left, v1, v2);
      EvalAReadsOnlyItsNames(rel.right, v1, v2);
  }

  /**
   * Arithmetic has no short circuit: a value means every name was bound, and
   * with every name bound the only possible failure is a zero divisor. An
   * unbound name is reported by name.
   */
  lemma {:induction false} EvalAFailures(e: AlgebraicExpression, vars: map<string, Long>)
    ensures EvalA(e, vars).Ok? ==> Names(e) <= vars.Keys
    ensures Names(e) <= vars.Keys && EvalA(e, vars).Err? ==> EvalA(e, vars).error == DivisionByZero
    ensures EvalA(e, vars).Err? ==>
              (|| EvalA(e, vars).error == DivisionByZero
               || (EvalA(e, vars).error.VariableNotDefined? && EvalA(e, vars).error.name in Names(e) - vars.Keys))
  {
    match e
    case NumberLiteral(_) =>
    case NumericVariable(_) =>
    case SumExpression(l, r) => EvalAFailures(l, vars); EvalAFailures(r, vars);
    case MinusExpression(l, r) => EvalAFailures(l, vars); EvalAFailures(r, vars);
    case MultiplicationExpression(l, r) => EvalAFailures(l, vars); EvalAFailures(r, vars);
    case DivisionExpression(l, r) => EvalAFailures(l, vars); EvalAFailures(r, vars);
  }

  /** Strict boolean evaluation: both operands of `and`/`or` are always evaluated, left first. */
  function StrictB(b: BooleanExpression, vars: map<string, Long>): Result<bool, RuntimeError>
  {
    match b
    case BooleanConstant(v) => Ok(v)
    case NotExpression(x) =>
      var v :- StrictB(x, vars);
      Ok(!v)
    case AndExpression(l, r) =>
      var v :- StrictB(l, vars);
      var w :- StrictB(r, vars);
      Ok(v && w)
    case OrExpression(l, r) =>
      var v :- StrictB(l, vars);
      var w :- StrictB(r, vars);
      Ok(v || w)
    case RelationExpression(rel) =>
      var x :- EvalA(rel.left, vars);
      var y :- EvalA(rel.right, vars);
      Ok(Compare(rel, x, y))
  }

  /**
   * Short-circuit evaluation gives the value strict evaluation gives whenever
   * strict evaluation succeeds; it may succeed where strict evaluation fails,
   * never the other way round (the two may then report different errors).
   */
  lemma {:induction false} ShortCircuitAgreesWithStrict(b: BooleanExpression, vars: map<string, Long>)
    ensures StrictB(b, vars).Ok? ==> EvalB(b, vars) == StrictB(b, vars)
    ensures EvalB(b, vars).Err? ==> StrictB(b, vars).Err?
  {
    match b
    case BooleanConstant(_) =>
    case NotExpression(x) => ShortCircuitAgreesWithStrict(x, vars);
    case AndExpression(l, r) => ShortCircuitAgreesWithStrict(l, vars); ShortCircuitAgreesWithStrict(r, vars);
    case OrExpression(l, r) => ShortCircuitAgreesWithStrict(l, vars); ShortCircuitAgreesWithStrict(r, vars);
    case RelationExpression(_) =>
  }

  /** `false and z < 1` and `true or z < 1` never read `z`; `true and z < 1` does. */
  lemma UnboundRightOperandIsSkipped()
    ensures var zLess := RelationExpression(SmallerThanRelation(NumericVariable("z"), NumberLiteral(1)));
            && EvalB(AndExpression(BooleanConstant(false), zLess), map[]) == Ok(false)
            && EvalB(OrExpression(BooleanConstant(true), zLess), map[]) == Ok(true)
            && EvalB(AndExpression(BooleanConstant(true), zLess), map[]) == Err(VariableNotDefined("z"))
            && StrictB(AndExpression(BooleanConstant(false), zLess), map[]) == Err(VariableNotDefined("z"))
  {
  }

  /* ---------- Statements only consume input and only append output ---------- */

  /** `c'` is a later configuration than `c`: input only consumed from the front, output and boolean stack only appended to. */
  predicate Extends(c: Config, c': Config)
  {
    && |c'.input| <= |c.input| && c'.input == c.input[|c.input| - |c'.input|..]
    && c.output <= c'.output
    && c.bools <= c'.bools
  }

  lemma ExtendsIsTransitive(c1: Config, c2: Config, c3: Config)
    requires Extends(c1, c2) && Extends(c2, c3)
    ensures Extends(c1, c3)
  {
    var k := |c1.input| - |c2.input|;
    assert c2.input[|c2.input| - |c3.input|..] == c1.input[k + |c2.input| - |c3.input|..];
  }

  /** `read` only consumes input and changes neither output nor boolean stack. */
  lemma {:induction false} ReadVarsExtends(names: seq<string>, c: Config)
    ensures Extends(c, ReadVars(names, c).config)
    decreases |names|
  {
    if |names| > 0 && |c.input| > 0 {
      var c1 := c.(input := c.input[1..]);
      assert Extends(c, c1);
      match ToLongOrNull(Trim(c.input[0]))
      case None =>
      case Some(v) =>
        var c2 := c1.(vars := c.vars[names[0] := v]);
        ReadVarsExtends(names[1..], c2);
        ExtendsIsTransitive(c, c2, ReadVars(names[1..], c2).config);
    }
  }

  /** `write` only appends output. */
  lemma {:induction false} WriteVarsExtends(names: seq<string>, c: Config)
    ensures Extends(c, WriteVars(names, c).config)
    decreases |names|
  {
    if |names| > 0 && names[0] in c.vars {
      var c1 := c.(output := c.output + [c.vars[names[0]]]);
      WriteVarsExtends(names[1..], c1);
      ExtendsIsTransitive(c, c1, WriteVars(names[1..], c1).config);
    }
  }

  /** A statement, whether it completes or throws, leaves a later configuration. */
  lemma {:induction false} ExecStmtExtends(s: Statement, c: Config, fuel: nat)
    ensures Extends(c, ExecStmt(s, c, fuel).config)
    decreases s, 0, 0
  {
    match s
    case SkipStatement =>
    case AssignStatement(_, _) =>
    case ConditionalStatement(cond, thenPart, elsePart) =>
      ExecListExtends(thenPart, c, fuel);
      ExecListExtends(elsePart, c, fuel);
    case LoopStatement(cond, body) => LoopExtends(cond, body, c, fuel, fuel);
    case ReadStatment(names) => ReadVarsExtends(names, c);
    case WriteStatement(names) => WriteVarsExtends(names, c);
  }

  lemma {:induction false} ExecListExtends(ss: seq<Statement>, c: Config, fuel: nat)
    ensures Extends(c, ExecList(ss, c, fuel).config)
    decreases ss, 0, 0
  {
    if |ss| > 0 {
      var first := ExecStmt(ss[0], c, fuel);
      ExecStmtExtends(ss[0], c, fuel);
      match first
      case Abrupt(_, _) =>
        assert ExecList(ss, c, fuel) == first;
      case Normal(c1) =>
        var rest := ExecList(ss[1..], c1, fuel);
        assert ExecList(ss, c, fuel) == rest;
        ExecListExtends(ss[1..], c1, fuel);
        ExtendsIsTransitive(c, c1, rest.config);
    }
  }

  lemma {:induction false} LoopExtends(cond: BooleanExpression, body: seq<Statement>, c: Config, fuel: nat, k: nat)
    ensures Extends(c, Loop(cond, body, c, fuel, k).config)
    decreases body, k, 1
  {
    match EvalB(cond, c.vars)
    case Err(_) =>
    case Ok(v) => LoopTestExtends(v, cond, body, c, fuel, k);
  }

  lemma {:induction false} LoopTestExtends(v: bool, cond: BooleanExpression, body: seq<Statement>, c: Config, fuel: nat, k: nat)
    ensures Extends(c, LoopTest(v, cond, body, c, fuel, k).config)
    decreases body, k, 0
  {
    if v && k > 0 {
      var first := ExecList(body, c, fuel);
      ExecListExtends(body, c, fuel);
      match first
      case Abrupt(_, _) =>
        assert LoopTest(v, cond, body, c, fuel, k) == first;
      case Normal(c1) =>
        var rest := Loop(cond, body, c1, fuel, k - 1);
        assert LoopTest(v, cond, body, c, fuel, k) == rest;
        LoopExtends(cond, body, c1, fuel, k - 1);
        ExtendsIsTransitive(c, c1, rest.config);
    } else {
      assert c.bools <= c.bools + [false];
    }
  }

  /* ---------- Fuel ---------- */

  /** The run stopped because a loop ran out of fuel. */
  predicate Starved(x: Exec)
  {
    x.Abrupt? && x.error == OutOfFuel
  }

  /** A statement that did not run out of fuel completes the same way with any larger fuel. */
  lemma {:induction false} ExecStmtFuelMonotone(s: Statement, c: Config, fuel: nat, more: nat)
    requires fuel <= more && !Starved(ExecStmt(s, c, fuel))
    ensures ExecStmt(s, c, more) == ExecStmt(s, c, fuel)
    decreases s, 0, 0
  {
    match s
    case SkipStatement =>
    case AssignStatement(_, _) =>
    case ConditionalStatement(cond, thenPart, elsePart) =>
      if EvalB(cond, c.vars).Ok? {
        if EvalB(cond, c.vars).value {
          ExecListFuelMonotone(thenPart, c, fuel, more);
        } else {
          ExecListFuelMonotone(elsePart, c, fuel, more);
        }
      }
    case LoopStatement(cond, body) => LoopFuelMonotone(cond, body, c, fuel, more, fuel, more);
    case ReadStatment(_) =>
    case WriteStatement(_) =>
  }

  lemma {:induction false} ExecListFuelMonotone(ss: seq<Statement>, c: Config, fuel: nat, more: nat)
    requires fuel <= more && !Starved(ExecList(ss, c, fuel))
    ensures ExecList(ss, c, more) == ExecList(ss, c, fuel)
    decreases ss, 0, 0
  {
    if |ss| > 0 {
      var first := ExecStmt(ss[0], c, fuel);
      ExecStmtFuelMonotone(ss[0], c, fuel, more);
      if first.Normal? {
        ExecListFuelMonotone(ss[1..], first.config, fuel, more);
      }
    }
  }

  lemma {:induction false} LoopFuelMonotone(cond: BooleanExpression, body: seq<Statement>, c: Config,
                                            fuel: nat, more: nat, k: nat, moreK: nat)
    requires fuel <= more && k <= moreK && !Starved(Loop(cond, body, c, fuel, k))
    ensures Loop(cond, body, c, more, moreK) == Loop(cond, body, c, fuel, k)
    decreases body, k, 1
  {
    match EvalB(cond, c.vars)
    case Err(_) =>
    case Ok(v) => LoopTestFuelMonotone(v, cond, body, c, fuel, more, k, moreK);
  }

  lemma {:induction false} LoopTestFuelMonotone(v: bool, cond: BooleanExpression, body: seq<Statement>, c: Config,
                                                fuel: nat, more: nat, k: nat, moreK: nat)
    requires fuel <= more && k <= moreK && !Starved(LoopTest(v, cond, body, c, fuel, k))
    ensures LoopTest(v, cond, body, c, more, moreK) == LoopTest(v, cond, body, c, fuel, k)
    decreases body, k, 0
  {
    if v && k > 0 {
      var c1 := ExecList(body, c, fuel);
      ExecListFuelMonotone(body, c, fuel, more);
      if c1.Normal? {
        LoopFuelMonotone(cond, body, c1.config, fuel, more, k - 1, moreK - 1);
      }
    }
  }

  /* ---------- Loops ---------- */

  /**
   * A loop that completes normally stops at a state where its condition is
   * false, and that false is left on top of the boolean stack.
   */
  lemma {:induction false} FinishedLoopLeavesFalse(cond: BooleanExpression, body: seq<Statement>, c: Config, fuel: nat, k: nat)
    requires Loop(cond, body, c, fuel, k).Normal?
    ensures var c' := Loop(cond, body, c, fuel, k).config;
            EvalB(cond, c'.vars) == Ok(false) && |c'.bools| > 0 && c'.bools[|c'.bools| - 1] == false
    decreases k
  {
    var v := EvalB(cond, c.vars).value;
    if v {
      var c1 := ExecList(body, c, fuel).config;
      FinishedLoopLeavesFalse(cond, body, c1, fuel, k - 1);
    }
  }

  /** A loop whose condition is false at the start runs no iteration and only pushes false. */
  lemma FalseConditionSkipsBody(cond: BooleanExpression, body: seq<Statement>, c: Config, fuel: nat)
    requires EvalB(cond, c.vars) == Ok(false)
    ensures ExecStmt(LoopStatement(cond, body), c, fuel) == Normal(c.(bools := c.bools + [false]))
  {
    assert Loop(cond, body, c, fuel, fuel) == LoopTest(false, cond, body, c, fuel, fuel);
  }

  /* ---------- read and write ---------- */

  /** Every name of the list is bound in `vars`. */
  predicate AllBound(names: seq<string>, vars: map<string, Long>)
  {
    forall i :: 0 <= i < |names| ==> names[i] in vars
  }

  /** The values of `names` in `vars`, in list order. */
  function Values(names: seq<string>, vars: map<string, Long>): (vs: seq<Long>)
    requires AllBound(names, vars)
    ensures |vs| == |names|
  {
    seq(|names|, i requires 0 <= i < |names| => vars[names[i]])
  }

  /** The values of a list are the first name's value followed by the values of the rest. */
  lemma ValuesStep(names: seq<string>, vars: map<string, Long>)
    requires |names| > 0 && AllBound(names, vars)
    ensures AllBound(names[1..], vars) && Values(names, vars) == [vars[names[0]]] + Values(names[1..], vars)
  {
    assert forall i :: 0 <= i < |names| - 1 ==> names[1..][i] == names[i + 1];
  }

  /**
   * `write` completes exactly when every name is bound, and then prints their
   * values in list order and changes nothing else.
   */
  lemma {:induction false} WriteVarsPrintsInOrder(names: seq<string>, c: Config)
    ensures WriteVars(names, c).Normal? <==> AllBound(names, c.vars)
    ensures AllBound(names, c.vars) ==> WriteVars(names, c) == Normal(c.(output := c.output + Values(names, c.vars)))
    decreases |names|
  {
    if |names| > 0 {
      if names[0] in c.vars {
        var c1 := c.(output := c.output + [c.vars[names[0]]]);
        WriteVarsPrintsInOrder(names[1..], c1);
        assert AllBound(names, c.vars) <==> AllBound(names[1..], c.vars) by {
          if AllBound(names[1..], c.vars) {
            forall i | 0 < i < |names| ensures names[i] in c.vars {
              assert names[1..][i - 1] == names[i];
            }
          }
        }
        if AllBound(names, c.vars) {
          ValuesStep(names, c.vars);
        }
      } else {
        assert !AllBound(names, c.vars);
      }
    }
  }

  /**
   * A `write` whose `j`-th name is the first unbound one stops there with
   * VariableNotDefined, having printed the values of the names before it.
   */
  lemma {:induction false} WriteVarsStopsAtFirstUnbound(names: seq<string>, c: Config, j: nat)
    requires j < |names| && names[j] !in c.vars && AllBound(names[..j], c.vars)
    ensures WriteVars(names, c) == Abrupt(VariableNotDefined(names[j]), c.(output := c.output + Values(names[..j], c.vars)))
    decreases j
  {
    if j == 0 {
      assert Values(names[..0], c.vars) == [];
    } else {
      var c1 := c.(output := c.output + [c.vars[names[0]]]);
      var before := names[..j];
      assert before[0] == names[0] && before[1..] == names[1..][..j - 1];
      ValuesStep(before, c.vars);
      WriteVarsStopsAtFirstUnbound(names[1..], c1, j - 1);
    }
  }

  /** Every one of the first `n` lines is, once trimmed, a decimal Long. */
  predicate LinesAreLongs(lines: seq<string>, n: nat)
    requires n <= |lines|
  {
    forall i :: 0 <= i < n ==> ToLongOrNull(Trim(lines[i])).Some?
  }

  /** The configuration `read` moves to from `c` when its first line is a Long. */
  function AfterFirstLine(names: seq<string>, c: Config): Config
    requires |names| > 0 && |c.input| > 0 && ToLongOrNull(Trim(c.input[0])).Some?
  {
    c.(vars := c.vars[names[0] := ToLongOrNull(Trim(c.input[0])).value], input := c.input[1..])
  }

  /** A completed `read` of a non-empty list read its first line as a Long and went on from there. */
  lemma ReadFirstLine(names: seq<string>, c: Config)
    requires |names| > 0 && ReadVars(names, c).Normal?
    ensures |c.input| > 0 && ToLongOrNull(Trim(c.input[0])).Some?
    ensures ReadVars(names, c) == ReadVars(names[1..], AfterFirstLine(names, c))
  {
  }

  /** `read` completes exactly when there is a line for every name and each of those lines is a Long. */
  lemma {:induction false} ReadVarsCompletes(names: seq<string>, c: Config)
    ensures ReadVars(names, c).Normal? <==> |names| <= |c.input| && LinesAreLongs(c.input, |names|)
    decreases |names|
  {
    if |names| > 0 && |c.input| > 0 {
      if ToLongOrNull(Trim(c.input[0])).Some? {
        var c1 := AfterFirstLine(names, c);
        ReadVarsCompletes(names[1..], c1);
        if |names| <= |c.input| && LinesAreLongs(c1.input, |names| - 1) {
          forall i | 0 < i < |names| ensures ToLongOrNull(Trim(c.input[i])).Some? {
            assert c1.input[i - 1] == c.input[i];
          }
        }
      } else {
        assert !(|names| <= |c.input| && LinesAreLongs(c.input, |names|));
      }
    }
  }

  /** A completed `read` has consumed one line per name and printed nothing. */
  lemma {:induction false} ReadVarsConsumes(names: seq<string>, c: Config)
    requires ReadVars(names, c).Normal?
    ensures var c' := ReadVars(names, c).config;
            |names| <= |c.input| && c'.input == c.input[|names|..] && c'.output == c.output && c'.bools == c.bools
    decreases |names|
  {
    if |names| > 0 {
      ReadFirstLine(names, c);
      var c1 := AfterFirstLine(names, c);
      ReadVarsConsumes(names[1..], c1);
      assert c1.input[|names| - 1..] == c.input[|names|..];
    }
  }

  /** The names of a list, as a set. */
  ghost function Listed(names: seq<string>): set<string>
  {
    set n | n in names
  }

  lemma ListedStep(names: seq<string>)
    requires |names| > 0
    ensures Listed(names) == {names[0]} + Listed(names[1..])
  {
    assert names == [names[0]] + names[1..];
  }

  /** After a completed `read`, the bound names are the old ones and the listed ones. */
  lemma {:induction false} ReadVarsBindsListed(names: seq<string>, c: Config)
    requires ReadVars(names, c).Normal?
    ensures ReadVars(names, c).config.vars.Keys == c.vars.Keys + Listed(names)
    decreases |names|
  {
    if |names| == 0 {
      assert Listed(names) == {};
    } else {
      ReadFirstLine(names, c);
      var c1 := AfterFirstLine(names, c);
      ReadVarsBindsListed(names[1..], c1);
      ListedStep(names);
    }
  }

  /** A completed `read` keeps the binding of every name it does not list. */
  lemma {:induction false} ReadVarsKeepsOthers(names: seq<string>, c: Config)
    requires ReadVars(names, c).Normal?
    ensures var vars' := ReadVars(names, c).config.vars;
            forall n :: n in c.vars && n !in names ==> n in vars' && vars'[n] == c.vars[n]
    decreases |names|
  {
    if |names| > 0 {
      ReadFirstLine(names, c);
      ReadVarsKeepsOthers(names[1..], AfterFirstLine(names, c));
      assert names == [names[0]] + names[1..];
    }
  }

  /** After a completed `read`, each name holds the value of the line read for its last occurrence in the list. */
  lemma {:induction false} ReadVarsLastLineWins(names: seq<string>, c: Config)
    requires ReadVars(names, c).Normal?
    ensures var vars' := ReadVars(names, c).config.vars;
            forall i :: 0 <= i < |names| && names[i] !in names[i + 1..] ==>
              && i < |c.input| && ToLongOrNull(Trim(c.input[i])).Some?
              && names[i] in vars' && vars'[names[i]] == ToLongOrNull(Trim(c.input[i])).value
    decreases |names|
  {
    if |names| > 0 {
      ReadFirstLine(names, c);
      var c1 := AfterFirstLine(names, c);
      var vars' := ReadVars(names, c).config.vars;
      ReadVarsLastLineWins(names[1..], c1);
      ReadVarsKeepsOthers(names[1..], c1);
      forall i | 0 <= i < |names| && names[i] !in names[i + 1..]
        ensures && i < |c.input| && ToLongOrNull(Trim(c.input[i])).Some?
                && names[i] in vars' && vars'[names[i]] == ToLongOrNull(Trim(c.input[i])).value
      {
        if i > 0 {
          assert names[1..][i - 1] == names[i] && names[1..][i..] == names[i + 1..];
          assert c1.input[i - 1] == c.input[i];
        } else {
          assert names[0] !in names[1..];
        }
      }
    }
  }
}
