/**
 * Whole runs of small programs, given as syntax trees with their console
 * input: the values printed, or the exception that stops the run.
 */
module Scenarios {
  import opened Results
  import opened Longs
  import opened Texts
  import opened Nodes
  import opened Semantics

  /** `x := 3; y := 4; write x, y` prints 3 then 4. */
  lemma AssignThenWrite()
    ensures Run(Program([AssignStatement("x", NumberLiteral(3)), AssignStatement("y", NumberLiteral(4)),
                         WriteStatement(["x", "y"])]), [], 0).config.output == [3, 4]
  {
    var c1 := Config(map["x" := 3], [], [], []);
    var c2 := Config(map["x" := 3, "y" := 4], [], [], []);
    assert ExecStmt(AssignStatement("x", NumberLiteral(3)), Config(map[], [], [], []), 0) == Normal(c1);
    assert ExecStmt(AssignStatement("y", NumberLiteral(4)), c1, 0) == Normal(c2);
    assert WriteVars(["y"], c2.(output := [3])) == Normal(c2.(output := [3, 4]));
  }

  /** `read x; write x` over the line ` -5 ` prints -5: the line is trimmed before it is read. */
  lemma ReadTrimsTheLine()
    ensures Run(Program([ReadStatment(["x"]), WriteStatement(["x"])]), [" -5 "], 0) == Normal(Config(map["x" := -5], [], [-5], []))
  {
    PaddedLineTrims();
    MinusFiveParses();
    var c := Config(map["x" := -5], [], [], []);
    assert ReadVars(["x"], Config(map[], [" -5 "], [], [])) == ReadVars([], c);
    assert ExecStmt(ReadStatment(["x"]), Config(map[], [" -5 "], [], []), 0) == Normal(c);
  }

  lemma PaddedLineTrims()
    ensures Trim(" -5 ") == "-5"
  {
    PaddedLineTrimsStart();
    PaddedLineTrimsEnd();
  }

  lemma PaddedLineTrimsStart()
    ensures TrimStart(" -5 ") == "-5 "
  {
    assert IsWhitespace(' ') && !IsWhitespace('-');
    assert " -5 "[1..] == "-5 ";
  }

  lemma PaddedLineTrimsEnd()
    ensures TrimEnd("-5 ") == "-5"
  {
    assert IsWhitespace(' ') && !IsWhitespace('5');
    assert "-5 "[..2] == "-5";
  }

  lemma MinusFiveParses()
    ensures ToLongOrNull("-5") == Some(-5)
  {
    assert "-5"[1..] == "5" && "5"[..0] == [];
    assert AllDigits("5") && DigitsValue("5") == 5;
  }

  /** `read x` over the line `abc` stops with InvalidIntegerValue("abc"). */
  lemma ReadRejectsText()
    ensures Run(Program([ReadStatment(["x"])]), ["abc"], 0) == Abrupt(InvalidIntegerValue("abc"), Config(map[], [], [], []))
  {
    TextIsTrimmed();
    TextIsNotALong();
    assert ReadVars(["x"], Config(map[], ["abc"], [], [])) == Abrupt(InvalidIntegerValue("abc"), Config(map[], [], [], []));
  }

  lemma TextIsTrimmed()
    ensures Trim("abc") == "abc"
  {
    assert !IsWhitespace('a') && !IsWhitespace('c');
  }

  lemma TextIsNotALong()
    ensures ToLongOrNull("abc") == None
  {
    assert !IsDigit('c');
    assert !AllDigits("abc");
  }

  /** `read x` with no line left stops with InputExhausted. */
  lemma ReadNeedsALine()
    ensures Run(Program([ReadStatment(["x"])]), [], 0) == Abrupt(InputExhausted, Config(map[], [], [], []))
  {
  }

  /** `write z` with `z` never assigned stops with VariableNotDefined("z") before printing. */
  lemma WriteOfUnboundName()
    ensures Run(Program([WriteStatement(["z"])]), [], 0) == Abrupt(VariableNotDefined("z"), Config(map[], [], [], []))
  {
  }

  /** `x := 9223372036854775807 + 1; write x` prints -9223372036854775808: `+` wraps around. */
  lemma AdditionWrapsAround()
    ensures Run(Program([AssignStatement("x", SumExpression(NumberLiteral(MaxLong), NumberLiteral(1))),
                         WriteStatement(["x"])]), [], 0).config.output == [MinLong]
  {
    assert MaxLong + 1 - MinLong == Modulus;
    assert Plus(MaxLong, 1) == MinLong;
    var c := Config(map["x" := MinLong], [], [], []);
    var assign := AssignStatement("x", SumExpression(NumberLiteral(MaxLong), NumberLiteral(1)));
    assert ExecStmt(assign, Config(map[], [], [], []), 0) == Normal(c);
    assert [assign, WriteStatement(["x"])][1..] == [WriteStatement(["x"])];
    assert WriteVars(["x"], c) == WriteVars([], c.(output := [MinLong]));
    assert ExecList([WriteStatement(["x"])], c, 0) == Normal(c.(output := [MinLong]));
    assert ExecList([assign, WriteStatement(["x"])], Config(map[], [], [], []), 0) == Normal(c.(output := [MinLong]));
  }

  /** `-7 / 2` is -3 (rounded toward zero), `-9223372036854775808 / -1` wraps to itself, `/ 0` throws. */
  lemma DivisionTruncatesAndWraps()
    ensures EvalA(DivisionExpression(NumberLiteral(-7), NumberLiteral(2)), map[]) == Ok(-3)
    ensures EvalA(DivisionExpression(NumberLiteral(MinLong), NumberLiteral(-1)), map[]) == Ok(MinLong)
    ensures EvalA(DivisionExpression(NumberLiteral(1), NumberLiteral(0)), map[]) == Err(DivisionByZero)
  {
    assert TruncatedQuotient(-7, 2) == -3;
    assert TruncatedQuotient(MinLong, -1) == -MinLong;
  }

  /** The loop `while i < 3 do write i; i := i + 1 od` after `i := 0`. */
  const CountBody := [WriteStatement(["i"]), AssignStatement("i", SumExpression(NumericVariable("i"), NumberLiteral(1)))]
  const CountCondition := RelationExpression(SmallerThanRelation(NumericVariable("i"), NumberLiteral(3)))

  /** One pass of the counting loop's body from `i == n` prints n and leaves `i == n + 1`. */
  lemma CountBodyStep(c: Config, n: Long, fuel: nat)
    requires c.vars == map["i" := n] && n < 3
    ensures ExecList(CountBody, c, fuel) == Normal(c.(vars := map["i" := n + 1], output := c.output + [n]))
  {
    var c1 := c.(output := c.output + [n]);
    assert ExecStmt(WriteStatement(["i"]), c, fuel) == Normal(c1);
    assert Plus(n, 1) == n + 1;
    assert c1.vars["i" := n + 1] == map["i" := n + 1];
    assert EvalA(SumExpression(NumericVariable("i"), NumberLiteral(1)), c1.vars) == Ok(n + 1);
    assert ExecStmt(CountBody[1], c1, fuel) == Normal(c1.(vars := map["i" := n + 1]));
    assert CountBody[1..] == [CountBody[1]];
  }

  /** At `i == n < 3` with iterations left, the counting loop prints n and continues at `i == n + 1`. */
  lemma CountLoopStep(c: Config, n: Long, c': Config, fuel: nat, k: nat, k': nat)
    requires c.vars == map["i" := n] && n < 3 && k > 0 && k' == k - 1
    requires c' == c.(vars := map["i" := n + 1], output := c.output + [n])
    ensures Loop(CountCondition, CountBody, c, fuel, k) == Loop(CountCondition, CountBody, c', fuel, k')
  {
    assert EvalB(CountCondition, c.vars) == Ok(true);
    CountBodyStep(c, n, fuel);
  }

  /** At `i == 3` the counting loop ends and leaves its false behind. */
  lemma CountLoopEnds(c: Config, fuel: nat, k: nat)
    requires c.vars == map["i" := 3]
    ensures Loop(CountCondition, CountBody, c, fuel, k) == Normal(c.(bools := c.bools + [false]))
  {
    assert EvalB(CountCondition, c.vars) == Ok(false);
  }

  /** At `i == n < 3` with no iteration left, the counting loop runs out of fuel. */
  lemma CountLoopStarves(c: Config, n: Long, fuel: nat)
    requires c.vars == map["i" := n] && n < 3
    ensures Loop(CountCondition, CountBody, c, fuel, 0) == Abrupt(OutOfFuel, c)
  {
    assert EvalB(CountCondition, c.vars) == Ok(true);
  }

  /** The counting loop prints 0, 1, 2, then stops with `i == 3` and its final false left behind. */
  lemma CountingLoop()
    ensures Loop(CountCondition, CountBody, Config(map["i" := 0], [], [], []), 3, 3)
         == Normal(Config(map["i" := 3], [], [0, 1, 2], [false]))
  {
    var c0 := Config(map["i" := 0], [], [], []);
    var c1 := Config(map["i" := 1], [], [0], []);
    var c2 := Config(map["i" := 2], [], [0, 1], []);
    var c3 := Config(map["i" := 3], [], [0, 1, 2], []);
    assert [0] + [1] == [0, 1] && [0, 1] + [2] == [0, 1, 2];
    CountLoopStep(c0, 0, c1, 3, 3, 2);
    CountLoopStep(c1, 1, c2, 3, 2, 1);
    CountLoopStep(c2, 2, c3, 3, 1, 0);
    CountLoopEnds(c3, 3, 0);
  }

  /** With fuel 2 the same loop runs out of fuel after printing 0 and 1. */
  lemma CountingLoopNeedsThreeIterations()
    ensures Loop(CountCondition, CountBody, Config(map["i" := 0], [], [], []), 2, 2)
         == Abrupt(OutOfFuel, Config(map["i" := 2], [], [0, 1], []))
  {
    var c0 := Config(map["i" := 0], [], [], []);
    var c1 := Config(map["i" := 1], [], [0], []);
    var c2 := Config(map["i" := 2], [], [0, 1], []);
    assert [0] + [1] == [0, 1];
    CountLoopStep(c0, 0, c1, 2, 2, 1);
    CountLoopStep(c1, 1, c2, 2, 1, 0);
    CountLoopStarves(c2, 2, 2);
  }
}
