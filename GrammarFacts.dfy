/** Properties of the parser, proved about the rule functions of `Grammar`. */
module GrammarFacts {
  import opened Results
  import opened Longs
  import opened Lexer
  import opened Nodes
  import opened Grammar

  // Tokens used by the examples below.
  const A := Token("a", VARNAME)
  const B := Token("b", VARNAME)
  const C := Token("c", VARNAME)
  const Plus := Token("+", AWEAKOP)
  const Dash := Token("-", AWEAKOP)
  const Star := Token("*", ASTRONGOP)
  const Slash := Token("/", ASTRONGOP)
  const Open := Token("(", OPENINGBRACKET)
  const Close := Token(")", CLOSINGBRACKET)
  const LessSign := Token("<", RELATION)
  const NewLine := Token("\n", NEWLINE)

  /* ---------- Taking one token ---------- */

  /** With newlines skipped, a token is taken exactly when the peek sees its kind (never for NEWLINE itself). */
  lemma EatSucceedsExactlyWhenPeekAgrees(ts: seq<Token>, pos: nat, k: TokenInfo)
    requires pos <= |ts|
    ensures Eat(ts, pos, k, true).result.Ok? <==> k != NEWLINE && Peek(ts, pos) == k
  {
  }

  /**
   * A failed take reports the token under the cursor after the step back, and
   * its index; the step back can only leave the cursor one before where it
   * started, and NoSuchElement happens exactly on an empty token list.
   */
  lemma EatFailureReportsTokenAtCursor(ts: seq<Token>, pos: nat, k: TokenInfo, ignoreNewLines: bool)
    requires pos <= |ts|
    ensures var r := Eat(ts, pos, k, ignoreNewLines);
            (r.result == Err(NoSuchElement) <==> ts == [])
            && (r.result.Err? && ts != [] ==>
                  r.pos < |ts| && pos <= r.pos + 1
                  && r.result.error == ParseException(CouldNotFind(k, ts[r.pos], r.pos)))
  {
  }

  /* ---------- The program rule ---------- */

  /** An accepted program ends with the NEWLINE `progr` takes as is, and every token after it is a NEWLINE. */
  lemma ProgramIsFollowedOnlyByNewLines(ts: seq<Token>)
    requires BuildAst(ts).result.Ok?
    ensures var p := BuildAst(ts).pos;
            0 < p && ts[p - 1].info == NEWLINE && forall j :: p <= j < |ts| ==> ts[j].info == NEWLINE
  {
    var series := Series(ts, 0);
    var newline := Eat(ts, series.pos, NEWLINE, false);
    assert Progr(ts, 0).pos == newline.pos;
    assert Peek(ts, newline.pos) == NEWLINE;
    SkippedAreNewLines(ts, newline.pos);
  }

  /** A statement series that runs to the very end of the tokens is rejected: the terminating NEWLINE is mandatory. */
  lemma TerminatingNewLineIsRequired(ts: seq<Token>)
    requires Series(ts, 0).result.Ok? && Series(ts, 0).pos == |ts|
    ensures BuildAst(ts).result == Err(ParseException(CouldNotFind(NEWLINE, ts[|ts| - 1], |ts| - 1)))
  {
    EatAtEndReportsLastToken(ts, NEWLINE);
    assert Progr(ts, 0).result == Err(ParseException(CouldNotFind(NEWLINE, ts[|ts| - 1], |ts| - 1)));
  }

  /** Taking a token at the very end of a non-empty list, newlines not skipped, fails on the last token. */
  lemma EatAtEndReportsLastToken(ts: seq<Token>, k: TokenInfo)
    requires |ts| > 0
    ensures Eat(ts, |ts|, k, false) == Parsed(Err(ParseException(CouldNotFind(k, ts[|ts| - 1], |ts| - 1))), |ts| - 1)
  {
  }

  /** A statement series is never empty. */
  lemma {:induction false} SeriesIsNonEmpty(ts: seq<Token>, pos: nat)
    requires pos <= |ts| && Series(ts, pos).result.Ok?
    ensures |Series(ts, pos).result.value| >= 1
  {
  }

  /**
   * A NEWLINE does not separate statements: when the series stops at a
   * NEWLINE, that NEWLINE ends the program, which is accepted exactly when
   * nothing but NEWLINEs follows it; a further statement is rejected.
   */
  lemma NewLineIsNotASeparator(ts: seq<Token>, statements: seq<Statement>, end: nat)
    requires Series(ts, 0) == Parsed(Ok(statements), end)
    requires end < |ts| && ts[end].info == NEWLINE
    ensures Peek(ts, end + 1) == NEWLINE ==> BuildAst(ts) == Parsed(Ok(Program(statements)), end + 1)
    ensures Peek(ts, end + 1) != NEWLINE
            ==> BuildAst(ts) == Parsed(Err(ParseException(EndOfProgramExpected(Peek(ts, end + 1)))), end + 1)
  {
    assert Eat(ts, end, NEWLINE, false) == Parsed(Ok(ts[end]), end + 1);
  }

  /** `skip` NEWLINE `skip` NEWLINE is rejected at the second `skip`. */
  lemma NewLineBetweenSkipsIsRejected()
    ensures BuildAst([Token("skip", SKIP), NewLine, Token("skip", SKIP), NewLine]).result
         == Err(ParseException(EndOfProgramExpected(SKIP)))
  {
    var ts := [Token("skip", SKIP), NewLine, Token("skip", SKIP), NewLine];
    assert Stmt(ts, 0) == Parsed(Ok(SkipStatement), 1);
    assert Series(ts, 0) == Parsed(Ok([SkipStatement]), 1);
    assert SkipNewLines(ts, 2) == 2;
    NewLineIsNotASeparator(ts, [SkipStatement], 1);
  }

  /** With `;` the same two statements form one program. */
  lemma SemicolonSeparates()
    ensures BuildAst([Token("skip", SKIP), Token(";", SEMICOLON), NewLine, Token("skip", SKIP), NewLine]).result
         == Ok(Program([SkipStatement, SkipStatement]))
  {
    var ts := [Token("skip", SKIP), Token(";", SEMICOLON), NewLine, Token("skip", SKIP), NewLine];
    assert SkipNewLines(ts, 2) == 3;
    assert Stmt(ts, 2) == Parsed(Ok(SkipStatement), 4);
    assert Series(ts, 2) == Parsed(Ok([SkipStatement]), 4);
    assert Stmt(ts, 0) == Parsed(Ok(SkipStatement), 1);
    assert [SkipStatement] + [SkipStatement] == [SkipStatement, SkipStatement];
    assert Series(ts, 0) == Parsed(Ok([SkipStatement, SkipStatement]), 4);
  }

  /* ---------- Statements ---------- */

  /**
   * A conditional whose then-series no `else` follows gets the empty else
   * list: it ends at the next `fi`, and anything else there is rejected.
   */
  lemma ElseIsOptional(ts: seq<Token>, pos: nat, condStart: nat, cond: BooleanExpression, thenAt: nat, thenStart: nat,
                       thenPart: seq<Statement>, thenEnd: nat)
    requires pos < |ts| && ts[pos].info == IF && condStart == pos + 1
    requires BExpr(ts, condStart) == Parsed(Ok(cond), thenAt)
    requires thenAt < |ts| && ts[thenAt].info == THEN && thenStart == thenAt + 1
    requires Series(ts, thenStart) == Parsed(Ok(thenPart), thenEnd)
    requires Peek(ts, thenEnd) != ELSE
    ensures Peek(ts, thenEnd) == FI
            ==> CondStmt(ts, pos) == Parsed(Ok(ConditionalStatement(cond, thenPart, [])), SkipNewLines(ts, thenEnd) + 1)
    ensures Peek(ts, thenEnd) != FI ==> CondStmt(ts, pos).result.Err?
  {
    assert SkipNewLines(ts, pos) == pos;
    assert SkipNewLines(ts, thenAt) == thenAt;
    assert ElsePart(ts, thenEnd) == Parsed(Ok([]), thenEnd);
  }

  /** `if true then skip fi` has an empty else list. */
  lemma IfTrueSkipHasEmptyElse()
    ensures Stmt([Token("if", IF), Token("true", BCONSTANT), Token("then", THEN), Token("skip", SKIP), Token("fi", FI)], 0)
         == Parsed(Ok(ConditionalStatement(BooleanConstant(true), [SkipStatement], [])), 5)
  {
    var ts := [Token("if", IF), Token("true", BCONSTANT), Token("then", THEN), Token("skip", SKIP), Token("fi", FI)];
    IfStartsConditional(ts, 0);
    IfTrueIsConditional();
  }

  /** A statement that starts with `if` is read by `condStmt`. */
  lemma IfStartsConditional(ts: seq<Token>, pos: nat)
    requires pos < |ts| && ts[pos].info == IF
    ensures Stmt(ts, pos) == CondStmt(ts, pos)
  {
    assert SkipNewLines(ts, pos) == pos;
  }

  /** `if true then skip fi` read by `condStmt`. */
  lemma IfTrueIsConditional()
    ensures CondStmt([Token("if", IF), Token("true", BCONSTANT), Token("then", THEN), Token("skip", SKIP), Token("fi", FI)], 0) == Parsed(Ok(ConditionalStatement(BooleanConstant(true), [SkipStatement], [])), 5)
  {
    var ts := [Token("if", IF), Token("true", BCONSTANT), Token("then", THEN), Token("skip", SKIP), Token("fi", FI)];
    IfTrueConditionIsRead();
    IfTrueBodyIsRead();
    IfTrueHasNoElse();
    CondStmtStep(ts, 0, 1, BooleanConstant(true), 2, 3, [SkipStatement], 4, [], 4);
  }

  /** `condStmt` from its parts: `if`, a condition, `then`, a series, the optional else part, `fi`. */
  lemma CondStmtStep(ts: seq<Token>, pos: nat, condStart: nat, cond: BooleanExpression, thenAt: nat, thenStart: nat,
                     thenPart: seq<Statement>, thenEnd: nat, elsePart: seq<Statement>, elseEnd: nat)
    requires pos < |ts| && ts[pos].info == IF && condStart == pos + 1
    requires BExpr(ts, condStart) == Parsed(Ok(cond), thenAt)
    requires thenAt < |ts| && ts[thenAt].info == THEN && thenStart == thenAt + 1
    requires Series(ts, thenStart) == Parsed(Ok(thenPart), thenEnd)
    requires ElsePart(ts, thenEnd) == Parsed(Ok(elsePart), elseEnd)
    requires elseEnd < |ts| && ts[elseEnd].info == FI
    ensures CondStmt(ts, pos) == Parsed(Ok(ConditionalStatement(cond, thenPart, elsePart)), elseEnd + 1)
  {
    assert SkipNewLines(ts, pos) == pos;
    assert SkipNewLines(ts, thenAt) == thenAt;
    assert SkipNewLines(ts, elseEnd) == elseEnd;
  }

  /** Nothing but `fi` follows the body of `if true then skip fi`. */
  lemma IfTrueHasNoElse()
    ensures ElsePart([Token("if", IF), Token("true", BCONSTANT), Token("then", THEN), Token("skip", SKIP), Token("fi", FI)], 4) == Parsed(Ok([]), 4)
  {
    var ts := [Token("if", IF), Token("true", BCONSTANT), Token("then", THEN), Token("skip", SKIP), Token("fi", FI)];
    assert SkipNewLines(ts, 4) == 4;
  }

  /** The condition of `if true then skip fi`. */
  lemma IfTrueConditionIsRead()
    ensures BExpr([Token("if", IF), Token("true", BCONSTANT), Token("then", THEN), Token("skip", SKIP), Token("fi", FI)], 1) == Parsed(Ok(BooleanConstant(true)), 2)
  {
    var ts := [Token("if", IF), Token("true", BCONSTANT), Token("then", THEN), Token("skip", SKIP), Token("fi", FI)];
    ConstantIsElement(ts, 1);
    LoneElementIsBExpr(ts, 1);
  }

  /** The body of `if true then skip fi`. */
  lemma IfTrueBodyIsRead()
    ensures Series([Token("if", IF), Token("true", BCONSTANT), Token("then", THEN), Token("skip", SKIP), Token("fi", FI)], 3) == Parsed(Ok([SkipStatement]), 4)
  {
  }

  /** `ts` holds, from `pos` on, the names as VARNAME tokens separated by COMMAs. */
  predicate NameListAt(ts: seq<Token>, pos: nat, names: seq<string>)
    decreases |names|
  {
    && 1 <= |names| && pos + 2 * |names| - 1 <= |ts|
    && ts[pos] == Token(names[0], VARNAME)
    && (|names| > 1 ==> ts[pos + 1] == Token(",", COMMA) && NameListAt(ts, pos + 2, names[1..]))
  }

  /** `varList` reads `names` from `pos` and stops at `end`. */
  predicate VarListReads(ts: seq<Token>, pos: nat, names: seq<string>, end: nat)
  {
    pos <= |ts| && VarList(ts, pos) == Parsed(Ok(names), end)
  }

  /** `varList` reads back exactly the names of a name list, whatever follows it, unless that is a COMMA. */
  lemma {:induction false} VarListReadsNameList(names: seq<string>, ts: seq<Token>, pos: nat, end: nat)
    requires NameListAt(ts, pos, names) && end == pos + 2 * |names| - 1
    requires Peek(ts, end) != COMMA
    ensures VarListReads(ts, pos, names, end)
    decreases |names|
  {
    NameListParts(ts, pos, names);
    if |names| == 1 {
      LastNameEndsVarList(ts, pos);
      assert [names[0]] == names;
    } else {
      var rest, next := names[1..], pos + 2;
      assert end == next + 2 * |rest| - 1;
      VarListReadsNameList(rest, ts, next, end);
      CommaContinuesVarList(ts, pos, next, rest, end);
      assert [names[0]] + rest == names;
    }
  }

  /** The first name of a name list, and the COMMA and the list after it. */
  lemma NameListParts(ts: seq<Token>, pos: nat, names: seq<string>)
    requires NameListAt(ts, pos, names)
    ensures pos < |ts| && ts[pos].info == VARNAME && ts[pos].value == names[0]
    ensures |names| > 1 ==> pos + 1 < |ts| && ts[pos + 1].info == COMMA && NameListAt(ts, pos + 2, names[1..])
  {
  }

  /** A name that no COMMA follows ends the list. */
  lemma LastNameEndsVarList(ts: seq<Token>, pos: nat)
    requires pos < |ts| && ts[pos].info == VARNAME && Peek(ts, pos + 1) != COMMA
    ensures VarListReads(ts, pos, [ts[pos].value], pos + 1)
  {
    assert SkipNewLines(ts, pos) == pos;
  }

  /** A name, a COMMA and a further list. */
  lemma CommaContinuesVarList(ts: seq<Token>, pos: nat, next: nat, rest: seq<string>, end: nat)
    requires pos + 1 < |ts| && ts[pos].info == VARNAME && ts[pos + 1].info == COMMA
    requires next == pos + 2 && VarListReads(ts, next, rest, end)
    ensures VarListReads(ts, pos, [ts[pos].value] + rest, end)
  {
    assert SkipNewLines(ts, pos) == pos;
    assert SkipNewLines(ts, pos + 1) == pos + 1;
  }

  /* ---------- Arithmetic expressions ---------- */

  /** A VARNAME token under the cursor is an element: the variable. */
  lemma NameIsElement(ts: seq<Token>, pos: nat)
    requires pos < |ts| && ts[pos].info == VARNAME
    ensures AElem(ts, pos) == Parsed(Ok(NumericVariable(ts[pos].value)), pos + 1)
  {
    assert SkipNewLines(ts, pos) == pos;
  }

  /** An element that no `*`, `/`, `+` or `-` follows is a whole `aTerm` and a whole `aExpr`. */
  lemma LoneElementIsAExpr(ts: seq<Token>, pos: nat)
    requires pos <= |ts| && AElem(ts, pos).result.Ok?
    requires var next := Peek(ts, AElem(ts, pos).pos); !next.ASTRONGOP? && !next.AWEAKOP?
    ensures ATerm(ts, pos) == AElem(ts, pos) && AExpr(ts, pos) == AElem(ts, pos)
  {
    assert ATerm(ts, pos) == AElem(ts, pos);
  }

  /** `a - b - c` nests to the right. */
  lemma MinusIsRightAssociative()
    ensures AExpr([A, Dash, B, Dash, C], 0).result
         == Ok(MinusExpression(NumericVariable("a"), MinusExpression(NumericVariable("b"), NumericVariable("c"))))
  {
    var ts := [A, Dash, B, Dash, C];
    var c := NumericVariable("c");
    var b := NumericVariable("b");
    assert AElem(ts, 4) == Parsed(Ok(c), 5);
    assert ATerm(ts, 4) == Parsed(Ok(c), 5);
    assert AExpr(ts, 4) == Parsed(Ok(c), 5);
    assert AElem(ts, 2) == Parsed(Ok(b), 3);
    assert ATerm(ts, 2) == Parsed(Ok(b), 3);
    assert AExpr(ts, 2) == Parsed(Ok(MinusExpression(b, c)), 5);
    assert AElem(ts, 0) == Parsed(Ok(NumericVariable("a")), 1);
    assert ATerm(ts, 0) == Parsed(Ok(NumericVariable("a")), 1);
  }

  /** `a + b * c`: the product is the right operand of the sum. */
  lemma TimesBindsTighterOnTheRight()
    ensures AExpr([A, Plus, B, Star, C], 0).result
         == Ok(SumExpression(NumericVariable("a"), MultiplicationExpression(NumericVariable("b"), NumericVariable("c"))))
  {
    var ts := [A, Plus, B, Star, C];
    var c := NumericVariable("c");
    var b := NumericVariable("b");
    assert AElem(ts, 4) == Parsed(Ok(c), 5);
    assert ATerm(ts, 4) == Parsed(Ok(c), 5);
    assert AElem(ts, 2) == Parsed(Ok(b), 3);
    assert ATerm(ts, 2) == Parsed(Ok(MultiplicationExpression(b, c)), 5);
    assert AExpr(ts, 2) == Parsed(Ok(MultiplicationExpression(b, c)), 5);
    assert AElem(ts, 0) == Parsed(Ok(NumericVariable("a")), 1);
    assert ATerm(ts, 0) == Parsed(Ok(NumericVariable("a")), 1);
  }

  /** `a * b + c`: the product is the left operand of the sum. */
  lemma TimesBindsTighterOnTheLeft()
    ensures AExpr([A, Star, B, Plus, C], 0).result
         == Ok(SumExpression(MultiplicationExpression(NumericVariable("a"), NumericVariable("b")), NumericVariable("c")))
  {
    var ts := [A, Star, B, Plus, C];
    var c := NumericVariable("c");
    var b := NumericVariable("b");
    assert AElem(ts, 4) == Parsed(Ok(c), 5);
    assert ATerm(ts, 4) == Parsed(Ok(c), 5);
    assert AExpr(ts, 4) == Parsed(Ok(c), 5);
    assert AElem(ts, 2) == Parsed(Ok(b), 3);
    assert ATerm(ts, 2) == Parsed(Ok(b), 3);
    assert AElem(ts, 0) == Parsed(Ok(NumericVariable("a")), 1);
    assert ATerm(ts, 0) == Parsed(Ok(MultiplicationExpression(NumericVariable("a"), b)), 3);
  }

  /** The operator token of a binary node. */
  function OperatorToken(e: AlgebraicExpression): Token
    requires !(e.NumberLiteral? || e.NumericVariable?)
  {
    match e
    case SumExpression(_, _) => Plus
    case MinusExpression(_, _) => Dash
    case MultiplicationExpression(_, _) => Star
    case DivisionExpression(_, _) => Slash
  }

  /** The token of a number or a name. */
  function LeafToken(e: AlgebraicExpression): Token
    requires e.NumberLiteral? || e.NumericVariable?
  {
    if e.NumberLiteral? then Token(DecimalText(e.value), NUMBER) else Token(e.name, VARNAME)
  }

  /** How many tokens the bracketed spelling of `e` takes. */
  function Width(e: AlgebraicExpression): nat
  {
    if e.NumberLiteral? || e.NumericVariable? then 1 else Width(e.left) + Width(e.right) + 3
  }

  /**
   * Token `k` of the fully bracketed spelling of `e`, in which every binary
   * node is written `(` left operator right `)`.
   */
  function SpellingToken(e: AlgebraicExpression, k: nat): Token
    requires k < Width(e)
    decreases e
  {
    if e.NumberLiteral? || e.NumericVariable? then LeafToken(e)
    else if k == 0 then Open
    else if k < 1 + Width(e.left) then SpellingToken(e.left, k - 1)
    else if k == 1 + Width(e.left) then OperatorToken(e)
    else if k < Width(e) - 1 then SpellingToken(e.right, k - 2 - Width(e.left))
    else Close
  }

  /** The fully bracketed spelling of `e` as a token list. */
  function Bracketed(e: AlgebraicExpression): seq<Token>
  {
    seq(Width(e), k requires 0 <= k < Width(e) => SpellingToken(e, k))
  }

  /**
   * `ts` holds the bracketed spelling of `e` from index `pos` on, node by node;
   * a number may be written by any NUMBER text that `toLong` reads as its value.
   */
  predicate SpelledAt(ts: seq<Token>, pos: nat, e: AlgebraicExpression)
    decreases e
  {
    if e.NumberLiteral? then pos < |ts| && ts[pos].info == NUMBER && ToLongOrNull(ts[pos].value) == Some(e.value)
    else if e.NumericVariable? then pos < |ts| && ts[pos] == Token(e.name, VARNAME)
    else
      var op := pos + 1 + Width(e.left);
      var close := op + 1 + Width(e.right);
      && close < |ts| && ts[pos] == Open && ts[op] == OperatorToken(e) && ts[close] == Close
      && SpelledAt(ts, pos + 1, e.left) && SpelledAt(ts, op + 1, e.right)
  }

  /** `ts` holds the tokens of the bracketed spelling of `e` from `pos` on. */
  predicate HoldsSpelling(ts: seq<Token>, pos: nat, e: AlgebraicExpression)
  {
    pos + Width(e) <= |ts| && forall k :: 0 <= k < Width(e) ==> ts[pos + k] == SpellingToken(e, k)
  }

  /** The spelling of a binary node is `(`, the left operand's, the operator, the right operand's, `)`. */
  lemma HoldsOperandSpellings(ts: seq<Token>, pos: nat, e: AlgebraicExpression)
    requires !(e.NumberLiteral? || e.NumericVariable?) && HoldsSpelling(ts, pos, e)
    ensures var op := pos + 1 + Width(e.left);
            var close := op + 1 + Width(e.right);
            && close < |ts| && ts[pos] == Open && ts[op] == OperatorToken(e) && ts[close] == Close
            && HoldsSpelling(ts, pos + 1, e.left) && HoldsSpelling(ts, op + 1, e.right)
  {
    HoldsLeftSpelling(ts, pos, e);
    HoldsRightSpelling(ts, pos, e);
    var wl := Width(e.left);
    assert ts[pos + 0] == SpellingToken(e, 0);
    assert ts[pos + (1 + wl)] == SpellingToken(e, 1 + wl);
    assert ts[pos + (Width(e) - 1)] == SpellingToken(e, Width(e) - 1);
  }

  lemma HoldsLeftSpelling(ts: seq<Token>, pos: nat, e: AlgebraicExpression)
    requires !(e.NumberLiteral? || e.NumericVariable?) && HoldsSpelling(ts, pos, e)
    ensures HoldsSpelling(ts, pos + 1, e.left)
  {
    forall k | 0 <= k < Width(e.left) ensures ts[pos + 1 + k] == SpellingToken(e.left, k) {
      assert ts[pos + (1 + k)] == SpellingToken(e, 1 + k);
    }
  }

  lemma HoldsRightSpelling(ts: seq<Token>, pos: nat, e: AlgebraicExpression)
    requires !(e.NumberLiteral? || e.NumericVariable?) && HoldsSpelling(ts, pos, e)
    ensures HoldsSpelling(ts, pos + 2 + Width(e.left), e.right)
  {
    var wl := Width(e.left);
    forall k | 0 <= k < Width(e.right) ensures ts[pos + 2 + wl + k] == SpellingToken(e.right, k) {
      assert ts[pos + (2 + wl + k)] == SpellingToken(e, 2 + wl + k);
    }
  }

  /** Holding the tokens of the spelling is holding the spelling, node by node. */
  lemma {:induction false} SpellingIsSpelledAt(ts: seq<Token>, pos: nat, e: AlgebraicExpression)
    requires HoldsSpelling(ts, pos, e)
    ensures SpelledAt(ts, pos, e)
    decreases e
  {
    if e.NumberLiteral? || e.NumericVariable? {
      assert ts[pos + 0] == SpellingToken(e, 0);
      if e.NumberLiteral? {
        ToLongOrNullReadsDecimalText(e.value);
      }
    } else {
      HoldsOperandSpellings(ts, pos, e);
      SpellingIsSpelledAt(ts, pos + 1, e.left);
      SpellingIsSpelledAt(ts, pos + 2 + Width(e.left), e.right);
    }
  }

  /*
   * Reading a spelling back. The next four lemmas state one parsing step each,
   * from what the parser returns on the parts; `AElemReadsSpelling` strings
   * them together by induction on the expression. Token positions are passed
   * as parameters (`inner` right after `(`, `op` the operator, `right` right
   * after it, `close` the `)`), tied together by `requires`.
   */

  /** `aExpr` on l `+` r `)` or l `-` r `)`: the left operand is a whole term, the right one a whole `aExpr`. */
  lemma AExprReadsAdditive(ts: seq<Token>, pos: nat, e: AlgebraicExpression, op: nat, right: nat, close: nat)
    requires e.SumExpression? || e.MinusExpression?
    requires pos <= |ts| && AElem(ts, pos) == Parsed(Ok(e.left), op)
    requires op < |ts| && ts[op] == OperatorToken(e) && right == op + 1
    requires AElem(ts, right) == Parsed(Ok(e.right), close)
    requires close < |ts| && ts[close] == Close
    ensures AExpr(ts, pos) == Parsed(Ok(e), close)
  {
    LoneElementIsATerm(ts, pos, op);
    assert SkipNewLines(ts, close) == close;
    LoneElementIsAExpr(ts, right);
    WeakOperatorStep(ts, pos, e, op, right, close);
  }

  /** An element that no `*` or `/` follows is a whole term. */
  lemma LoneElementIsATerm(ts: seq<Token>, pos: nat, end: nat)
    requires pos <= |ts| && AElem(ts, pos).result.Ok? && AElem(ts, pos).pos == end
    requires end < |ts| && ts[end].info != ASTRONGOP && ts[end].info != NEWLINE
    ensures ATerm(ts, pos) == AElem(ts, pos)
  {
    assert SkipNewLines(ts, end) == end;
  }

  /** `aExpr` from a term, a `+` or `-` and a further `aExpr`. */
  lemma WeakOperatorStep(ts: seq<Token>, pos: nat, e: AlgebraicExpression, op: nat, right: nat, end: nat)
    requires e.SumExpression? || e.MinusExpression?
    requires pos <= |ts| && ATerm(ts, pos) == Parsed(Ok(e.left), op)
    requires op < |ts| && ts[op] == OperatorToken(e) && right == op + 1
    requires AExpr(ts, right) == Parsed(Ok(e.right), end)
    ensures AExpr(ts, pos) == Parsed(Ok(e), end)
  {
    assert SkipNewLines(ts, op) == op;
  }

  /** `aExpr` on l `*` r `)` or l `/` r `)`: the node is one term, and the `)` ends the `aExpr`. */
  lemma AExprReadsMultiplicative(ts: seq<Token>, pos: nat, e: AlgebraicExpression, op: nat, right: nat, close: nat)
    requires e.MultiplicationExpression? || e.DivisionExpression?
    requires pos <= |ts| && AElem(ts, pos) == Parsed(Ok(e.left), op)
    requires op < |ts| && ts[op] == OperatorToken(e) && right == op + 1
    requires AElem(ts, right) == Parsed(Ok(e.right), close)
    requires close < |ts| && ts[close] == Close
    ensures AExpr(ts, pos) == Parsed(Ok(e), close)
  {
    assert SkipNewLines(ts, close) == close;
    LoneElementIsAExpr(ts, right);
    assert SkipNewLines(ts, op) == op;
    assert ATerm(ts, pos) == Parsed(Ok(e), close);
  }

  /** `ts` holds `(` at `pos`, the operator of `e` at `op` and `)` at `close`. */
  predicate NodeTokensAt(ts: seq<Token>, pos: nat, e: AlgebraicExpression, op: nat, close: nat)
    requires !(e.NumberLiteral? || e.NumericVariable?)
  {
    pos < op < close < |ts| && ts[pos] == Open && ts[op] == OperatorToken(e) && ts[close] == Close
  }

  /** `aElem` on `(` l op r `)`: the brackets hold the operation. */
  lemma AElemReadsParenthesized(ts: seq<Token>, pos: nat, e: AlgebraicExpression, inner: nat, op: nat, right: nat, close: nat)
    requires !(e.NumberLiteral? || e.NumericVariable?) && NodeTokensAt(ts, pos, e, op, close)
    requires inner == pos + 1 && right == op + 1
    requires AElem(ts, inner) == Parsed(Ok(e.left), op) && AElem(ts, right) == Parsed(Ok(e.right), close)
    ensures AElem(ts, pos) == Parsed(Ok(e), close + 1)
  {
    if e.SumExpression? || e.MinusExpression? {
      AExprReadsAdditive(ts, inner, e, op, right, close);
    } else {
      AExprReadsMultiplicative(ts, inner, e, op, right, close);
    }
    AElemReadsBrackets(ts, pos, inner, e, close);
  }

  /** `aElem` on `(`, an `aExpr`, `)`: the expression inside. */
  lemma AElemReadsBrackets(ts: seq<Token>, pos: nat, inner: nat, e: AlgebraicExpression, close: nat)
    requires pos < |ts| && ts[pos] == Open && inner == pos + 1 && AExpr(ts, inner) == Parsed(Ok(e), close)
    requires close < |ts| && ts[close] == Close
    ensures AElem(ts, pos) == Parsed(Ok(e), close + 1)
  {
    assert SkipNewLines(ts, pos) == pos;
    assert SkipNewLines(ts, close) == close;
  }

  /** `aElem` reads the token of a number or a name as that leaf. */
  lemma AElemReadsLeaf(e: AlgebraicExpression, ts: seq<Token>, pos: nat)
    requires (e.NumberLiteral? || e.NumericVariable?) && SpelledAt(ts, pos, e)
    ensures AElem(ts, pos) == Parsed(Ok(e), pos + 1)
  {
    assert SkipNewLines(ts, pos) == pos;
  }

  /** `aElem` reads a spelling back as the expression it spells, whatever follows it. */
  lemma {:induction false} AElemReadsSpelling(e: AlgebraicExpression, ts: seq<Token>, pos: nat)
    requires SpelledAt(ts, pos, e)
    ensures AElem(ts, pos) == Parsed(Ok(e), pos + Width(e))
    decreases e, 1
  {
    if e.NumberLiteral? || e.NumericVariable? {
      AElemReadsLeaf(e, ts, pos);
    } else {
      var inner := pos + 1;
      var op := inner + Width(e.left);
      var right := op + 1;
      var close := right + Width(e.right);
      SpelledNode(e, ts, pos, op, close);
      LeftOperandRead(e, ts, pos, inner, op);
      RightOperandRead(e, ts, pos, right, close);
      AElemReadsParenthesized(ts, pos, e, inner, op, right, close);
      assert close + 1 == pos + Width(e);
    }
  }

  /** The tokens a spelt binary node puts around its operands. */
  lemma SpelledNode(e: AlgebraicExpression, ts: seq<Token>, pos: nat, op: nat, close: nat)
    requires !(e.NumberLiteral? || e.NumericVariable?) && SpelledAt(ts, pos, e)
    requires op == pos + 1 + Width(e.left) && close == op + 1 + Width(e.right)
    ensures NodeTokensAt(ts, pos, e, op, close)
  {
  }

  /** `aElem` reads the left operand of a spelt binary node, right after `(`. */
  lemma {:induction false} LeftOperandRead(e: AlgebraicExpression, ts: seq<Token>, pos: nat, inner: nat, op: nat)
    requires !(e.NumberLiteral? || e.NumericVariable?) && SpelledAt(ts, pos, e)
    requires inner == pos + 1 && op == inner + Width(e.left)
    ensures AElem(ts, inner) == Parsed(Ok(e.left), op)
    decreases e, 0
  {
    SpelledOperands(e, ts, pos, inner, op + 1);
    AElemReadsSpelling(e.left, ts, inner);
  }

  /** `aElem` reads the right operand of a spelt binary node, right after the operator. */
  lemma {:induction false} RightOperandRead(e: AlgebraicExpression, ts: seq<Token>, pos: nat, right: nat, close: nat)
    requires !(e.NumberLiteral? || e.NumericVariable?) && SpelledAt(ts, pos, e)
    requires right == pos + 1 + Width(e.left) + 1 && close == right + Width(e.right)
    ensures AElem(ts, right) == Parsed(Ok(e.right), close)
    decreases e, 0
  {
    SpelledOperands(e, ts, pos, pos + 1, right);
    AElemReadsSpelling(e.right, ts, right);
  }

  /** The operands of a spelt binary node are spelt right after `(` and right after the operator. */
  lemma SpelledOperands(e: AlgebraicExpression, ts: seq<Token>, pos: nat, inner: nat, right: nat)
    requires !(e.NumberLiteral? || e.NumericVariable?) && SpelledAt(ts, pos, e)
    requires inner == pos + 1 && right == pos + 1 + Width(e.left) + 1
    ensures SpelledAt(ts, inner, e.left) && SpelledAt(ts, right, e.right)
  {
  }

  /**
   * Round trip: parsing the bracketed spelling of an expression gives the
   * expression back. (A negative literal is spelled as a NUMBER token with a
   * sign, which `toLong` accepts, although the lexer never produces one.)
   */
  lemma ParsesBracketedSpelling(e: AlgebraicExpression)
    ensures AExpr(Bracketed(e), 0) == Parsed(Ok(e), |Bracketed(e)|)
  {
    var ts := Bracketed(e);
    SpellingIsSpelledAt(ts, 0, e);
    AElemReadsSpelling(e, ts, 0);
  }

  /* ---------- Boolean expressions and relations ---------- */

  /** A BCONSTANT token under the cursor is a boolean element: true exactly for a spelling of `true`. */
  lemma ConstantIsElement(ts: seq<Token>, pos: nat)
    requires pos < |ts| && ts[pos].info == BCONSTANT
    ensures BElem(ts, pos) == Parsed(Ok(BooleanConstant(IsTrueIgnoringCase(ts[pos].value))), pos + 1)
  {
    assert SkipNewLines(ts, pos) == pos;
  }

  /** `aExprRelation` on an `aExpr`, a RELATION token naming comparison `c`, and another `aExpr`. */
  lemma RelationStep(ts: seq<Token>, pos: nat, c: Comparison, left: AlgebraicExpression, op: nat, from: nat, right: AlgebraicExpression, end: nat)
    requires pos <= |ts| && AExpr(ts, pos) == Parsed(Ok(left), op)
    requires op < |ts| && ts[op].info == RELATION && ComparisonOf(ts[op].value) == Some(c)
    requires from == op + 1 && AExpr(ts, from) == Parsed(Ok(right), end)
    ensures AExprRelation(ts, pos) == Parsed(Ok(RelationExpression(MakeRelation(c, left, right))), end)
  {
    assert SkipNewLines(ts, op) == op;
  }

  /** A boolean element that no `and` or `or` follows is a whole `bTerm` and a whole `bExpr`. */
  lemma LoneElementIsBExpr(ts: seq<Token>, pos: nat)
    requires pos <= |ts| && BElem(ts, pos).result.Ok?
    requires var next := Peek(ts, BElem(ts, pos).pos); !next.AND? && !next.OR?
    ensures BTerm(ts, pos) == BElem(ts, pos) && BExpr(ts, pos) == BElem(ts, pos)
  {
    assert BTerm(ts, pos) == BElem(ts, pos);
  }

  /** A boolean element that no `and` follows is a whole `bTerm`. */
  lemma LoneElementIsBTerm(ts: seq<Token>, pos: nat)
    requires pos <= |ts| && BElem(ts, pos).result.Ok?
    requires !Peek(ts, BElem(ts, pos).pos).AND?
    ensures BTerm(ts, pos) == BElem(ts, pos)
  {
  }

  /** A `bTerm` that no `or` follows is a whole `bExpr`. */
  lemma LoneTermIsBExpr(ts: seq<Token>, pos: nat)
    requires pos <= |ts| && BTerm(ts, pos).result.Ok?
    requires !Peek(ts, BTerm(ts, pos).pos).OR?
    ensures BExpr(ts, pos) == BTerm(ts, pos)
  {
  }

  /** `bTerm` on an element, an AND token and a further `bTerm`. */
  lemma AndStep(ts: seq<Token>, pos: nat, left: BooleanExpression, op: nat, from: nat, right: BooleanExpression, end: nat)
    requires pos <= |ts| && BElem(ts, pos) == Parsed(Ok(left), op)
    requires op < |ts| && ts[op].info == AND
    requires from == op + 1 && BTerm(ts, from) == Parsed(Ok(right), end)
    ensures BTerm(ts, pos) == Parsed(Ok(AndExpression(left, right)), end)
  {
    var l, r := BElem(ts, pos), BTerm(ts, from);
    assert !l.IsFailure() && l.Extract() == (left, op);
    assert !r.IsFailure() && r.Extract() == (right, end);
    assert SkipNewLines(ts, op) == op;
  }

  /** `bExpr` on a `bTerm`, an OR token and a further `bExpr`. */
  lemma OrStep(ts: seq<Token>, pos: nat, left: BooleanExpression, op: nat, from: nat, right: BooleanExpression, end: nat)
    requires pos <= |ts| && BTerm(ts, pos) == Parsed(Ok(left), op)
    requires op < |ts| && ts[op].info == OR
    requires from == op + 1 && BExpr(ts, from) == Parsed(Ok(right), end)
    ensures BExpr(ts, pos) == Parsed(Ok(OrExpression(left, right)), end)
  {
    assert SkipNewLines(ts, op) == op;
  }

  /** `not` followed by one boolean element. */
  lemma NotStep(ts: seq<Token>, pos: nat, from: nat, operand: BooleanExpression, end: nat)
    requires pos < |ts| && ts[pos].info == NOT
    requires from == pos + 1 && BElem(ts, from) == Parsed(Ok(operand), end)
    ensures BElem(ts, pos) == Parsed(Ok(NotExpression(operand)), end)
  {
    assert SkipNewLines(ts, pos) == pos;
  }

  /** A boolean element that starts with a number or a name is a relation. */
  lemma RelationIsElement(ts: seq<Token>, pos: nat)
    requires pos < |ts| && (ts[pos].info == NUMBER || ts[pos].info == VARNAME)
    ensures BElem(ts, pos) == AExprRelation(ts, pos)
  {
    assert SkipNewLines(ts, pos) == pos;
  }

  /** A boolean element that starts with `(` is resolved between a relation and a bracketed boolean. */
  lemma BracketIsResolved(ts: seq<Token>, pos: nat)
    requires pos < |ts| && ts[pos].info == OPENINGBRACKET
    ensures BElem(ts, pos) == ResolveBrackets(ts, pos)
  {
    assert SkipNewLines(ts, pos) == pos;
  }

  /** `(` bExpr `)`. */
  lemma BracketsStep(ts: seq<Token>, pos: nat, from: nat, inner: BooleanExpression, close: nat)
    requires pos < |ts| && ts[pos].info == OPENINGBRACKET
    requires from == pos + 1 && BExpr(ts, from) == Parsed(Ok(inner), close)
    requires close < |ts| && ts[close].info == CLOSINGBRACKET
    ensures BElemBrackets(ts, pos) == Parsed(Ok(inner), close + 1)
  {
    assert SkipNewLines(ts, pos) == pos;
    assert SkipNewLines(ts, close) == close;
  }

  /** `true or false and true`: `and` binds tighter, `or` is the root. */
  lemma AndBindsTighterThanOr()
    ensures BExpr([Token("true", BCONSTANT), Token("or", OR), Token("false", BCONSTANT), Token("and", AND), Token("true", BCONSTANT)], 0).result
         == Ok(OrExpression(BooleanConstant(true), AndExpression(BooleanConstant(false), BooleanConstant(true))))
  {
    var ts := [Token("true", BCONSTANT), Token("or", OR), Token("false", BCONSTANT), Token("and", AND), Token("true", BCONSTANT)];
    ConstantIsElement(ts, 0);
    LoneElementIsBTerm(ts, 0);
    ConjunctionAfterOr();
    OrStep(ts, 0, BooleanConstant(true), 1, 2, AndExpression(BooleanConstant(false), BooleanConstant(true)), 5);
  }

  /** In `true or false and true`, the right operand of `or` is the whole conjunction. */
  lemma ConjunctionAfterOr()
    ensures BExpr([Token("true", BCONSTANT), Token("or", OR), Token("false", BCONSTANT), Token("and", AND), Token("true", BCONSTANT)], 2) == Parsed(Ok(AndExpression(BooleanConstant(false), BooleanConstant(true))), 5)
  {
    var ts := [Token("true", BCONSTANT), Token("or", OR), Token("false", BCONSTANT), Token("and", AND), Token("true", BCONSTANT)];
    ConstantIsElement(ts, 4);
    LoneElementIsBTerm(ts, 4);
    ConstantIsElement(ts, 2);
    AndStep(ts, 2, BooleanConstant(false), 3, 4, BooleanConstant(true), 5);
    LoneTermIsBExpr(ts, 2);
  }

  /** `not true and false`: `not` takes a single element, so the conjunction is the root. */
  lemma NotTakesOneElement()
    ensures BExpr([Token("not", NOT), Token("true", BCONSTANT), Token("and", AND), Token("false", BCONSTANT)], 0).result
         == Ok(AndExpression(NotExpression(BooleanConstant(true)), BooleanConstant(false)))
  {
    var ts := [Token("not", NOT), Token("true", BCONSTANT), Token("and", AND), Token("false", BCONSTANT)];
    NotReadsOneElement();
    ConstantIsElement(ts, 3);
    LoneElementIsBTerm(ts, 3);
    AndStep(ts, 0, NotExpression(BooleanConstant(true)), 2, 3, BooleanConstant(false), 4);
    LoneTermIsBExpr(ts, 0);
  }

  /** In `not true and false`, `not` takes only `true`. */
  lemma NotReadsOneElement()
    ensures BElem([Token("not", NOT), Token("true", BCONSTANT), Token("and", AND), Token("false", BCONSTANT)], 0) == Parsed(Ok(NotExpression(BooleanConstant(true))), 2)
  {
    var ts := [Token("not", NOT), Token("true", BCONSTANT), Token("and", AND), Token("false", BCONSTANT)];
    ConstantIsElement(ts, 1);
    NotStep(ts, 0, 1, BooleanConstant(true), 2);
  }

  /** Boolean constants are read case-insensitively: `TRUE` is true, anything but a spelling of `true` is false. */
  lemma ConstantsIgnoreCase()
    ensures BElem([Token("TRUE", BCONSTANT)], 0).result == Ok(BooleanConstant(true))
    ensures BElem([Token("false", BCONSTANT)], 0).result == Ok(BooleanConstant(false))
  {
    assert IsTrueIgnoringCase("TRUE");
    assert !IsTrueIgnoringCase("false");
  }

  /** The operator text selects the relation; less-or-equal is spelled `=<`. */
  lemma EqualsLessIsSmallerThanOrEqual()
    ensures AExprRelation([A, Token("=<", RELATION), B], 0).result
         == Ok(RelationExpression(SmallerThanOrEqualRelation(NumericVariable("a"), NumericVariable("b"))))
  {
    var ts := [A, Token("=<", RELATION), B];
    assert AElem(ts, 0) == Parsed(Ok(NumericVariable("a")), 1);
    assert ATerm(ts, 0) == Parsed(Ok(NumericVariable("a")), 1);
    assert AExpr(ts, 0) == Parsed(Ok(NumericVariable("a")), 1);
    assert AElem(ts, 2) == Parsed(Ok(NumericVariable("b")), 3);
    assert ATerm(ts, 2) == Parsed(Ok(NumericVariable("b")), 3);
    assert ComparisonOf("=<") == Some(LessOrEqual);
  }

  /** `<=` arrives as the two tokens `<` `=`, and a relation has exactly one operator: rejected. */
  lemma LessEqualsIsRejected()
    ensures AExprRelation([A, LessSign, Token("=", RELATION), B], 0).result
         == Err(ParseException(AElemExpected(RELATION)))
  {
    var ts := [A, LessSign, Token("=", RELATION), B];
    assert AElem(ts, 0) == Parsed(Ok(NumericVariable("a")), 1);
    assert ATerm(ts, 0) == Parsed(Ok(NumericVariable("a")), 1);
    assert AExpr(ts, 0) == Parsed(Ok(NumericVariable("a")), 1);
    assert ComparisonOf("<") == Some(Less);
    assert AElem(ts, 2) == Parsed(Err(ParseException(AElemExpected(RELATION))), 2);
    assert ATerm(ts, 2) == Parsed(Err(ParseException(AElemExpected(RELATION))), 2);
    assert AExpr(ts, 2) == Parsed(Err(ParseException(AElemExpected(RELATION))), 2);
  }

  /** Every comparison the parser builds comes from exactly one operator text. */
  lemma ComparisonTextIsUnique(t1: string, t2: string)
    requires ComparisonOf(t1).Some? && ComparisonOf(t1) == ComparisonOf(t2)
    ensures t1 == t2
  {
  }

  /** `(a + b) < c`: the relation alternative succeeds, with a bracketed left operand. */
  lemma BracketedOperandOfRelation()
    ensures BElem([Open, A, Plus, B, Close, LessSign, C], 0).result
         == Ok(RelationExpression(SmallerThanRelation(SumExpression(NumericVariable("a"), NumericVariable("b")), NumericVariable("c"))))
  {
    var ts := [Open, A, Plus, B, Close, LessSign, C];
    BracketedSumIsOperand();
    NameIsElement(ts, 6);
    LoneElementIsAExpr(ts, 6);
    RelationStep(ts, 0, Less, SumExpression(NumericVariable("a"), NumericVariable("b")), 5, 6, NumericVariable("c"), 7);
    BracketIsResolved(ts, 0);
  }

  /** The left operand of `(a + b) < c` is the bracketed sum. */
  lemma BracketedSumIsOperand()
    ensures AExpr([Open, A, Plus, B, Close, LessSign, C], 0) == Parsed(Ok(SumExpression(NumericVariable("a"), NumericVariable("b"))), 5)
  {
    var ts := [Open, A, Plus, B, Close, LessSign, C];
    var sum := SumExpression(NumericVariable("a"), NumericVariable("b"));
    NameIsElement(ts, 1);
    NameIsElement(ts, 3);
    assert NodeTokensAt(ts, 0, sum, 2, 4);
    AElemReadsParenthesized(ts, 0, sum, 1, 2, 3, 4);
    LoneElementIsAExpr(ts, 0);
  }

  /** The relation alternative on `(a < b)` fails with a ParseException at the `<`, with the cursor there. */
  lemma RelationAlternativeFailsOnBracketedRelation()
    ensures AExprRelation([Open, A, LessSign, B, Close, Token("and", AND), Token("true", BCONSTANT)], 0)
         == Parsed(Err(ParseException(CouldNotFind(CLOSINGBRACKET, LessSign, 2))), 2)
  {
    var ts := [Open, A, LessSign, B, Close, Token("and", AND), Token("true", BCONSTANT)];
    assert AElem(ts, 1) == Parsed(Ok(NumericVariable("a")), 2);
    assert ATerm(ts, 1) == Parsed(Ok(NumericVariable("a")), 2);
    assert AExpr(ts, 1) == Parsed(Ok(NumericVariable("a")), 2);
    assert AElem(ts, 0).pos == 2;
    assert ATerm(ts, 0).pos == 2;
  }

  /** The brackets of `(a < b) and true`, read as a bracketed boolean, hold the relation. */
  lemma BracketedBooleanHoldsRelation()
    ensures BElemBrackets([Open, A, LessSign, B, Close, Token("and", AND), Token("true", BCONSTANT)], 0)
         == Parsed(Ok(RelationExpression(SmallerThanRelation(NumericVariable("a"), NumericVariable("b")))), 5)
  {
    RelationAloneInBrackets();
    BracketsStep([Open, A, LessSign, B, Close, Token("and", AND), Token("true", BCONSTANT)], 0, 1, RelationExpression(SmallerThanRelation(NumericVariable("a"), NumericVariable("b"))), 4);
  }

  /** Inside the brackets of `(a < b) and true` stands the relation `a < b` as a whole boolean expression. */
  lemma RelationAloneInBrackets()
    ensures BExpr([Open, A, LessSign, B, Close, Token("and", AND), Token("true", BCONSTANT)], 1)
         == Parsed(Ok(RelationExpression(SmallerThanRelation(NumericVariable("a"), NumericVariable("b")))), 4)
  {
    var ts := [Open, A, LessSign, B, Close, Token("and", AND), Token("true", BCONSTANT)];
    assert ts[1] == A && ts[4] == Close && SkipNewLines(ts, 4) == 4;
    RelationInsideBrackets();
    RelationIsElement(ts, 1);
    LoneElementIsBExpr(ts, 1);
  }

  /** Inside the brackets of `(a < b) and true` stands the relation `a < b`. */
  lemma RelationInsideBrackets()
    ensures AExprRelation([Open, A, LessSign, B, Close, Token("and", AND), Token("true", BCONSTANT)], 1)
         == Parsed(Ok(RelationExpression(SmallerThanRelation(NumericVariable("a"), NumericVariable("b")))), 4)
  {
    var ts := [Open, A, LessSign, B, Close, Token("and", AND), Token("true", BCONSTANT)];
    NameIsElement(ts, 1);
    LoneElementIsAExpr(ts, 1);
    NameIsElement(ts, 3);
    LoneElementIsAExpr(ts, 3);
    RelationStep(ts, 1, Less, NumericVariable("a"), 2, 3, NumericVariable("b"), 4);
  }

  /** `(a < b) and true`: after that failure the cursor goes back to `(` and the bracketed boolean is parsed. */
  lemma BracketedRelationIsRetriedAsBoolean()
    ensures BExpr([Open, A, LessSign, B, Close, Token("and", AND), Token("true", BCONSTANT)], 0).result
         == Ok(AndExpression(RelationExpression(SmallerThanRelation(NumericVariable("a"), NumericVariable("b"))), BooleanConstant(true)))
  {
    var ts := [Open, A, LessSign, B, Close, Token("and", AND), Token("true", BCONSTANT)];
    var rel := RelationExpression(SmallerThanRelation(NumericVariable("a"), NumericVariable("b")));
    RelationAlternativeFailsOnBracketedRelation();
    BracketedBooleanHoldsRelation();
    BracketIsResolved(ts, 0);
    assert ResolveBrackets(ts, 0) == Parsed(Ok(rel), 5);
    ConstantIsElement(ts, 6);
    LoneElementIsBTerm(ts, 6);
    AndStep(ts, 0, rel, 5, 6, BooleanConstant(true), 7);
    LoneTermIsBExpr(ts, 0);
  }

  /**
   * A name is not a boolean element on its own: when no arithmetic operator
   * or relation follows it, `bElem` raises a ParseException for the missing
   * relation.
   */
  lemma BareVariableIsNotABoolean(ts: seq<Token>, pos: nat, after: nat)
    requires pos < |ts| && ts[pos].info == VARNAME && after == pos + 1
    requires var next := Peek(ts, after); next != AWEAKOP && next != ASTRONGOP && next != RELATION
    ensures BElem(ts, pos).result.Err?
    ensures BElem(ts, pos).result.error.ParseException?
    ensures BElem(ts, pos).result.error.reason.CouldNotFind? && BElem(ts, pos).result.error.reason.expected == RELATION
  {
    RelationIsElement(ts, pos);
    NameIsElement(ts, pos);
    LoneElementIsAExpr(ts, pos);
    assert Eat(ts, after, RELATION, true).result.Err?;
  }

  /** `c` alone is not a boolean. */
  lemma LoneNameIsNotABoolean()
    ensures BElem([C], 0).result.Err? && BElem([C], 0).result.error.ParseException?
  {
    BareVariableIsNotABoolean([C], 0, 1);
  }

  /** Only a ParseException triggers the retry: any other failure of the relation alternative is the result. */
  lemma BacktrackCatchesOnlyParseExceptions(ts: seq<Token>, pos: nat)
    requires pos <= |ts|
    requires AExprRelation(ts, pos).result.Err? && !AExprRelation(ts, pos).result.error.ParseException?
    ensures ResolveBrackets(ts, pos) == AExprRelation(ts, pos)
  {
  }

  /** A literal beyond the Long range inside the brackets escapes the backtrack as a NumberFormat failure. */
  lemma OutOfRangeLiteralEscapesBacktrack()
    ensures BElem([Open, Token("10000000000000000000", NUMBER), Close], 0).result
         == Err(NumberFormat("10000000000000000000"))
  {
    var big := "10000000000000000000";
    var ts := [Open, Token(big, NUMBER), Close];
    AllDigitsMeansEachIsDigit(big);
    TwentyDigitsAreOutOfRange(big);
    assert AElem(ts, 1) == Parsed(Err(NumberFormat(big)), 2);
    assert ATerm(ts, 1) == Parsed(Err(NumberFormat(big)), 2);
    assert AExpr(ts, 1) == Parsed(Err(NumberFormat(big)), 2);
    assert AElem(ts, 0) == Parsed(Err(NumberFormat(big)), 2);
    assert ATerm(ts, 0) == Parsed(Err(NumberFormat(big)), 2);
    assert AExpr(ts, 0) == Parsed(Err(NumberFormat(big)), 2);
    assert AExprRelation(ts, 0) == Parsed(Err(NumberFormat(big)), 2);
  }
}
