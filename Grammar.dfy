/**
 * The recursive-descent parser as functions over the token list and a cursor
 * `pos` (the index of the next token). Every rule returns a `Parsed`: the
 * node or the exception it raises, and the cursor it leaves behind, also on
 * failure, because the one backtracking point restores the cursor.
 */
module Grammar {
  import opened Results
  import opened Longs
  import opened Lexer
  import opened Nodes

  /** What a `ParseException` complains about. */
  datatype Reason =
    | CouldNotFind(expected: TokenInfo, foundToken: Token, tokenIndex: nat)
    | EndOfProgramExpected(found: TokenInfo)
    | StatementExpected(found: TokenInfo)
    | AElemExpected(found: TokenInfo)
    | BElemExpected(found: TokenInfo)
    | AdditiveOperatorExpected
    | MultiplicativeOperatorExpected
    | RelationOperatorExpected

  /**
   * The exceptions parsing can raise: `ParseException`, the only one the
   * backtrack catches; `NumberFormatException` from `toLong` on a literal out
   * of range; `NoSuchElementException` from the iterator's `previous()` when
   * `eatToken` fails with the cursor at index 0.
   */
  datatype ParseError = ParseException(reason: Reason) | NumberFormat(text: string) | NoSuchElement

  /** A rule's outcome and the cursor after it. */
  datatype Parsed<+T> = Parsed(result: Result<T, ParseError>, pos: nat) {
    predicate IsFailure() { result.Err? }

    function PropagateFailure<U>(): Parsed<U>
      requires IsFailure()
    {
      Parsed(Err(result.error), pos)
    }

    function Extract(): (T, nat)
      requires !IsFailure()
    {
      (result.value, pos)
    }
  }

  /** Index of the first token at or after `pos` that is not a NEWLINE, or `|ts|`. */
  function SkipNewLines(ts: seq<Token>, pos: nat): (i: nat)
    requires pos <= |ts|
    ensures pos <= i <= |ts|
    ensures i < |ts| ==> ts[i].info != NEWLINE
    decreases |ts| - pos
  {
    if pos < |ts| && ts[pos].info == NEWLINE then SkipNewLines(ts, pos + 1) else pos
  }

  /** Everything `SkipNewLines` passes over is a NEWLINE. */
  lemma {:induction false} SkippedAreNewLines(ts: seq<Token>, pos: nat)
    requires pos <= |ts|
    ensures forall j :: pos <= j < SkipNewLines(ts, pos) ==> ts[j].info == NEWLINE
    decreases |ts| - pos
  {
    if pos < |ts| && ts[pos].info == NEWLINE {
      SkippedAreNewLines(ts, pos + 1);
    }
  }

  /** `peekTokenIgnoreNewLines`: the kind of the next significant token; the end of input reads as NEWLINE. */
  function Peek(ts: seq<Token>, pos: nat): TokenInfo
    requires pos <= |ts|
  {
    var i := SkipNewLines(ts, pos);
    if i < |ts| then ts[i].info else NEWLINE
  }

  /**
   * `eatToken`: skips NEWLINEs when `ignoreNewLines`, then consumes one token,
   * which must be of kind `expected`. On failure the exception's message calls
   * `previous()`, which steps the cursor back over the token just taken (or,
   * at the end of input, over the last token) and throws NoSuchElement at index 0.
   */
  function Eat(ts: seq<Token>, pos: nat, expected: TokenInfo, ignoreNewLines: bool): (r: Parsed<Token>)
    requires pos <= |ts|
    ensures r.pos <= |ts|
    ensures r.result.Ok? ==> pos < r.pos && ts[r.pos - 1] == r.result.value && r.result.value.info == expected
  {
    var i := if ignoreNewLines then SkipNewLines(ts, pos) else pos;
    if i < |ts| && ts[i].info == expected then Parsed(Ok(ts[i]), i + 1)
    else
      var after := if i < |ts| then i + 1 else i;
      if after == 0 then Parsed(Err(NoSuchElement), 0)
      else Parsed(Err(ParseException(CouldNotFind(expected, ts[after - 1], after - 1))), after - 1)
  }

  /** After a peek has seen kind `k`, eating `k` takes exactly that token. */
  lemma PeekThenEat(ts: seq<Token>, pos: nat, k: TokenInfo)
    requires pos <= |ts| && k != NEWLINE && Peek(ts, pos) == k
    ensures var i := SkipNewLines(ts, pos);
            i < |ts| && ts[i].info == k && Eat(ts, pos, k, true) == Parsed(Ok(ts[i]), i + 1)
  {
  }

  /**
   * The index of the token the peek sees. Where the source peeks kind `k` and
   * then calls `eatToken(k)`, the rules below take `ts[Next(ts, pos)]` and move
   * the cursor past it, which is what `eatToken` does then (`PeekThenEat`).
   */
  function Next(ts: seq<Token>, pos: nat): (i: nat)
    requires pos <= |ts| && Peek(ts, pos) != NEWLINE
    ensures pos <= i < |ts| && ts[i].info == Peek(ts, pos)
  {
    SkipNewLines(ts, pos)
  }

  /** Kotlin's `String.toBoolean()`: true exactly for "true" in any letter case. */
  predicate IsTrueIgnoringCase(s: string)
  {
    && |s| == 4
    && (s[0] == 't' || s[0] == 'T') && (s[1] == 'r' || s[1] == 'R')
    && (s[2] == 'u' || s[2] == 'U') && (s[3] == 'e' || s[3] == 'E')
  }

  /** The comparison a RELATION token's text names. */
  datatype Comparison = Less | Greater | LessOrEqual | GreaterOrEqual | NotEqual | Equal

  function ComparisonOf(text: string): (c: Option<Comparison>)
  {
    if text == "<" then Some(Less)
    else if text == ">" then Some(Greater)
    else if text == "=<" then Some(LessOrEqual)
    else if text == ">=" then Some(GreaterOrEqual)
    else if text == "<>" then Some(NotEqual)
    else if text == "=" then Some(Equal)
    else None
  }

  function MakeRelation(c: Comparison, left: AlgebraicExpression, right: AlgebraicExpression): Relation
  {
    match c
    case Less => SmallerThanRelation(left, right)
    case Greater => GreaterThanRelation(left, right)
    case LessOrEqual => SmallerThanOrEqualRelation(left, right)
    case GreaterOrEqual => GreaterThanOrEqualRelation(left, right)
    case NotEqual => NotEqualsRelation(left, right)
    case Equal => EqualsRelation(left, right)
  }

  /** `buildAst`: the program the whole token list spells. */
  function BuildAst(ts: seq<Token>): Parsed<Program>
  {
    var p :- Progr(ts, 0);
    Parsed(Ok(Program(p.0)), p.1)
  }

  /** `progr`: a series, then a NEWLINE taken as is, after which only NEWLINEs may follow. */
  function Progr(ts: seq<Token>, pos: nat): (r: Parsed<seq<Statement>>)
    requires pos <= |ts|
    ensures r.pos <= |ts| && (r.result.Ok? ==> pos < r.pos)
    decreases |ts| - pos, 24
  {
    var statements :- Series(ts, pos);
    var newline :- Eat(ts, statements.1, NEWLINE, false);
    var next := Peek(ts, newline.1);
    if !next.NEWLINE? then Parsed(Err(ParseException(EndOfProgramExpected(next))), newline.1)
    else Parsed(Ok(statements.0), newline.1)
  }

  /** `series`: statements separated by `;`. */
  function Series(ts: seq<Token>, pos: nat): (r: Parsed<seq<Statement>>)
    requires pos <= |ts|
    ensures r.pos <= |ts| && (r.result.Ok? ==> pos < r.pos)
    decreases |ts| - pos, 23
  {
    var first :- Stmt(ts, pos);
    if Peek(ts, first.1).SEMICOLON? then
      var rest :- Series(ts, Next(ts, first.1) + 1);
      Parsed(Ok([first.0] + rest.0), rest.1)
    else
      Parsed(Ok([first.0]), first.1)
  }

  /** `stmt`: dispatches on the next significant token. */
  function Stmt(ts: seq<Token>, pos: nat): (r: Parsed<Statement>)
    requires pos <= |ts|
    ensures r.pos <= |ts| && (r.result.Ok? ==> pos < r.pos)
    decreases |ts| - pos, 22
  {
    var next := Peek(ts, pos);
    if next.VARNAME? then AssignStmt(ts, pos)
    else if next.WRITE? then OutputStmt(ts, pos)
    else if next.READ? then InputStmt(ts, pos)
    else if next.SKIP? then
      Parsed(Ok(SkipStatement), Next(ts, pos) + 1)
    else if next.IF? then CondStmt(ts, pos)
    else if next.WHILE? then LoopStmt(ts, pos)
    else Parsed(Err(ParseException(StatementExpected(next))), pos)
  }

  /** `loopStmt`: `while` bExpr `do` series `od`. */
  function LoopStmt(ts: seq<Token>, pos: nat): (r: Parsed<Statement>)
    requires pos <= |ts|
    ensures r.pos <= |ts| && (r.result.Ok? ==> pos < r.pos)
    decreases |ts| - pos, 21
  {
    var whileToken :- Eat(ts, pos, WHILE, true);
    var condition :- BExpr(ts, whileToken.1);
    var doToken :- Eat(ts, condition.1, DO, true);
    var body :- Series(ts, doToken.1);
    var odToken :- Eat(ts, body.1, OD, true);
    Parsed(Ok(LoopStatement(condition.0, body.0)), odToken.1)
  }

  /** `condStmt`: `if` bExpr `then` series [`else` series] `fi`. */
  function CondStmt(ts: seq<Token>, pos: nat): (r: Parsed<Statement>)
    requires pos <= |ts|
    ensures r.pos <= |ts| && (r.result.Ok? ==> pos < r.pos)
    decreases |ts| - pos, 21
  {
    var ifToken :- Eat(ts, pos, IF, true);
    var condition :- BExpr(ts, ifToken.1);
    var thenToken :- Eat(ts, condition.1, THEN, true);
    var thenPart :- Series(ts, thenToken.1);
    var elsePart :- ElsePart(ts, thenPart.1);
    var fiToken :- Eat(ts, elsePart.1, FI, true);
    Parsed(Ok(ConditionalStatement(condition.0, thenPart.0, elsePart.0)), fiToken.1)
  }

  /** The optional `else` series of `condStmt`; without `else` it is the empty list and takes no token. */
  function ElsePart(ts: seq<Token>, pos: nat): (r: Parsed<seq<Statement>>)
    requires pos <= |ts|
    ensures r.pos <= |ts| && (r.result.Ok? ==> pos <= r.pos)
    decreases |ts| - pos, 20
  {
    if Peek(ts, pos).ELSE? then Series(ts, Next(ts, pos) + 1)
    else Parsed(Ok([]), pos)
  }

  /** `assignStmt`: name `:=` aExpr. */
  function AssignStmt(ts: seq<Token>, pos: nat): (r: Parsed<Statement>)
    requires pos <= |ts|
    ensures r.pos <= |ts| && (r.result.Ok? ==> pos < r.pos)
    decreases |ts| - pos, 21
  {
    var name :- Eat(ts, pos, VARNAME, true);
    var assignment :- Eat(ts, name.1, ASSIGNMENT, true);
    var expr :- AExpr(ts, assignment.1);
    Parsed(Ok(AssignStatement(name.0.value, expr.0)), expr.1)
  }

  /** `outputStmt`: `write` varList. */
  function OutputStmt(ts: seq<Token>, pos: nat): (r: Parsed<Statement>)
    requires pos <= |ts|
    ensures r.pos <= |ts| && (r.result.Ok? ==> pos < r.pos)
    decreases |ts| - pos, 21
  {
    var writeToken :- Eat(ts, pos, WRITE, true);
    var names :- VarList(ts, writeToken.1);
    Parsed(Ok(WriteStatement(names.0)), names.1)
  }

  /** `inputStmt`: `read` varList. */
  function InputStmt(ts: seq<Token>, pos: nat): (r: Parsed<Statement>)
    requires pos <= |ts|
    ensures r.pos <= |ts| && (r.result.Ok? ==> pos < r.pos)
    decreases |ts| - pos, 21
  {
    var readToken :- Eat(ts, pos, READ, true);
    var names :- VarList(ts, readToken.1);
    Parsed(Ok(ReadStatment(names.0)), names.1)
  }

  /** `varList`: names separated by `,`. */
  function VarList(ts: seq<Token>, pos: nat): (r: Parsed<seq<string>>)
    requires pos <= |ts|
    ensures r.pos <= |ts| && (r.result.Ok? ==> pos < r.pos)
    decreases |ts| - pos, 20
  {
    var name :- Eat(ts, pos, VARNAME, true);
    if Peek(ts, name.1).COMMA? then
      var rest :- VarList(ts, Next(ts, name.1) + 1);
      Parsed(Ok([name.0.value] + rest.0), rest.1)
    else
      Parsed(Ok([name.0.value]), name.1)
  }

  /** `aExpr`: aTerm [(`+`|`-`) aExpr], nesting to the right. */
  function AExpr(ts: seq<Token>, pos: nat): (r: Parsed<AlgebraicExpression>)
    requires pos <= |ts|
    ensures r.pos <= |ts| && (r.result.Ok? ==> pos < r.pos)
    decreases |ts| - pos, 11
  {
    var left :- ATerm(ts, pos);
    if Peek(ts, left.1).AWEAKOP? then
      var op := Next(ts, left.1);
      if ts[op].value == "+" then
        var right :- AExpr(ts, op + 1);
        Parsed(Ok(SumExpression(left.0, right.0)), right.1)
      else if ts[op].value == "-" then
        var right :- AExpr(ts, op + 1);
        Parsed(Ok(MinusExpression(left.0, right.0)), right.1)
      else
        Parsed(Err(ParseException(AdditiveOperatorExpected)), op + 1)
    else
      Parsed(Ok(left.0), left.1)
  }

  /** `aTerm`: aElem [(`*`|`/`) aTerm], nesting to the right. */
  function ATerm(ts: seq<Token>, pos: nat): (r: Parsed<AlgebraicExpression>)
    requires pos <= |ts|
    ensures r.pos <= |ts| && (r.result.Ok? ==> pos < r.pos)
    decreases |ts| - pos, 10
  {
    var left :- AElem(ts, pos);
    if Peek(ts, left.1).ASTRONGOP? then
      var op := Next(ts, left.1);
      if ts[op].value == "*" then
        var right :- ATerm(ts, op + 1);
        Parsed(Ok(MultiplicationExpression(left.0, right.0)), right.1)
      else if ts[op].value == "/" then
        var right :- ATerm(ts, op + 1);
        Parsed(Ok(DivisionExpression(left.0, right.0)), right.1)
      else
        Parsed(Err(ParseException(MultiplicativeOperatorExpected)), op + 1)
    else
      Parsed(Ok(left.0), left.1)
  }

  /** `aElem`: a number, a name, or a bracketed aExpr. */
  function AElem(ts: seq<Token>, pos: nat): (r: Parsed<AlgebraicExpression>)
    requires pos <= |ts|
    ensures r.pos <= |ts| && (r.result.Ok? ==> pos < r.pos)
    decreases |ts| - pos, 9
  {
    var next := Peek(ts, pos);
    if next.NUMBER? then
      var number := Next(ts, pos);
      var value := ToLongOrNull(ts[number].value);
      if value.None? then Parsed(Err(NumberFormat(ts[number].value)), number + 1)
      else Parsed(Ok(NumberLiteral(value.value)), number + 1)
    else if next.VARNAME? then
      var name := Next(ts, pos);
      Parsed(Ok(NumericVariable(ts[name].value)), name + 1)
    else if next.OPENINGBRACKET? then
      var inner :- AExpr(ts, Next(ts, pos) + 1);
      var close :- Eat(ts, inner.1, CLOSINGBRACKET, true);
      Parsed(Ok(inner.0), close.1)
    else Parsed(Err(ParseException(AElemExpected(next))), pos)
  }

  /** `bExpr`: bTerm [`or` bExpr], nesting to the right. */
  function BExpr(ts: seq<Token>, pos: nat): (r: Parsed<BooleanExpression>)
    requires pos <= |ts|
    ensures r.pos <= |ts| && (r.result.Ok? ==> pos < r.pos)
    decreases |ts| - pos, 16
  {
    var left :- BTerm(ts, pos);
    if Peek(ts, left.1).OR? then
      var right :- BExpr(ts, Next(ts, left.1) + 1);
      Parsed(Ok(OrExpression(left.0, right.0)), right.1)
    else
      Parsed(Ok(left.0), left.1)
  }

  /** `bTerm`: bElem [`and` bTerm], nesting to the right. */
  function BTerm(ts: seq<Token>, pos: nat): (r: Parsed<BooleanExpression>)
    requires pos <= |ts|
    ensures r.pos <= |ts| && (r.result.Ok? ==> pos < r.pos)
    decreases |ts| - pos, 15
  {
    var left :- BElem(ts, pos);
    if Peek(ts, left.1).AND? then
      var right :- BTerm(ts, Next(ts, left.1) + 1);
      Parsed(Ok(AndExpression(left.0, right.0)), right.1)
    else
      Parsed(Ok(left.0), left.1)
  }

  /** `bElem`: a constant, `not` bElem, a relation, or on `(` the bracket resolution. */
  function BElem(ts: seq<Token>, pos: nat): (r: Parsed<BooleanExpression>)
    requires pos <= |ts|
    ensures r.pos <= |ts| && (r.result.Ok? ==> pos < r.pos)
    decreases |ts| - pos, 14
  {
    var next := Peek(ts, pos);
    if next.BCONSTANT? then
      var constant := Next(ts, pos);
      Parsed(Ok(BooleanConstant(IsTrueIgnoringCase(ts[constant].value))), constant + 1)
    else if next.NOT? then
      var operand :- BElem(ts, Next(ts, pos) + 1);
      Parsed(Ok(NotExpression(operand.0)), operand.1)
    else if next.NUMBER? || next.VARNAME? then AExprRelation(ts, pos)
    else if next.OPENINGBRACKET? then ResolveBrackets(ts, pos)
    else Parsed(Err(ParseException(BElemExpected(next))), pos)
  }

  /** `aExprRelation`: aExpr RELATION aExpr, the operator text choosing the relation. */
  function AExprRelation(ts: seq<Token>, pos: nat): (r: Parsed<BooleanExpression>)
    requires pos <= |ts|
    ensures r.pos <= |ts| && (r.result.Ok? ==> pos < r.pos)
    decreases |ts| - pos, 12
  {
    var left :- AExpr(ts, pos);
    var op :- Eat(ts, left.1, RELATION, true);
    match ComparisonOf(op.0.value)
    case None => Parsed(Err(ParseException(RelationOperatorExpected)), op.1)
    case Some(c) =>
      var right :- AExpr(ts, op.1);
      Parsed(Ok(RelationExpression(MakeRelation(c, left.0, right.0))), right.1)
  }

  /** `bElemBrackets`: `(` bExpr `)`. */
  function BElemBrackets(ts: seq<Token>, pos: nat): (r: Parsed<BooleanExpression>)
    requires pos <= |ts|
    ensures r.pos <= |ts| && (r.result.Ok? ==> pos < r.pos)
    decreases |ts| - pos, 12
  {
    var open :- Eat(ts, pos, OPENINGBRACKET, true);
    var inner :- BExpr(ts, open.1);
    var close :- Eat(ts, inner.1, CLOSINGBRACKET, true);
    Parsed(Ok(inner.0), close.1)
  }

  /**
   * `resolveBrackets(aExprRelation, bElemBrackets)`: tries a relation; if that
   * raises a ParseException, restores the cursor and parses a bracketed
   * boolean expression instead. Other exceptions pass through.
   */
  function ResolveBrackets(ts: seq<Token>, pos: nat): (r: Parsed<BooleanExpression>)
    requires pos <= |ts|
    ensures r.pos <= |ts| && (r.result.Ok? ==> pos < r.pos)
    decreases |ts| - pos, 13
  {
    var first := AExprRelation(ts, pos);
    if first.result.Err? && first.result.error.ParseException? then BElemBrackets(ts, pos)
    else first
  }
}
