/**
 * The parser object: a token list and a cursor that the rule methods advance
 * in place. Each method raises its exception as an `Err` result and leaves
 * the cursor exactly where the corresponding rule in `Grammar` says.
 */
module Parsing {
  import opened Results
  import opened Longs
  import opened Lexer
  import opened Nodes
  import opened Grammar

  class Parser {
    const tokens: seq<Token>
    /** The list iterator's `nextIndex()`: how many tokens have been taken. */
    var pos: nat

    ghost predicate Valid()
      reads this
    {
      pos <= |tokens|
    }

    constructor (tokens: seq<Token>)
      ensures this.tokens == tokens && pos == 0 && Valid()
    {
      this.tokens := tokens;
      pos := 0;
    }

    /** `buildAst`: parses the whole token list from the current cursor. */
    method BuildAst() returns (r: Result<Program, ParseError>)
      requires Valid() && pos == 0
      modifies this
      ensures Valid() && Parsed(r, pos) == Grammar.BuildAst(tokens)
    {
      var statements :- Progr();
      return Ok(Program(statements));
    }

    /** Looks past NEWLINEs on a copy of the cursor; the cursor itself stays put. */
    method PeekTokenIgnoreNewLines() returns (k: TokenInfo)
      requires Valid()
      ensures k == Peek(tokens, pos)
    {
      var saved := pos;
      while saved < |tokens|
        invariant pos <= saved <= |tokens|
        invariant SkipNewLines(tokens, pos) == SkipNewLines(tokens, saved)
        decreases |tokens| - saved
      {
        var next := tokens[saved];
        saved := saved + 1;
        if next.info != NEWLINE {
          return next.info;
        }
      }
      return NEWLINE;
    }

    /** Moves the cursor past NEWLINE tokens. */
    method SkipNewLinesInPlace()
      requires Valid()
      modifies this
      ensures Valid() && pos == SkipNewLines(tokens, old(pos))
    {
      while pos < |tokens| && tokens[pos].info == NEWLINE
        invariant old(pos) <= pos <= |tokens|
        invariant SkipNewLines(tokens, old(pos)) == SkipNewLines(tokens, pos)
        decreases |tokens| - pos
      {
        pos := pos + 1;
      }
    }

    /** Takes the next token, which must be `expected`; on failure steps the cursor back one. */
    method EatToken(expected: TokenInfo, ignoreNewLines: bool) returns (r: Result<Token, ParseError>)
      requires Valid()
      modifies this
      ensures Valid() && Parsed(r, pos) == Eat(tokens, old(pos), expected, ignoreNewLines)
    {
      ghost var spec := Eat(tokens, pos, expected, ignoreNewLines);
      if ignoreNewLines {
        SkipNewLinesInPlace();
      }
      ghost var i := pos;
      assert i == if ignoreNewLines then SkipNewLines(tokens, old(pos)) else old(pos);
      if pos < |tokens| {
        var tok := tokens[pos];
        pos := pos + 1;
        if tok.info == expected {
          assert spec == Parsed(Ok(tok), pos);
          return Ok(tok);
        }
      }
      if pos == 0 {
        assert spec == Parsed(Err(NoSuchElement), 0);
        return Err(NoSuchElement);
      }
      pos := pos - 1;
      assert spec == Parsed(Err(ParseException(CouldNotFind(expected, tokens[pos], pos))), pos);
      return Err(ParseException(CouldNotFind(expected, tokens[pos], pos)));
    }

    /** `eatToken(k)` right after a peek has seen `k`: takes exactly the token the peek saw. */
    method TakePeeked(k: TokenInfo) returns (tok: Token)
      requires Valid() && k != NEWLINE && Peek(tokens, pos) == k
      modifies this
      ensures Valid() && pos == Next(tokens, old(pos)) + 1 && tok == tokens[pos - 1]
    {
      PeekThenEat(tokens, pos, k);
      var r := EatToken(k, true);
      tok := r.value;
    }

    method Progr() returns (r: Result<seq<Statement>, ParseError>)
      requires Valid()
      modifies this
      ensures Valid() && Parsed(r, pos) == Grammar.Progr(tokens, old(pos))
      decreases |tokens| - pos, 24
    {
      var statements :- Series();
      var _ :- EatToken(NEWLINE, false);
      var next := PeekTokenIgnoreNewLines();
      if !next.NEWLINE? {
        return Err(ParseException(EndOfProgramExpected(next)));
      }
      return Ok(statements);
    }

    method Series() returns (r: Result<seq<Statement>, ParseError>)
      requires Valid()
      modifies this
      ensures Valid() && Parsed(r, pos) == Grammar.Series(tokens, old(pos))
      decreases |tokens| - pos, 23
    {
      ghost var start := pos;
      var first :- Stmt();
      ghost var stmtEnd := pos;
      var next := PeekTokenIgnoreNewLines();
      if next.SEMICOLON? {
        var _ := TakePeeked(SEMICOLON);
        var rest :- Series();
        assert Grammar.Series(tokens, start) == Parsed(Ok([first] + rest), pos);
        return Ok([first] + rest);
      }
      assert Grammar.Series(tokens, start) == Parsed(Ok([first]), stmtEnd);
      return Ok([first]);
    }

    method Stmt() returns (r: Result<Statement, ParseError>)
      requires Valid()
      modifies this
      ensures Valid() && Parsed(r, pos) == Grammar.Stmt(tokens, old(pos))
      decreases |tokens| - pos, 22
    {
      var next := PeekTokenIgnoreNewLines();
      if next.VARNAME? {
        r := AssignStmt();
      } else if next.WRITE? {
        r := OutputStmt();
      } else if next.READ? {
        r := InputStmt();
      } else if next.SKIP? {
        var _ := TakePeeked(SKIP);
        r := Ok(SkipStatement);
      } else if next.IF? {
        r := CondStmt();
      } else if next.WHILE? {
        r := LoopStmt();
      } else {
        r := Err(ParseException(StatementExpected(next)));
      }
    }

    method LoopStmt() returns (r: Result<Statement, ParseError>)
      requires Valid()
      modifies this
      ensures Valid() && Parsed(r, pos) == Grammar.LoopStmt(tokens, old(pos))
      decreases |tokens| - pos, 21
    {
      var _ :- EatToken(WHILE, true);
      var condition :- BExpr();
      var _ :- EatToken(DO, true);
      var statements :- Series();
      var _ :- EatToken(OD, true);
      return Ok(LoopStatement(condition, statements));
    }

    method CondStmt() returns (r: Result<Statement, ParseError>)
      requires Valid()
      modifies this
      ensures Valid() && Parsed(r, pos) == Grammar.CondStmt(tokens, old(pos))
      decreases |tokens| - pos, 21
    {
      var _ :- EatToken(IF, true);
      var condition :- BExpr();
      var _ :- EatToken(THEN, true);
      var statements :- Series();
      var elseStmt :- ElsePart();
      var _ :- EatToken(FI, true);
      return Ok(ConditionalStatement(condition, statements, elseStmt));
    }

    /** The optional `else` part of `condStmt`. */
    method ElsePart() returns (r: Result<seq<Statement>, ParseError>)
      requires Valid()
      modifies this
      ensures Valid() && Parsed(r, pos) == Grammar.ElsePart(tokens, old(pos))
      decreases |tokens| - pos, 20
    {
      var next := PeekTokenIgnoreNewLines();
      if next.ELSE? {
        var _ := TakePeeked(ELSE);
        r := Series();
      } else {
        r := Ok([]);
      }
    }

    method AssignStmt() returns (r: Result<Statement, ParseError>)
      requires Valid()
      modifies this
      ensures Valid() && Parsed(r, pos) == Grammar.AssignStmt(tokens, old(pos))
      decreases |tokens| - pos, 21
    {
      var variable :- EatToken(VARNAME, true);
      var _ :- EatToken(ASSIGNMENT, true);
      var expr :- AExpr();
      return Ok(AssignStatement(variable.value, expr));
    }

    method OutputStmt() returns (r: Result<Statement, ParseError>)
      requires Valid()
      modifies this
      ensures Valid() && Parsed(r, pos) == Grammar.OutputStmt(tokens, old(pos))
      decreases |tokens| - pos, 21
    {
      var _ :- EatToken(WRITE, true);
      var names :- VarList();
      return Ok(WriteStatement(names));
    }

    method InputStmt() returns (r: Result<Statement, ParseError>)
      requires Valid()
      modifies this
      ensures Valid() && Parsed(r, pos) == Grammar.InputStmt(tokens, old(pos))
      decreases |tokens| - pos, 21
    {
      var _ :- EatToken(READ, true);
      var names :- VarList();
      return Ok(ReadStatment(names));
    }

    method VarList() returns (r: Result<seq<string>, ParseError>)
      requires Valid()
      modifies this
      ensures Valid() && Parsed(r, pos) == Grammar.VarList(tokens, old(pos))
      decreases |tokens| - pos, 20
    {
      var name :- EatToken(VARNAME, true);
      var list := [name.value];
      var next := PeekTokenIgnoreNewLines();
      if next.COMMA? {
        var _ := TakePeeked(COMMA);
        var rest :- VarList();
        list := list + rest;
      }
      return Ok(list);
    }

    method AExpr() returns (r: Result<AlgebraicExpression, ParseError>)
      requires Valid()
      modifies this
      ensures Valid() && Parsed(r, pos) == Grammar.AExpr(tokens, old(pos))
      decreases |tokens| - pos, 11
    {
      var leftOperand :- ATerm();
      var next := PeekTokenIgnoreNewLines();
      if !next.AWEAKOP? {
        return Ok(leftOperand);
      }
      var op := TakePeeked(AWEAKOP);
      if op.value == "+" {
        var right :- AExpr();
        return Ok(SumExpression(leftOperand, right));
      } else if op.value == "-" {
        var right :- AExpr();
        return Ok(MinusExpression(leftOperand, right));
      }
      return Err(ParseException(AdditiveOperatorExpected));
    }

    method ATerm() returns (r: Result<AlgebraicExpression, ParseError>)
      requires Valid()
      modifies this
      ensures Valid() && Parsed(r, pos) == Grammar.ATerm(tokens, old(pos))
      decreases |tokens| - pos, 10
    {
      var leftOperand :- AElem();
      var next := PeekTokenIgnoreNewLines();
      if !next.ASTRONGOP? {
        return Ok(leftOperand);
      }
      var op := TakePeeked(ASTRONGOP);
      if op.value == "*" {
        var right :- ATerm();
        return Ok(MultiplicationExpression(leftOperand, right));
      } else if op.value == "/" {
        var right :- ATerm();
        return Ok(DivisionExpression(leftOperand, right));
      }
      return Err(ParseException(MultiplicativeOperatorExpected));
    }

    method AElem() returns (r: Result<AlgebraicExpression, ParseError>)
      requires Valid()
      modifies this
      ensures Valid() && Parsed(r, pos) == Grammar.AElem(tokens, old(pos))
      decreases |tokens| - pos, 9
    {
      var next := PeekTokenIgnoreNewLines();
      if next.NUMBER? {
        var number := TakePeeked(NUMBER);
        var value := ToLongOrNull(number.value);
        if value.None? {
          return Err(NumberFormat(number.value));
        }
        return Ok(NumberLiteral(value.value));
      } else if next.VARNAME? {
        var name := TakePeeked(VARNAME);
        return Ok(NumericVariable(name.value));
      } else if next.OPENINGBRACKET? {
        var _ := TakePeeked(OPENINGBRACKET);
        var expr :- AExpr();
        var _ :- EatToken(CLOSINGBRACKET, true);
        return Ok(expr);
      }
      return Err(ParseException(AElemExpected(next)));
    }

    method BExpr() returns (r: Result<BooleanExpression, ParseError>)
      requires Valid()
      modifies this
      ensures Valid() && Parsed(r, pos) == Grammar.BExpr(tokens, old(pos))
      decreases |tokens| - pos, 16
    {
      var leftOperand :- BTerm();
      var next := PeekTokenIgnoreNewLines();
      if next.OR? {
        var _ := TakePeeked(OR);
        var right :- BExpr();
        return Ok(OrExpression(leftOperand, right));
      }
      return Ok(leftOperand);
    }

    method BTerm() returns (r: Result<BooleanExpression, ParseError>)
      requires Valid()
      modifies this
      ensures Valid() && Parsed(r, pos) == Grammar.BTerm(tokens, old(pos))
      decreases |tokens| - pos, 15
    {
      var leftOperand :- BElem();
      var next := PeekTokenIgnoreNewLines();
      if next.AND? {
        var _ := TakePeeked(AND);
        var right :- BTerm();
        return Ok(AndExpression(leftOperand, right));
      }
      return Ok(leftOperand);
    }

    method BElem() returns (r: Result<BooleanExpression, ParseError>)
      requires Valid()
      modifies this
      ensures Valid() && Parsed(r, pos) == Grammar.BElem(tokens, old(pos))
      decreases |tokens| - pos, 14
    {
      var next := PeekTokenIgnoreNewLines();
      if next.BCONSTANT? {
        var constant := TakePeeked(BCONSTANT);
        return Ok(BooleanConstant(IsTrueIgnoringCase(constant.value)));
      } else if next.NOT? {
        var _ := TakePeeked(NOT);
        var operand :- BElem();
        return Ok(NotExpression(operand));
      } else if next.NUMBER? || next.VARNAME? {
        r := AExprRelation();
      } else if next.OPENINGBRACKET? {
        r := ResolveBrackets();
      } else {
        r := Err(ParseException(BElemExpected(next)));
      }
    }

    method AExprRelation() returns (r: Result<BooleanExpression, ParseError>)
      requires Valid()
      modifies this
      ensures Valid() && Parsed(r, pos) == Grammar.AExprRelation(tokens, old(pos))
      decreases |tokens| - pos, 12
    {
      var leftOperand :- AExpr();
      var op :- EatToken(RELATION, true);
      var comparison := ComparisonOf(op.value);
      if comparison.None? {
        return Err(ParseException(RelationOperatorExpected));
      }
      var right :- AExpr();
      return Ok(RelationExpression(MakeRelation(comparison.value, leftOperand, right)));
    }

    method BElemBrackets() returns (r: Result<BooleanExpression, ParseError>)
      requires Valid()
      modifies this
      ensures Valid() && Parsed(r, pos) == Grammar.BElemBrackets(tokens, old(pos))
      decreases |tokens| - pos, 12
    {
      var _ :- EatToken(OPENINGBRACKET, true);
      var expr :- BExpr();
      var _ :- EatToken(CLOSINGBRACKET, true);
      return Ok(expr);
    }

    /** Tries a relation; on a ParseException puts the cursor back and parses a bracketed boolean instead. */
    method ResolveBrackets() returns (r: Result<BooleanExpression, ParseError>)
      requires Valid()
      modifies this
      ensures Valid() && Parsed(r, pos) == Grammar.ResolveBrackets(tokens, old(pos))
      decreases |tokens| - pos, 13
    {
      var saved := pos;
      r := AExprRelation();
      if r.Err? && r.error.ParseException? {
        pos := saved;
        r := BElemBrackets();
      }
    }
  }
}
