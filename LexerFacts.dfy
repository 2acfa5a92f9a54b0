/** Properties of the tokenizer's specification. */
module LexerFacts {
  import opened Results
  import opened Lexer

  /** The texts of `ts`, concatenated in order. */
  function Concat(ts: seq<Token>): string
  {
    if |ts| == 0 then [] else ts[0].value + Concat(ts[1..])
  }

  /** `ts` without its WHITESPACE tokens, order kept. */
  function DropWhitespace(ts: seq<Token>): seq<Token>
  {
    if |ts| == 0 then []
    else if ts[0].info == WHITESPACE then DropWhitespace(ts[1..])
    else [ts[0]] + DropWhitespace(ts[1..])
  }

  /** Every match removes exactly its own text: the matched texts, whitespace included, spell the input. */
  lemma {:induction false} ScanReassemblesInput(table: seq<TokenInfo>, s: string)
    requires Scan(table, s).Ok?
    ensures Concat(Scan(table, s).value) == s
    decreases |s|
  {
    if |s| > 0 {
      var t := FirstMatch(table, s).value;
      var rest := Scan(table, s[|t.value|..]).value;
      ScanReassemblesInput(table, s[|t.value|..]);
      assert ([t] + rest)[1..] == rest;
      assert Concat([t] + rest) == t.value + Concat(rest);
      assert s == t.value + s[|t.value|..];
    }
  }

  /** Tokenizing keeps exactly the non-whitespace matches, in input order, and fails exactly where scanning does. */
  lemma {:induction false} LexIsScanWithoutWhitespace(table: seq<TokenInfo>, s: string)
    ensures Scan(table, s).Err? ==> Lex(table, s) == Scan(table, s)
    ensures Scan(table, s).Ok? ==> Lex(table, s) == Ok(DropWhitespace(Scan(table, s).value))
    decreases |s|
  {
    if |s| > 0 && FirstMatch(table, s).Some? {
      var t := FirstMatch(table, s).value;
      LexIsScanWithoutWhitespace(table, s[|t.value|..]);
      var rest := Scan(table, s[|t.value|..]);
      if rest.Ok? {
        assert ([t] + rest.value)[1..] == rest.value;
      }
    }
  }

  /** The tokenizer terminates on every input: it either fails or consumes it all. */
  lemma {:induction false} ScanConsumesEverything(table: seq<TokenInfo>, s: string)
    ensures Scan(table, s).Ok? ==> |Concat(Scan(table, s).value)| == |s|
    ensures Scan(table, s).Err? ==> exists k :: 0 <= k < |s| && Scan(table, s).error == NoMatch(s[k..])
    decreases |s|
  {
    if Scan(table, s).Ok? {
      ScanReassemblesInput(table, s);
    } else {
      var t := FirstMatch(table, s);
      if t.None? {
        assert s[0..] == s;
      } else {
        ScanConsumesEverything(table, s[|t.value.value|..]);
        var k :| 0 <= k < |s[|t.value.value|..]| && Scan(table, s).error == NoMatch(s[|t.value.value|..][k..]);
        assert s[|t.value.value|..][k..] == s[|t.value.value| + k..];
      }
    }
  }

  /**
   * First match wins: the token is made by the earliest pattern of the table
   * that matches, with the text that pattern matched, whatever later patterns
   * would have matched.
   */
  lemma FirstMatchIsEarliestPattern(table: seq<TokenInfo>, s: string, t: Token)
    ensures FirstMatch(table, s) == Some(t) <==>
      exists j :: 0 <= j < |table| && table[j] == t.info && 0 < MatchLength(table[j], s) == |t.value|
                  && t.value == s[..|t.value|]
                  && (forall i :: 0 <= i < j ==> MatchLength(table[i], s) == 0)
  {
    var j0 := FirstMatchingPattern(table, s, 0);
    FirstMatchingPatternIsEarliest(table, s, 0);
    if FirstMatch(table, s) == Some(t) {
      assert table[j0] == t.info;
    }
    if exists j :: 0 <= j < |table| && table[j] == t.info && 0 < MatchLength(table[j], s) == |t.value|
                  && t.value == s[..|t.value|]
                  && (forall i :: 0 <= i < j ==> MatchLength(table[i], s) == 0) {
      var j :| 0 <= j < |table| && table[j] == t.info && 0 < MatchLength(table[j], s) == |t.value|
                  && t.value == s[..|t.value|]
                  && (forall i :: 0 <= i < j ==> MatchLength(table[i], s) == 0);
      assert j == j0;
    }
  }

  /** Tokenizing fails exactly where no pattern of the table matches. */
  lemma FirstMatchFailsOnlyWhenNoPatternMatches(table: seq<TokenInfo>, s: string)
    ensures FirstMatch(table, s).None? <==> forall j :: 0 <= j < |table| ==> MatchLength(table[j], s) == 0
  {
    FirstMatchingPatternIsEarliest(table, s, 0);
  }

  /** Position of each kind in the tokenizer's pattern table (`HELPTOKEN` has none). */
  function Position(k: TokenInfo): (n: nat)
    ensures n <= |Patterns|
  {
    match k
    case SEMICOLON => 0       case COMMA => 1           case SKIP => 2
    case READ => 3            case WRITE => 4           case ASSIGNMENT => 5
    case IF => 6              case THEN => 7            case ELSE => 8
    case FI => 9              case WHILE => 10          case DO => 11
    case OD => 12             case OR => 13             case AND => 14
    case NOT => 15            case OPENINGBRACKET => 16 case CLOSINGBRACKET => 17
    case NEWLINE => 18        case AWEAKOP => 19        case ASTRONGOP => 20
    case RELATION => 21       case BCONSTANT => 22      case NUMBER => 23
    case VARNAME => 24        case WHITESPACE => 25     case HELPTOKEN => 26
  }

  /** `Position` is the table's index: the kind at index `i` of the table has position `i`, ... */
  lemma PatternPositionIsIndex(i: nat)
    requires i < |Patterns|
    ensures Position(Patterns[i]) == i
  {
  }

  /** ... and every kind but `HELPTOKEN` stands in the table at its position. */
  lemma PositionIsTableIndex(k: TokenInfo)
    ensures Position(k) < |Patterns| ==> Patterns[Position(k)] == k
    ensures k != HELPTOKEN ==> Position(k) < |Patterns|
  {
  }

  /** The characters a match of kind `k` can begin with. */
  predicate CanStart(k: TokenInfo, c: char)
  {
    match k
    case SEMICOLON => c == ';'      case COMMA => c == ','         case SKIP => c == 's'
    case READ => c == 'r'           case WRITE => c == 'w'         case ASSIGNMENT => c == ':'
    case IF => c == 'i'             case THEN => c == 't'          case ELSE => c == 'e'
    case FI => c == 'f'             case WHILE => c == 'w'         case DO => c == 'd'
    case OD => c == 'o'             case OR => c == 'o'            case AND => c == 'a'
    case NOT => c == 'n'            case OPENINGBRACKET => c == '(' case CLOSINGBRACKET => c == ')'
    case NEWLINE => c == '\r' || c == '\n'
    case AWEAKOP => c == '+' || c == '-'
    case ASTRONGOP => c == '*' || c == '/'
    case RELATION => c == '<' || c == '=' || c == '>'
    case BCONSTANT => c == 't' || c == 'f'
    case NUMBER => IsDigit(c)
    case VARNAME => IsNameStart(c)
    case WHITESPACE => c == ' ' || c == '\t' || c == '\r' || c == '\n'
    case HELPTOKEN => false
  }

  /** An alternation matches only where one of its non-empty alternatives begins. */
  lemma {:induction false} AlternativesMatchStart(alts: seq<string>, s: string)
    ensures AlternativesMatch(alts, s) > 0 ==>
            |s| > 0 && exists i :: 0 <= i < |alts| && alts[i] != [] && alts[i][0] == s[0]
  {
    if |alts| > 0 && !StartsWith(s, alts[0]) {
      AlternativesMatchStart(alts[1..], s);
      if AlternativesMatch(alts, s) > 0 {
        var i :| 0 <= i < |alts[1..]| && alts[1..][i] != [] && alts[1..][i][0] == s[0];
        assert alts[i + 1] == alts[1..][i];
      }
    }
  }

  /** A pattern matches only text that begins with one of its starting characters. */
  lemma MatchNeedsStartingCharacter(k: TokenInfo, s: string)
    ensures MatchLength(k, s) > 0 ==> |s| > 0 && CanStart(k, s[0])
  {
    match k
    case NEWLINE => AlternativesMatchStart(["\r\n", "\n"], s);
    case RELATION => AlternativesMatchStart(["<>", "=<", ">=", "=", "<", ">"], s);
    case BCONSTANT => AlternativesMatchStart(["true", "false"], s);
    case _ =>
  }

  /** Pattern `r` of `table` decides the token when it matches and no pattern before it does. */
  lemma FirstMatchAt(table: seq<TokenInfo>, s: string, r: nat)
    requires r < |table|
    requires MatchLength(table[r], s) > 0
    requires forall i :: 0 <= i < r ==> MatchLength(table[i], s) == 0
    ensures FirstMatch(table, s) == Some(Token(s[..MatchLength(table[r], s)], table[r]))
  {
    FirstMatchingPatternIsEarliest(table, s, 0);
  }

  /**
   * Stated on kinds rather than indices: kind `k` makes the token when it
   * matches and no kind listed before it in the tokenizer's table does.
   */
  lemma FirstMatchByPosition(s: string, k: TokenInfo)
    requires Position(k) < |Patterns|
    requires MatchLength(k, s) > 0
    requires forall k' :: Position(k') < Position(k) ==> MatchLength(k', s) == 0
    ensures FirstMatch(Patterns, s) == Some(Token(s[..MatchLength(k, s)], k))
  {
    var p := Patterns;
    forall i | 0 <= i < Position(k)
      ensures MatchLength(p[i], s) == 0
    {
      PatternPositionIsIndex(i);
    }
    PositionIsTableIndex(k);
    FirstMatchAt(p, s, Position(k));
  }

  /** Nothing matches when no kind does. */
  lemma NoFirstMatch(s: string)
    requires forall k :: MatchLength(k, s) == 0
    ensures FirstMatch(Patterns, s) == None
  {
    FirstMatchFailsOnlyWhenNoPatternMatches(Patterns, s);
  }

  /**
   * As `FirstMatchByPosition`, where only the earlier kinds that can begin
   * with the first character of `s` need to be ruled out.
   */
  lemma FirstMatchByStartingCharacter(s: string, k: TokenInfo)
    requires Position(k) < |Patterns|
    requires MatchLength(k, s) > 0
    requires forall k' :: Position(k') < Position(k) && CanStart(k', s[0]) ==> MatchLength(k', s) == 0
    ensures FirstMatch(Patterns, s) == Some(Token(s[..MatchLength(k, s)], k))
  {
    forall k' | Position(k') < Position(k)
      ensures MatchLength(k', s) == 0
    {
      MatchNeedsStartingCharacter(k', s);
    }
    FirstMatchByPosition(s, k);
  }

  /** First match, not longest: VARNAME would take all of `door`, but DO comes first in the table. */
  lemma FirstMatchIsNotLongestMatch()
    ensures MatchLength(VARNAME, "door") == 4
    ensures FirstMatch(Patterns, "door") == Some(Token("do", DO))
  {
    DoorIsAName();
    DoorStartsWithDo();
  }

  lemma DoorIsAName()
    ensures MatchLength(VARNAME, "door") == 4
  {
    assert "door"[1..] == "oor" && "oor"[1..] == "or" && "or"[1..] == "r" && "r"[1..] == [];
    assert NameRun("oor") == 3;
  }

  lemma DoorStartsWithDo()
    ensures FirstMatch(Patterns, "door") == Some(Token("do", DO))
  {
    FirstMatchByStartingCharacter("door", DO);
    assert "door"[..2] == "do";
  }

  lemma OrIsAKeyword()
    ensures FirstMatch(Patterns, "or") == Some(Token("or", OR))
  {
    FirstMatchByStartingCharacter("or", OR);
    assert "or"[..2] == "or";
  }

  lemma IffyStartsWithIf()
    ensures FirstMatch(Patterns, "iffy") == Some(Token("if", IF))
  {
    FirstMatchByStartingCharacter("iffy", IF);
    assert "iffy"[..2] == "if";
  }

  lemma FyIsAName()
    ensures FirstMatch(Patterns, "fy") == Some(Token("fy", VARNAME))
  {
    assert "fy"[1..] == "y" && "y"[1..] == [];
    assert MatchLength(VARNAME, "fy") == 2;
    FirstMatchByStartingCharacter("fy", VARNAME);
    assert "fy"[..2] == "fy";
  }

  /** Patterns have no word boundary: `door` is DO then OR. */
  lemma KeywordsSplitNames()
    ensures Lex(Patterns, "door") == Ok([Token("do", DO), Token("or", OR)])
  {
    FirstMatchIsNotLongestMatch();
    OrIsAKeyword();
    assert "door"[2..] == "or" && "or"[2..] == "";
    LexStep(Patterns, "door", Token("do", DO), []);
    LexStep(Patterns, "or", Token("or", OR), [Token("do", DO)]);
    assert Lex(Patterns, "") == Ok([]);
    assert [Token("do", DO)] + [Token("or", OR)] + [] == [Token("do", DO), Token("or", OR)];
  }

  /** `iffy` is IF then the name `fy`. */
  lemma KeywordPrefixSplitsName()
    ensures Lex(Patterns, "iffy") == Ok([Token("if", IF), Token("fy", VARNAME)])
  {
    IffyStartsWithIf();
    FyIsAName();
    assert "iffy"[2..] == "fy" && "fy"[2..] == "";
    LexStep(Patterns, "iffy", Token("if", IF), []);
    LexStep(Patterns, "fy", Token("fy", VARNAME), [Token("if", IF)]);
    assert Lex(Patterns, "") == Ok([]);
    assert [Token("if", IF)] + [Token("fy", VARNAME)] + [] == [Token("if", IF), Token("fy", VARNAME)];
  }

  lemma EqualsLessIsOneRelation()
    ensures FirstMatch(Patterns, "=<") == Some(Token("=<", RELATION))
  {
    FirstMatchByStartingCharacter("=<", RELATION);
    assert "=<"[..2] == "=<";
  }

  lemma LessEqualsStartsWithLess()
    ensures FirstMatch(Patterns, "<=") == Some(Token("<", RELATION))
  {
    FirstMatchByStartingCharacter("<=", RELATION);
    assert "<="[..1] == "<";
  }

  lemma EqualsIsARelation()
    ensures FirstMatch(Patterns, "=") == Some(Token("=", RELATION))
  {
    FirstMatchByStartingCharacter("=", RELATION);
    assert "="[..1] == "=";
  }

  /** Less-or-equal is spelled `=<`, a single RELATION token. */
  lemma LessOrEqualIsSpelledEqualsLess()
    ensures Lex(Patterns, "=<") == Ok([Token("=<", RELATION)])
  {
    EqualsLessIsOneRelation();
    assert "=<"[2..] == "";
    LexStep(Patterns, "=<", Token("=<", RELATION), []);
    assert Lex(Patterns, "") == Ok([]);
    assert [Token("=<", RELATION)] + [] == [Token("=<", RELATION)];
  }

  /** `<=` is not less-or-equal: it is the two relation tokens `<` and `=`. */
  lemma LessEqualsIsTwoRelations()
    ensures Lex(Patterns, "<=") == Ok([Token("<", RELATION), Token("=", RELATION)])
  {
    LessEqualsStartsWithLess();
    EqualsIsARelation();
    assert "<="[1..] == "=" && "="[1..] == "";
    LexStep(Patterns, "<=", Token("<", RELATION), []);
    LexStep(Patterns, "=", Token("=", RELATION), [Token("<", RELATION)]);
    assert Lex(Patterns, "") == Ok([]);
    assert [Token("<", RELATION)] + [Token("=", RELATION)] + [] == [Token("<", RELATION), Token("=", RELATION)];
  }

  /** A leading `0` is a whole NUMBER token, whatever follows it. */
  lemma ZeroIsAWholeNumber(s: string)
    requires |s| > 0 && s[0] == '0'
    ensures FirstMatch(Patterns, s) == Some(Token("0", NUMBER))
  {
    FirstMatchByStartingCharacter(s, NUMBER);
    assert s[..1] == "0";
  }

  lemma SevenIsANumber()
    ensures FirstMatch(Patterns, "7") == Some(Token("7", NUMBER))
  {
    FirstMatchByStartingCharacter("7", NUMBER);
    assert "7"[..1] == "7";
  }

  lemma ZeroSevenIsTwoNumbers()
    ensures Lex(Patterns, "07") == Ok([Token("0", NUMBER), Token("7", NUMBER)])
  {
    ZeroIsAWholeNumber("07");
    SevenIsANumber();
    assert "07"[1..] == "7" && "7"[1..] == "";
    LexStep(Patterns, "07", Token("0", NUMBER), []);
    LexStep(Patterns, "7", Token("7", NUMBER), [Token("0", NUMBER)]);
    assert Lex(Patterns, "") == Ok([]);
    assert [Token("0", NUMBER)] + [Token("7", NUMBER)] + [] == [Token("0", NUMBER), Token("7", NUMBER)];
  }

  /** No leading zeros: `0` alone is a literal, so `007` is three NUMBER tokens. */
  lemma NumbersHaveNoLeadingZero()
    ensures Lex(Patterns, "007") == Ok([Token("0", NUMBER), Token("0", NUMBER), Token("7", NUMBER)])
  {
    ZeroIsAWholeNumber("007");
    ZeroSevenIsTwoNumbers();
    assert "007"[1..] == "07";
    LexStep(Patterns, "007", Token("0", NUMBER), []);
    assert [Token("0", NUMBER)] + [Token("0", NUMBER), Token("7", NUMBER)]
        == [Token("0", NUMBER), Token("0", NUMBER), Token("7", NUMBER)];
  }

  lemma CarriageReturnLineFeedIsANewLine()
    ensures FirstMatch(Patterns, "\r\n") == Some(Token("\r\n", NEWLINE))
  {
    FirstMatchByStartingCharacter("\r\n", NEWLINE);
    assert "\r\n"[..2] == "\r\n";
  }

  lemma LineFeedIsANewLine()
    ensures FirstMatch(Patterns, "\n") == Some(Token("\n", NEWLINE))
  {
    FirstMatchByStartingCharacter("\n", NEWLINE);
    assert "\n"[..1] == "\n";
  }

  lemma LoneCarriageReturnIsWhitespace()
    ensures FirstMatch(Patterns, "\r") == Some(Token("\r", WHITESPACE))
  {
    FirstMatchByStartingCharacter("\r", WHITESPACE);
    assert "\r"[..1] == "\r";
  }

  /** `\n` and `\r\n` are one NEWLINE token each; a lone `\r` is dropped as whitespace. */
  lemma LineBreaksAreNewLineTokens()
    ensures Lex(Patterns, "\r\n") == Ok([Token("\r\n", NEWLINE)])
    ensures Lex(Patterns, "\n") == Ok([Token("\n", NEWLINE)])
    ensures Lex(Patterns, "\r") == Ok([])
  {
    CarriageReturnLineFeedLexesToNewLine();
    LineFeedLexesToNewLine();
    LoneCarriageReturnLexesToNothing();
  }

  lemma CarriageReturnLineFeedLexesToNewLine()
    ensures Lex(Patterns, "\r\n") == Ok([Token("\r\n", NEWLINE)])
  {
    CarriageReturnLineFeedIsANewLine();
    assert "\r\n"[2..] == "";
    LexStep(Patterns, "\r\n", Token("\r\n", NEWLINE), []);
    assert Lex(Patterns, "") == Ok([]);
    assert [Token("\r\n", NEWLINE)] + [] == [Token("\r\n", NEWLINE)];
  }

  lemma LineFeedLexesToNewLine()
    ensures Lex(Patterns, "\n") == Ok([Token("\n", NEWLINE)])
  {
    LineFeedIsANewLine();
    assert "\n"[1..] == "";
    LexStep(Patterns, "\n", Token("\n", NEWLINE), []);
    assert Lex(Patterns, "") == Ok([]);
    assert [Token("\n", NEWLINE)] + [] == [Token("\n", NEWLINE)];
  }

  lemma LoneCarriageReturnLexesToNothing()
    ensures Lex(Patterns, "\r") == Ok([])
  {
    LoneCarriageReturnIsWhitespace();
    assert "\r"[1..] == "";
    LexStep(Patterns, "\r", Token("\r", WHITESPACE), []);
    assert Lex(Patterns, "") == Ok([]);
  }

  /** A `:` that is not the start of `:=` begins no token of the table. */
  lemma ColonAloneMatchesNothing(s: string)
    requires |s| > 0 && s[0] == ':' && !(|s| > 1 && s[1] == '=')
    ensures FirstMatch(Patterns, s) == None
  {
    forall k ensures MatchLength(k, s) == 0 {
      MatchNeedsStartingCharacter(k, s);
      if k == ASSIGNMENT {
        assert !(":=" <= s);
      }
    }
    NoFirstMatch(s);
  }

  lemma BangMatchesNothing()
    ensures FirstMatch(Patterns, "!") == None
  {
    forall k ensures MatchLength(k, "!") == 0 {
      MatchNeedsStartingCharacter(k, "!");
    }
    NoFirstMatch("!");
  }

  lemma NameBeforeBang()
    ensures FirstMatch(Patterns, "x !") == Some(Token("x", VARNAME))
  {
    FirstMatchByStartingCharacter("x !", VARNAME);
    assert "x !"[..1] == "x";
  }

  lemma SpaceBeforeBang()
    ensures FirstMatch(Patterns, " !") == Some(Token(" ", WHITESPACE))
  {
    FirstMatchByStartingCharacter(" !", WHITESPACE);
    assert " !"[..1] == " ";
  }

  /** A character no pattern starts with stops the tokenizer, with the rest of the text. */
  lemma UnknownCharactersFail()
    ensures Lex(Patterns, ":") == Err(NoMatch(":"))
    ensures Lex(Patterns, "x !") == Err(NoMatch("!"))
  {
    ColonAloneMatchesNothing(":");
    BangMatchesNothing();
    NameBeforeBang();
    SpaceBeforeBang();
    assert "x !"[1..] == " !" && " !"[1..] == "!";
    LexStep(Patterns, "x !", Token("x", VARNAME), []);
    LexStep(Patterns, " !", Token(" ", WHITESPACE), [Token("x", VARNAME)]);
  }
}
