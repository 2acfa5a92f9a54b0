/**
 * The tokenizer: an ordered table of anchored patterns, tried in order at the
 * start of the remaining text; the FIRST pattern that matches wins (not the
 * longest), its match is cut off, and every match except whitespace becomes a
 * token.
 */
module Lexer {
  import opened Results

  /** The token kinds (Kotlin `TokenInfo`); HELPTOKEN has no pattern and is never produced. */
  datatype TokenInfo =
    | SEMICOLON | SKIP | READ | WRITE | ASSIGNMENT | IF | THEN | ELSE | FI | WHILE | DO | OD
    | OR | AND | NOT | OPENINGBRACKET | CLOSINGBRACKET | NEWLINE | AWEAKOP | ASTRONGOP | RELATION
    | BCONSTANT | NUMBER | VARNAME | WHITESPACE | COMMA | HELPTOKEN

  /** A token: the exact text matched and its kind. */
  datatype Token = Token(value: string, info: TokenInfo)

  /** No pattern matches at the start of `rest`, the text not yet tokenized. */
  datatype LexError = NoMatch(rest: string)

  /**
   * The pattern table in the order `Tokenizer.init` adds it. Each kind stands
   * for its regular expression, `^(...)`, as `MatchLength` spells out.
   */
  const Patterns: seq<TokenInfo> :=
    [SEMICOLON, COMMA, SKIP, READ, WRITE, ASSIGNMENT, IF, THEN, ELSE, FI, WHILE, DO, OD,
     OR, AND, NOT, OPENINGBRACKET, CLOSINGBRACKET, NEWLINE, AWEAKOP, ASTRONGOP, RELATION,
     BCONSTANT, NUMBER, VARNAME, WHITESPACE]

  predicate IsDigit(c: char) { '0' <= c <= '9' }

  predicate IsNameStart(c: char) { 'a' <= c <= 'z' || 'A' <= c <= 'Z' || c == '_' }

  predicate IsNamePart(c: char) { IsNameStart(c) || IsDigit(c) }

  /** `s` begins with `lit`, compared character by character. */
  predicate StartsWith(s: string, lit: string)
    ensures StartsWith(s, lit) <==> lit <= s
    decreases |lit|
  {
    |lit| == 0 || (|s| > 0 && s[0] == lit[0] && StartsWith(s[1..], lit[1..]))
  }

  /** Length of the literal `lit` if `s` starts with it, else 0. */
  function LiteralMatch(lit: string, s: string): nat
  {
    if StartsWith(s, lit) then |lit| else 0
  }

  /** A regular-expression alternation `a|b|...`: the first alternative that is a prefix of `s` wins. */
  function AlternativesMatch(alts: seq<string>, s: string): (n: nat)
    ensures n <= |s|
  {
    if |alts| == 0 then 0
    else if StartsWith(s, alts[0]) then |alts[0]|
    else AlternativesMatch(alts[1..], s)
  }

  /** Length of the longest prefix of `s` whose characters all satisfy `IsDigit`. */
  function DigitRun(s: string): (n: nat)
    ensures n <= |s|
  {
    if |s| > 0 && IsDigit(s[0]) then 1 + DigitRun(s[1..]) else 0
  }

  /** Length of the longest prefix of `s` whose characters all satisfy `IsNamePart`. */
  function NameRun(s: string): (n: nat)
    ensures n <= |s|
  {
    if |s| > 0 && IsNamePart(s[0]) then 1 + NameRun(s[1..]) else 0
  }

  /**
   * The length of the text the anchored pattern of kind `k` matches at the
   * start of `s`, or 0 when it does not match (no pattern matches the empty
   * text). Greedy repetition and ordered alternation follow Java's regular
   * expressions.
   */
  function MatchLength(k: TokenInfo, s: string): (n: nat)
    ensures n <= |s|
  {
    match k
    case SEMICOLON => LiteralMatch(";", s)
    case COMMA => LiteralMatch(",", s)
    case SKIP => LiteralMatch("skip", s)
    case READ => LiteralMatch("read", s)
    case WRITE => LiteralMatch("write", s)
    case ASSIGNMENT => LiteralMatch(":=", s)
    case IF => LiteralMatch("if", s)
    case THEN => LiteralMatch("then", s)
    case ELSE => LiteralMatch("else", s)
    case FI => LiteralMatch("fi", s)
    case WHILE => LiteralMatch("while", s)
    case DO => LiteralMatch("do", s)
    case OD => LiteralMatch("od", s)
    case OR => LiteralMatch("or", s)
    case AND => LiteralMatch("and", s)
    case NOT => LiteralMatch("not", s)
    case OPENINGBRACKET => LiteralMatch("(", s)
    case CLOSINGBRACKET => LiteralMatch(")", s)
    case NEWLINE => AlternativesMatch(["\r\n", "\n"], s)                          // \r?\n
    case AWEAKOP => if |s| > 0 && (s[0] == '+' || s[0] == '-') then 1 else 0      // [+-]
    case ASTRONGOP => if |s| > 0 && (s[0] == '*' || s[0] == '/') then 1 else 0    // [*/]
    case RELATION => AlternativesMatch(["<>", "=<", ">=", "=", "<", ">"], s)
    case BCONSTANT => AlternativesMatch(["true", "false"], s)
    case NUMBER =>                                                                // [1-9][0-9]*|0
      if |s| > 0 && '1' <= s[0] <= '9' then 1 + DigitRun(s[1..])
      else if |s| > 0 && s[0] == '0' then 1
      else 0
    case VARNAME => if |s| > 0 && IsNameStart(s[0]) then 1 + NameRun(s[1..]) else 0
    case WHITESPACE =>                                                            // [ \t\r\n]
      if |s| > 0 && (s[0] == ' ' || s[0] == '\t' || s[0] == '\r' || s[0] == '\n') then 1 else 0
    case HELPTOKEN => 0
  }

  /** The index of the first pattern of `table` at or after `from` that matches `s`, or `|table|`. */
  function FirstMatchingPattern(table: seq<TokenInfo>, s: string, from: nat): (j: nat)
    requires from <= |table|
    ensures from <= j <= |table|
    decreases |table| - from
  {
    if from == |table| then from
    else if MatchLength(table[from], s) > 0 then from
    else FirstMatchingPattern(table, s, from + 1)
  }

  /** `FirstMatchingPattern` finds the earliest matching pattern: none before it matches, it does. */
  lemma {:induction false} FirstMatchingPatternIsEarliest(table: seq<TokenInfo>, s: string, from: nat)
    requires from <= |table|
    ensures var j := FirstMatchingPattern(table, s, from);
            && (forall i :: from <= i < j ==> MatchLength(table[i], s) == 0)
            && (j < |table| ==> MatchLength(table[j], s) > 0)
    decreases |table| - from
  {
    if from < |table| && MatchLength(table[from], s) == 0 {
      FirstMatchingPatternIsEarliest(table, s, from + 1);
    }
  }

  /**
   * `Matcher.matchFirst`: the token made by the first pattern of `table` that
   * matches at the start of `s`, with exactly the text it matched.
   */
  function FirstMatch(table: seq<TokenInfo>, s: string): (r: Option<Token>)
    ensures r.Some? ==> 0 < |r.value.value| <= |s| && r.value.value == s[..|r.value.value|]
  {
    var j := FirstMatchingPattern(table, s, 0);
    if j == |table| then None
    else
      FirstMatchingPatternIsEarliest(table, s, 0);
      Some(Token(s[..MatchLength(table[j], s)], table[j]))
  }

  /** Every match, whitespace included, in input order; fails where no pattern matches. */
  function Scan(table: seq<TokenInfo>, s: string): (r: Result<seq<Token>, LexError>)
    decreases |s|
  {
    if |s| == 0 then Ok([])
    else match FirstMatch(table, s)
      case None => Err(NoMatch(s))
      case Some(t) =>
        var rest := Scan(table, s[|t.value|..]);
        if rest.Err? then rest else Ok([t] + rest.value)
  }

  /**
   * `Tokenizer.tokenize`: the tokens of `s` in input order with whitespace
   * matches dropped, or the failure at the first place no pattern matches.
   */
  function Lex(table: seq<TokenInfo>, s: string): (r: Result<seq<Token>, LexError>)
    ensures r.Ok? ==> forall i :: 0 <= i < |r.value| ==> r.value[i].info != WHITESPACE && r.value[i].value != []
    decreases |s|
  {
    if |s| == 0 then Ok([])
    else match FirstMatch(table, s)
      case None => Err(NoMatch(s))
      case Some(t) =>
        var rest := Lex(table, s[|t.value|..]);
        if rest.Err? then rest
        else if t.info == WHITESPACE then rest
        else Ok([t] + rest.value)
  }

  /** `ts` prepended to the tokens of `r`, or the failure of `r`. */
  function Prepend(ts: seq<Token>, r: Result<seq<Token>, LexError>): Result<seq<Token>, LexError>
  {
    if r.Err? then r else Ok(ts + r.value)
  }

  /** One iteration of the tokenizing loop, stated on `Lex`. */
  lemma LexStep(table: seq<TokenInfo>, cur: string, t: Token, done: seq<Token>)
    requires |cur| > 0 && FirstMatch(table, cur) == Some(t)
    ensures Prepend(done, Lex(table, cur))
            == Prepend(if t.info == WHITESPACE then done else done + [t], Lex(table, cur[|t.value|..]))
  {
    var rest := Lex(table, cur[|t.value|..]);
    if rest.Ok? {
      assert done + ([t] + rest.value) == (done + [t]) + rest.value;
    }
  }

  /** Kotlin `Tokenizer.Matcher`: the pattern table, grown by `add`. */
  class Matcher {
    var matchers: seq<TokenInfo>

    constructor ()
      ensures matchers == []
    {
      matchers := [];
    }

    method Add(k: TokenInfo)
      modifies this
      ensures matchers == old(matchers) + [k]
    {
      matchers := matchers + [k];
    }

    method AddRange(ks: seq<TokenInfo>)
      modifies this
      ensures matchers == old(matchers) + ks
    {
      for i := 0 to |ks|
        invariant matchers == old(matchers) + ks[..i]
      {
        Add(ks[i]);
      }
    }

    /** Tries the patterns in table order and returns the first match; `None` where Kotlin throws. */
    method MatchFirst(text: string) returns (r: Option<Token>)
      ensures r == FirstMatch(matchers, text)
    {
      var i := 0;
      while i < |matchers|
        invariant 0 <= i <= |matchers|
        invariant forall j :: 0 <= j < i ==> MatchLength(matchers[j], text) == 0
      {
        var n := MatchLength(matchers[i], text);
        if n > 0 {
          FirstMatchingPatternIsEarliest(matchers, text, 0);
          assert FirstMatchingPattern(matchers, text, 0) == i;
          return Some(Token(text[..n], matchers[i]));
        }
        i := i + 1;
      }
      FirstMatchingPatternIsEarliest(matchers, text, 0);
      return None;
    }
  }

  /** Kotlin `Tokenizer`, holding the matcher its `init` block fills. */
  class Tokenizer {
    const matcher: Matcher

    ghost predicate Valid()
      reads this, matcher
    {
      matcher.matchers == Patterns
    }

    constructor ()
      ensures Valid() && fresh(matcher)
    {
      var m := new Matcher();
      m.AddRange(Patterns);
      matcher := m;
    }

    /**
     * Repeatedly matches at the start of the remaining text, drops the match
     * and keeps it unless it is whitespace.
     */
    method Tokenize(s: string) returns (r: Result<seq<Token>, LexError>)
      ensures r == Lex(matcher.matchers, s)
    {
      var resultTokens: seq<Token> := [];
      var curString := s;
      ghost var table := matcher.matchers;
      assert Lex(table, s).Ok? ==> [] + Lex(table, s).value == Lex(table, s).value;
      while |curString| > 0
        invariant Lex(table, s) == Prepend(resultTokens, Lex(table, curString))
        decreases |curString|
      {
        var m := matcher.MatchFirst(curString);
        if m.None? {
          return Err(NoMatch(curString));
        }
        var t := m.value;
        LexStep(table, curString, t, resultTokens);
        // `replaceFirst(match, "")`: the match is a prefix, so its first occurrence is the prefix.
        curString := curString[|t.value|..];
        if t.info != WHITESPACE {
          resultTokens := resultTokens + [t];
        }
      }
      assert resultTokens + [] == resultTokens;
      return Ok(resultTokens);
    }
  }
}
