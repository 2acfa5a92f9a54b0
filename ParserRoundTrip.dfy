/**
 * A spelling of every program as a token list, and the round trip through
 * the parser: `buildAst` reads the spelling of a well-formed program back as
 * that program. Arithmetic is spelled fully bracketed (`GrammarFacts.Bracketed`);
 * every `and` and `or` node is bracketed as well, so the spelling of any
 * boolean expression is a single `bElem`. The spelling is a token list; it is
 * not claimed that the tokenizer produces it from some text.
 */
module ParserRoundTrip {
  import opened Results
  import opened Longs
  import opened Lexer
  import opened Nodes
  import opened Grammar
  import opened GrammarFacts

  /* ---------- Token lists holding a spelling ---------- */

  /** `ts` holds the tokens `xs` from index `pos` on. */
  predicate Holds(ts: seq<Token>, pos: nat, xs: seq<Token>)
  {
    pos + |xs| <= |ts| && forall k {:trigger xs[k]} :: 0 <= k < |xs| ==> ts[pos + k] == xs[k]
  }

  lemma HoldsConcat(ts: seq<Token>, pos: nat, xs: seq<Token>, ys: seq<Token>, mid: nat)
    requires Holds(ts, pos, xs + ys) && mid == pos + |xs|
    ensures Holds(ts, pos, xs) && Holds(ts, mid, ys)
  {
    forall k | 0 <= k < |xs| ensures ts[pos + k] == xs[k] {
      assert (xs + ys)[k] == xs[k];
    }
    forall k | 0 <= k < |ys| ensures ts[mid + k] == ys[k] {
      assert (xs + ys)[|xs| + k] == ys[k];
    }
  }

  lemma HoldsToken(ts: seq<Token>, pos: nat, t: Token)
    requires Holds(ts, pos, [t])
    ensures pos < |ts| && ts[pos] == t
  {
    assert [t][0] == t;
  }

  /** A token, a list, a token, a list and a token, laid end to end. */
  lemma HoldsFive(ts: seq<Token>, pos: nat, a: Token, xs: seq<Token>, b: Token, ys: seq<Token>, z: Token,
                  xsAt: nat, bAt: nat, ysAt: nat, zAt: nat)
    requires Holds(ts, pos, [a] + xs + [b] + ys + [z])
    requires xsAt == pos + 1 && bAt == xsAt + |xs| && ysAt == bAt + 1 && zAt == ysAt + |ys|
    ensures ts[pos] == a && Holds(ts, xsAt, xs) && ts[bAt] == b && Holds(ts, ysAt, ys) && zAt < |ts| && ts[zAt] == z
  {
    HoldsConcat(ts, pos, [a] + xs + [b] + ys, [z], zAt);
    HoldsToken(ts, zAt, z);
    HoldsConcat(ts, pos, [a] + xs + [b], ys, ysAt);
    HoldsConcat(ts, pos, [a] + xs, [b], bAt);
    HoldsToken(ts, bAt, b);
    HoldsConcat(ts, pos, [a], xs, xsAt);
    HoldsToken(ts, pos, a);
  }

  /** A token followed by a list. */
  lemma HoldsCons(ts: seq<Token>, pos: nat, a: Token, xs: seq<Token>, xsAt: nat)
    requires Holds(ts, pos, [a] + xs) && xsAt == pos + 1
    ensures ts[pos] == a && Holds(ts, xsAt, xs)
  {
    HoldsConcat(ts, pos, [a], xs, xsAt);
    HoldsToken(ts, pos, a);
  }

  /** Holding the bracketed spelling of `e` as a list is holding it token by token. */
  lemma HoldsBracketed(ts: seq<Token>, pos: nat, e: AlgebraicExpression)
    requires Holds(ts, pos, Bracketed(e))
    ensures SpelledAt(ts, pos, e)
    ensures ts[pos].info == NUMBER || ts[pos].info == VARNAME || ts[pos].info == OPENINGBRACKET
  {
    var w := Bracketed(e);
    forall k | 0 <= k < Width(e) ensures ts[pos + k] == SpellingToken(e, k) {
      assert w[k] == SpellingToken(e, k);
    }
    SpellingIsSpelledAt(ts, pos, e);
  }

  /* ---------- Spellings ---------- */

  /** The RELATION text of each comparison. */
  function RelationText(rel: Relation): string
  {
    match rel
    case EqualsRelation(_, _) => "="
    case NotEqualsRelation(_, _) => "<>"
    case SmallerThanRelation(_, _) => "<"
    case GreaterThanRelation(_, _) => ">"
    case SmallerThanOrEqualRelation(_, _) => "=<"
    case GreaterThanOrEqualRelation(_, _) => ">="
  }

  /** `aExprRelation` builds back the relation whose text it reads. */
  lemma RelationTextNamesRelation(rel: Relation)
    ensures ComparisonOf(RelationText(rel)).Some?
    ensures MakeRelation(ComparisonOf(RelationText(rel)).value, rel.left, rel.right) == rel
  {
    match rel
    case EqualsRelation(_, _) =>
    case NotEqualsRelation(_, _) =>
    case SmallerThanRelation(_, _) =>
    case GreaterThanRelation(_, _) =>
    case SmallerThanOrEqualRelation(_, _) =>
    case GreaterThanOrEqualRelation(_, _) =>
  }

  /** A boolean expression as tokens: `and` and `or` nodes in brackets, `not` before one element. */
  function BooleanSpelling(b: BooleanExpression): seq<Token>
  {
    match b
    case BooleanConstant(v) => [Token(if v then "true" else "false", BCONSTANT)]
    case NotExpression(x) => [Token("not", NOT)] + BooleanSpelling(x)
    case RelationExpression(rel) => Bracketed(rel.left) + [Token(RelationText(rel), RELATION)] + Bracketed(rel.right)
    case AndExpression(l, r) => [Open] + BooleanSpelling(l) + [Token("and", AND)] + BooleanSpelling(r) + [Close]
    case OrExpression(l, r) => [Open] + BooleanSpelling(l) + [Token("or", OR)] + BooleanSpelling(r) + [Close]
  }

  /** A name list as VARNAME tokens separated by COMMAs. */
  function NamesSpelling(names: seq<string>): seq<Token>
  {
    if |names| == 0 then []
    else [Token(names[0], VARNAME)] + (if |names| == 1 then [] else [Token(",", COMMA)] + NamesSpelling(names[1..]))
  }

  /** A statement as tokens. */
  function StatementSpelling(s: Statement): seq<Token>
    decreases s, 0
  {
    match s
    case SkipStatement => [Token("skip", SKIP)]
    case AssignStatement(x, e) => [Token(x, VARNAME), Token(":=", ASSIGNMENT)] + Bracketed(e)
    case ReadStatment(names) => [Token("read", READ)] + NamesSpelling(names)
    case WriteStatement(names) => [Token("write", WRITE)] + NamesSpelling(names)
    case ConditionalStatement(c, t, e) =>
      [Token("if", IF)] + BooleanSpelling(c) + [Token("then", THEN)] + (SeriesSpelling(t) + ElseSpelling(e)) + [Token("fi", FI)]
    case LoopStatement(c, body) =>
      [Token("while", WHILE)] + BooleanSpelling(c) + [Token("do", DO)] + SeriesSpelling(body) + [Token("od", OD)]
  }

  /** A statement list as tokens, separated by `;`. */
  function SeriesSpelling(ss: seq<Statement>): seq<Token>
    decreases ss, 0
  {
    if |ss| == 0 then []
    else StatementSpelling(ss[0]) + (if |ss| == 1 then [] else [Token(";", SEMICOLON)] + SeriesSpelling(ss[1..]))
  }

  /** The else part of a conditional's spelling: nothing, or `else` and a series. */
  function ElseSpelling(e: seq<Statement>): seq<Token>
    decreases e, 1
  {
    if e == [] then [] else [Token("else", ELSE)] + SeriesSpelling(e)
  }

  /** A program as tokens: its statements and the terminating NEWLINE. */
  function Spelling(p: Program): seq<Token>
  {
    SeriesSpelling(p.statements) + [NewLine]
  }

  /**
   * The trees the grammar can produce: `read` and `write` list at least one
   * name, and every series (a program, a branch, a loop body) holds at least
   * one statement; an else branch may be empty, which is how a conditional
   * without `else` is represented.
   */
  predicate WellFormed(s: Statement)
    decreases s, 0
  {
    match s
    case ReadStatment(names) => |names| > 0
    case WriteStatement(names) => |names| > 0
    case ConditionalStatement(_, t, e) => WellFormedSeries(t) && (e == [] || WellFormedSeries(e))
    case LoopStatement(_, body) => WellFormedSeries(body)
    case _ => true
  }

  predicate WellFormedSeries(ss: seq<Statement>)
    decreases ss, 0
  {
    |ss| > 0 && WellFormed(ss[0]) && (|ss| > 1 ==> WellFormedSeries(ss[1..]))
  }

  /* ---------- The same spellings, token by token ---------- */

  /** How many tokens the spelling of a boolean expression takes. */
  function BoolWidth(b: BooleanExpression): nat
  {
    match b
    case BooleanConstant(_) => 1
    case NotExpression(x) => 1 + BoolWidth(x)
    case RelationExpression(rel) => Width(rel.left) + 1 + Width(rel.right)
    case AndExpression(l, r) => BoolWidth(l) + BoolWidth(r) + 3
    case OrExpression(l, r) => BoolWidth(l) + BoolWidth(r) + 3
  }

  /** The connective token of an `and` or `or` node. */
  function Connective(b: BooleanExpression): Token
    requires b.AndExpression? || b.OrExpression?
  {
    if b.AndExpression? then Token("and", AND) else Token("or", OR)
  }

  /** `ts` holds the spelling of `b` from `pos` on, node by node. */
  predicate BoolSpelledAt(ts: seq<Token>, pos: nat, b: BooleanExpression)
    decreases b
  {
    match b
    case BooleanConstant(v) => pos < |ts| && ts[pos] == Token(if v then "true" else "false", BCONSTANT)
    case NotExpression(x) => pos < |ts| && ts[pos] == Token("not", NOT) && BoolSpelledAt(ts, pos + 1, x)
    case RelationExpression(rel) =>
      var op := pos + Width(rel.left);
      && op < |ts| && SpelledAt(ts, pos, rel.left) && ts[op] == Token(RelationText(rel), RELATION)
      && SpelledAt(ts, op + 1, rel.right)
    case AndExpression(_, _) | OrExpression(_, _) =>
      var op := pos + 1 + BoolWidth(b.left);
      var close := op + 1 + BoolWidth(b.right);
      && close < |ts| && ts[pos] == Open && BoolSpelledAt(ts, pos + 1, b.left) && ts[op] == Connective(b)
      && BoolSpelledAt(ts, op + 1, b.right) && ts[close] == Close
  }

  /** How many tokens the spelling of a statement takes. */
  function StmtWidth(s: Statement): nat
    decreases s, 0
  {
    match s
    case SkipStatement => 1
    case AssignStatement(_, e) => 2 + Width(e)
    case ReadStatment(names) => if |names| == 0 then 1 else 2 * |names|
    case WriteStatement(names) => if |names| == 0 then 1 else 2 * |names|
    case ConditionalStatement(c, t, e) => BoolWidth(c) + SeriesWidth(t) + ElseWidth(e) + 3
    case LoopStatement(c, body) => BoolWidth(c) + SeriesWidth(body) + 3
  }

  function ElseWidth(e: seq<Statement>): nat
    decreases e, 1
  {
    if e == [] then 0 else 1 + SeriesWidth(e)
  }

  function SeriesWidth(ss: seq<Statement>): nat
    decreases ss, 0
  {
    if |ss| == 0 then 0 else StmtWidth(ss[0]) + (if |ss| == 1 then 0 else 1 + SeriesWidth(ss[1..]))
  }

  /** `ts` holds the spelling of `s` from `pos` on, part by part; read and write list at least one name. */
  predicate StmtSpelledAt(ts: seq<Token>, pos: nat, s: Statement)
    decreases s, 0
  {
    match s
    case SkipStatement => pos < |ts| && ts[pos] == Token("skip", SKIP)
    case AssignStatement(x, e) =>
      pos + 1 < |ts| && ts[pos] == Token(x, VARNAME) && ts[pos + 1] == Token(":=", ASSIGNMENT) && SpelledAt(ts, pos + 2, e)
    case ReadStatment(names) => pos < |ts| && ts[pos] == Token("read", READ) && NameListAt(ts, pos + 1, names)
    case WriteStatement(names) => pos < |ts| && ts[pos] == Token("write", WRITE) && NameListAt(ts, pos + 1, names)
    case ConditionalStatement(c, t, e) =>
      var thenAt := pos + 1 + BoolWidth(c);
      var elseAt := thenAt + 1 + SeriesWidth(t);
      var fiAt := elseAt + ElseWidth(e);
      && fiAt < |ts| && ts[pos] == Token("if", IF) && BoolSpelledAt(ts, pos + 1, c)
      && ts[thenAt] == Token("then", THEN) && SeriesSpelledAt(ts, thenAt + 1, t)
      && ElseSpelledAt(ts, elseAt, e) && ts[fiAt] == Token("fi", FI)
    case LoopStatement(c, body) =>
      var doAt := pos + 1 + BoolWidth(c);
      var odAt := doAt + 1 + SeriesWidth(body);
      && odAt < |ts| && ts[pos] == Token("while", WHILE) && BoolSpelledAt(ts, pos + 1, c)
      && ts[doAt] == Token("do", DO) && SeriesSpelledAt(ts, doAt + 1, body) && ts[odAt] == Token("od", OD)
  }

  predicate ElseSpelledAt(ts: seq<Token>, pos: nat, e: seq<Statement>)
    decreases e, 1
  {
    e == [] || (pos < |ts| && ts[pos] == Token("else", ELSE) && SeriesSpelledAt(ts, pos + 1, e))
  }

  /** `ts` holds the spelling of the non-empty series `ss` from `pos` on, statement by statement. */
  predicate SeriesSpelledAt(ts: seq<Token>, pos: nat, ss: seq<Statement>)
    decreases ss, 0
  {
    && |ss| > 0 && StmtSpelledAt(ts, pos, ss[0])
    && (|ss| > 1 ==> var mid := pos + StmtWidth(ss[0]);
                     mid < |ts| && ts[mid] == Token(";", SEMICOLON) && SeriesSpelledAt(ts, mid + 1, ss[1..]))
  }

  /* ---------- From a held spelling to its parts ---------- */

  /** The spelling of a name list is a name list of `2 * |names| - 1` tokens. */
  lemma {:induction false} NamesSpelled(ts: seq<Token>, pos: nat, names: seq<string>)
    requires |names| > 0 && Holds(ts, pos, NamesSpelling(names))
    ensures |NamesSpelling(names)| == 2 * |names| - 1 && NameListAt(ts, pos, names)
    decreases |names|
  {
    var rest := if |names| == 1 then [] else [Token(",", COMMA)] + NamesSpelling(names[1..]);
    assert NamesSpelling(names) == [Token(names[0], VARNAME)] + rest;
    HoldsCons(ts, pos, Token(names[0], VARNAME), rest, pos + 1);
    if |names| > 1 {
      HoldsCons(ts, pos + 1, Token(",", COMMA), NamesSpelling(names[1..]), pos + 2);
      NamesSpelled(ts, pos + 2, names[1..]);
    }
  }

  lemma {:induction false} BooleanSpellingIsSpelled(ts: seq<Token>, pos: nat, b: BooleanExpression)
    requires Holds(ts, pos, BooleanSpelling(b))
    ensures |BooleanSpelling(b)| == BoolWidth(b) && BoolSpelledAt(ts, pos, b)
    decreases b, 1
  {
    match b
    case BooleanConstant(v) =>
      HoldsToken(ts, pos, Token(if v then "true" else "false", BCONSTANT));
    case NotExpression(x) =>
      HoldsCons(ts, pos, Token("not", NOT), BooleanSpelling(x), pos + 1);
      BooleanSpellingIsSpelled(ts, pos + 1, x);
    case RelationExpression(rel) =>
      RelationSpellingIsSpelled(ts, pos, rel, pos + Width(rel.left));
    case AndExpression(_, _) | OrExpression(_, _) =>
      CompoundSpellingIsSpelled(ts, pos, b, pos + 1 + |BooleanSpelling(b.left)|);
  }

  lemma RelationSpellingIsSpelled(ts: seq<Token>, pos: nat, rel: Relation, op: nat)
    requires Holds(ts, pos, BooleanSpelling(RelationExpression(rel))) && op == pos + Width(rel.left)
    ensures |BooleanSpelling(RelationExpression(rel))| == BoolWidth(RelationExpression(rel))
    ensures BoolSpelledAt(ts, pos, RelationExpression(rel))
  {
    var l, t, r := Bracketed(rel.left), Token(RelationText(rel), RELATION), Bracketed(rel.right);
    assert BooleanSpelling(RelationExpression(rel)) == l + [t] + r;
    HoldsConcat(ts, pos, l + [t], r, op + 1);
    HoldsConcat(ts, pos, l, [t], op);
    HoldsToken(ts, op, t);
    HoldsBracketed(ts, pos, rel.left);
    HoldsBracketed(ts, op + 1, rel.right);
  }

  lemma {:induction false} CompoundSpellingIsSpelled(ts: seq<Token>, pos: nat, b: BooleanExpression, op: nat)
    requires (b.AndExpression? || b.OrExpression?) && Holds(ts, pos, BooleanSpelling(b))
    requires op == pos + 1 + |BooleanSpelling(b.left)|
    ensures |BooleanSpelling(b)| == BoolWidth(b) && BoolSpelledAt(ts, pos, b)
    decreases b, 0
  {
    var close := op + 1 + |BooleanSpelling(b.right)|;
    CompoundLayout(ts, pos, b, op, close);
    BooleanSpellingIsSpelled(ts, pos + 1, b.left);
    BooleanSpellingIsSpelled(ts, op + 1, b.right);
    CompoundFromParts(ts, pos, b, op, close);
  }

  /** An `and` or `or` node is spelled at `pos` once its operands are, each where the widths put it. */
  lemma CompoundFromParts(ts: seq<Token>, pos: nat, b: BooleanExpression, op: nat, close: nat)
    requires (b.AndExpression? || b.OrExpression?) && op == pos + 1 + BoolWidth(b.left)
    requires close == op + 1 + BoolWidth(b.right) && close < |ts|
    requires ts[pos] == Open && BoolSpelledAt(ts, pos + 1, b.left) && ts[op] == Connective(b)
    requires BoolSpelledAt(ts, op + 1, b.right) && ts[close] == Close
    ensures BoolWidth(b) == close + 1 - pos && BoolSpelledAt(ts, pos, b)
  {
  }

  /** Where the operands, the connective and the brackets of a held `and` or `or` lie. */
  lemma CompoundLayout(ts: seq<Token>, pos: nat, b: BooleanExpression, op: nat, close: nat)
    requires (b.AndExpression? || b.OrExpression?) && Holds(ts, pos, BooleanSpelling(b))
    requires op == pos + 1 + |BooleanSpelling(b.left)| && close == op + 1 + |BooleanSpelling(b.right)|
    ensures |BooleanSpelling(b)| == close + 1 - pos && close < |ts|
    ensures ts[pos] == Open && Holds(ts, pos + 1, BooleanSpelling(b.left))
    ensures ts[op] == Connective(b) && Holds(ts, op + 1, BooleanSpelling(b.right)) && ts[close] == Close
  {
    var l, r := BooleanSpelling(b.left), BooleanSpelling(b.right);
    assert BooleanSpelling(b) == [Open] + l + [Connective(b)] + r + [Close];
    HoldsFive(ts, pos, Open, l, Connective(b), r, Close, pos + 1, op, op + 1, close);
  }

  lemma {:induction false} StatementSpellingIsSpelled(ts: seq<Token>, pos: nat, s: Statement)
    requires WellFormed(s) && Holds(ts, pos, StatementSpelling(s))
    ensures |StatementSpelling(s)| == StmtWidth(s) && StmtSpelledAt(ts, pos, s)
    decreases s, 2
  {
    match s
    case SkipStatement =>
      HoldsToken(ts, pos, Token("skip", SKIP));
    case AssignStatement(x, e) =>
      AssignSpellingIsSpelled(ts, pos, x, e);
    case ReadStatment(names) =>
      HoldsCons(ts, pos, Token("read", READ), NamesSpelling(names), pos + 1);
      NamesSpelled(ts, pos + 1, names);
    case WriteStatement(names) =>
      HoldsCons(ts, pos, Token("write", WRITE), NamesSpelling(names), pos + 1);
      NamesSpelled(ts, pos + 1, names);
    case ConditionalStatement(c, t, e) =>
      CondSpellingIsSpelled(ts, pos, s);
    case LoopStatement(c, b) =>
      LoopSpellingIsSpelled(ts, pos, s);
  }

  lemma AssignSpellingIsSpelled(ts: seq<Token>, pos: nat, x: string, e: AlgebraicExpression)
    requires Holds(ts, pos, StatementSpelling(AssignStatement(x, e)))
    ensures |StatementSpelling(AssignStatement(x, e))| == StmtWidth(AssignStatement(x, e))
    ensures StmtSpelledAt(ts, pos, AssignStatement(x, e))
  {
    HoldsConcat(ts, pos, [Token(x, VARNAME), Token(":=", ASSIGNMENT)], Bracketed(e), pos + 2);
    assert [Token(x, VARNAME), Token(":=", ASSIGNMENT)][0] == Token(x, VARNAME);
    assert [Token(x, VARNAME), Token(":=", ASSIGNMENT)][1] == Token(":=", ASSIGNMENT);
    HoldsBracketed(ts, pos + 2, e);
  }

  lemma {:induction false} CondSpellingIsSpelled(ts: seq<Token>, pos: nat, s: Statement)
    requires s.ConditionalStatement? && WellFormed(s) && Holds(ts, pos, StatementSpelling(s))
    ensures |StatementSpelling(s)| == StmtWidth(s) && StmtSpelledAt(ts, pos, s)
    decreases s, 1
  {
    var thenAt := pos + 1 + |BooleanSpelling(s.condition)|;
    var elseAt := thenAt + 1 + |SeriesSpelling(s.thenStmt)|;
    var fiAt := elseAt + |ElseSpelling(s.elseStmt)|;
    CondLayout(ts, pos, s, thenAt, elseAt, fiAt);
    CondPartsSpelled(ts, pos, s, thenAt, elseAt, fiAt);
  }

  /** A conditional whose parts are held where the lengths of their spellings put them. */
  lemma {:induction false} CondPartsSpelled(ts: seq<Token>, pos: nat, s: Statement, thenAt: nat, elseAt: nat, fiAt: nat)
    requires s.ConditionalStatement? && WellFormedSeries(s.thenStmt) && (s.elseStmt == [] || WellFormedSeries(s.elseStmt))
    requires thenAt == pos + 1 + |BooleanSpelling(s.condition)|
    requires elseAt == thenAt + 1 + |SeriesSpelling(s.thenStmt)| && fiAt == elseAt + |ElseSpelling(s.elseStmt)|
    requires fiAt < |ts| && ts[pos] == Token("if", IF) && Holds(ts, pos + 1, BooleanSpelling(s.condition))
    requires ts[thenAt] == Token("then", THEN) && Holds(ts, thenAt + 1, SeriesSpelling(s.thenStmt))
    requires Holds(ts, elseAt, ElseSpelling(s.elseStmt)) && ts[fiAt] == Token("fi", FI)
    ensures StmtWidth(s) == fiAt + 1 - pos && StmtSpelledAt(ts, pos, s)
    decreases s, 0
  {
    BooleanSpellingIsSpelled(ts, pos + 1, s.condition);
    SeriesSpellingIsSpelled(ts, thenAt + 1, s.thenStmt);
    ElseSpellingIsSpelled(ts, elseAt, s.elseStmt);
    CondFromParts(ts, pos, s, thenAt, elseAt, fiAt);
  }

  /** A conditional is spelled at `pos` once its parts are, each where the widths put it. */
  lemma CondFromParts(ts: seq<Token>, pos: nat, s: Statement, thenAt: nat, elseAt: nat, fiAt: nat)
    requires s.ConditionalStatement? && thenAt == pos + 1 + BoolWidth(s.condition)
    requires elseAt == thenAt + 1 + SeriesWidth(s.thenStmt) && fiAt == elseAt + ElseWidth(s.elseStmt) && fiAt < |ts|
    requires ts[pos] == Token("if", IF) && BoolSpelledAt(ts, pos + 1, s.condition)
    requires ts[thenAt] == Token("then", THEN) && SeriesSpelledAt(ts, thenAt + 1, s.thenStmt)
    requires ElseSpelledAt(ts, elseAt, s.elseStmt) && ts[fiAt] == Token("fi", FI)
    ensures StmtWidth(s) == fiAt + 1 - pos && StmtSpelledAt(ts, pos, s)
  {
  }

  /** Where the condition, the two branches and `fi` of a held conditional lie. */
  lemma CondLayout(ts: seq<Token>, pos: nat, s: Statement, thenAt: nat, elseAt: nat, fiAt: nat)
    requires s.ConditionalStatement? && Holds(ts, pos, StatementSpelling(s))
    requires thenAt == pos + 1 + |BooleanSpelling(s.condition)|
    requires elseAt == thenAt + 1 + |SeriesSpelling(s.thenStmt)| && fiAt == elseAt + |ElseSpelling(s.elseStmt)|
    ensures |StatementSpelling(s)| == fiAt + 1 - pos && fiAt < |ts|
    ensures ts[pos] == Token("if", IF) && Holds(ts, pos + 1, BooleanSpelling(s.condition))
    ensures ts[thenAt] == Token("then", THEN) && Holds(ts, thenAt + 1, SeriesSpelling(s.thenStmt))
    ensures Holds(ts, elseAt, ElseSpelling(s.elseStmt)) && ts[fiAt] == Token("fi", FI)
  {
    var t, e := SeriesSpelling(s.thenStmt), ElseSpelling(s.elseStmt);
    HoldsFive(ts, pos, Token("if", IF), BooleanSpelling(s.condition), Token("then", THEN), t + e, Token("fi", FI),
              pos + 1, thenAt, thenAt + 1, fiAt);
    HoldsConcat(ts, thenAt + 1, t, e, elseAt);
  }

  lemma {:induction false} LoopSpellingIsSpelled(ts: seq<Token>, pos: nat, s: Statement)
    requires s.LoopStatement? && WellFormed(s) && Holds(ts, pos, StatementSpelling(s))
    ensures |StatementSpelling(s)| == StmtWidth(s) && StmtSpelledAt(ts, pos, s)
    decreases s, 1
  {
    var doAt := pos + 1 + |BooleanSpelling(s.condition)|;
    var odAt := doAt + 1 + |SeriesSpelling(s.body)|;
    LoopLayout(ts, pos, s, doAt, odAt);
    LoopPartsSpelled(ts, pos, s, doAt, odAt);
  }

  /** A loop whose parts are held where the lengths of their spellings put them. */
  lemma {:induction false} LoopPartsSpelled(ts: seq<Token>, pos: nat, s: Statement, doAt: nat, odAt: nat)
    requires s.LoopStatement? && WellFormedSeries(s.body)
    requires doAt == pos + 1 + |BooleanSpelling(s.condition)| && odAt == doAt + 1 + |SeriesSpelling(s.body)|
    requires odAt < |ts| && ts[pos] == Token("while", WHILE) && Holds(ts, pos + 1, BooleanSpelling(s.condition))
    requires ts[doAt] == Token("do", DO) && Holds(ts, doAt + 1, SeriesSpelling(s.body)) && ts[odAt] == Token("od", OD)
    ensures StmtWidth(s) == odAt + 1 - pos && StmtSpelledAt(ts, pos, s)
    decreases s, 0
  {
    BooleanSpellingIsSpelled(ts, pos + 1, s.condition);
    SeriesSpellingIsSpelled(ts, doAt + 1, s.body);
    LoopFromParts(ts, pos, s, doAt, odAt);
  }

  /** A loop is spelled at `pos` once its parts are, each where the widths put it. */
  lemma LoopFromParts(ts: seq<Token>, pos: nat, s: Statement, doAt: nat, odAt: nat)
    requires s.LoopStatement? && doAt == pos + 1 + BoolWidth(s.condition)
    requires odAt == doAt + 1 + SeriesWidth(s.body) && odAt < |ts|
    requires ts[pos] == Token("while", WHILE) && BoolSpelledAt(ts, pos + 1, s.condition)
    requires ts[doAt] == Token("do", DO) && SeriesSpelledAt(ts, doAt + 1, s.body) && ts[odAt] == Token("od", OD)
    ensures StmtWidth(s) == odAt + 1 - pos && StmtSpelledAt(ts, pos, s)
  {
  }

  /** Where the condition, the body and `od` of a held loop lie. */
  lemma LoopLayout(ts: seq<Token>, pos: nat, s: Statement, doAt: nat, odAt: nat)
    requires s.LoopStatement? && Holds(ts, pos, StatementSpelling(s))
    requires doAt == pos + 1 + |BooleanSpelling(s.condition)| && odAt == doAt + 1 + |SeriesSpelling(s.body)|
    ensures |StatementSpelling(s)| == odAt + 1 - pos && odAt < |ts|
    ensures ts[pos] == Token("while", WHILE) && Holds(ts, pos + 1, BooleanSpelling(s.condition))
    ensures ts[doAt] == Token("do", DO) && Holds(ts, doAt + 1, SeriesSpelling(s.body)) && ts[odAt] == Token("od", OD)
  {
    HoldsFive(ts, pos, Token("while", WHILE), BooleanSpelling(s.condition), Token("do", DO), SeriesSpelling(s.body),
              Token("od", OD), pos + 1, doAt, doAt + 1, odAt);
  }

  lemma {:induction false} ElseSpellingIsSpelled(ts: seq<Token>, pos: nat, e: seq<Statement>)
    requires (e == [] || WellFormedSeries(e)) && Holds(ts, pos, ElseSpelling(e))
    ensures |ElseSpelling(e)| == ElseWidth(e) && ElseSpelledAt(ts, pos, e)
    decreases e, 2
  {
    if e != [] {
      HoldsCons(ts, pos, Token("else", ELSE), SeriesSpelling(e), pos + 1);
      SeriesSpellingIsSpelled(ts, pos + 1, e);
    }
  }

  lemma {:induction false} SeriesSpellingIsSpelled(ts: seq<Token>, pos: nat, ss: seq<Statement>)
    requires WellFormedSeries(ss) && Holds(ts, pos, SeriesSpelling(ss))
    ensures |SeriesSpelling(ss)| == SeriesWidth(ss) && SeriesSpelledAt(ts, pos, ss)
    decreases ss, 1
  {
    if |ss| == 1 {
      LastOfSeriesLayout(ts, pos, ss);
      StatementSpellingIsSpelled(ts, pos, ss[0]);
    } else {
      var mid := pos + |StatementSpelling(ss[0])|;
      FirstOfSeriesLayout(ts, pos, ss, mid);
      StatementSpellingIsSpelled(ts, pos, ss[0]);
      SeriesSpellingIsSpelled(ts, mid + 1, ss[1..]);
    }
  }

  /** The spelling of a one-statement series is that statement's spelling. */
  lemma LastOfSeriesLayout(ts: seq<Token>, pos: nat, ss: seq<Statement>)
    requires |ss| == 1 && Holds(ts, pos, SeriesSpelling(ss))
    ensures SeriesSpelling(ss) == StatementSpelling(ss[0]) && Holds(ts, pos, StatementSpelling(ss[0]))
  {
  }

  /** The spelling of a longer series is its first statement's, a `;`, and the rest's. */
  lemma FirstOfSeriesLayout(ts: seq<Token>, pos: nat, ss: seq<Statement>, mid: nat)
    requires |ss| > 1 && Holds(ts, pos, SeriesSpelling(ss)) && mid == pos + |StatementSpelling(ss[0])|
    ensures Holds(ts, pos, StatementSpelling(ss[0]))
    ensures mid < |ts| && ts[mid] == Token(";", SEMICOLON) && Holds(ts, mid + 1, SeriesSpelling(ss[1..]))
    ensures |SeriesSpelling(ss)| == |StatementSpelling(ss[0])| + 1 + |SeriesSpelling(ss[1..])|
  {
    var first, tail := StatementSpelling(ss[0]), SeriesSpelling(ss[1..]);
    assert SeriesSpelling(ss) == first + ([Token(";", SEMICOLON)] + tail);
    HoldsConcat(ts, pos, first, [Token(";", SEMICOLON)] + tail, mid);
    HoldsCons(ts, mid, Token(";", SEMICOLON), tail, mid + 1);
  }

  /* ---------- Reading boolean expressions ---------- */

  /** A token that is not a NEWLINE is the one the peek sees. */
  lemma Significant(ts: seq<Token>, i: nat)
    requires i < |ts| && ts[i].info != NEWLINE
    ensures SkipNewLines(ts, i) == i && Peek(ts, i) == ts[i].info
  {
  }

  /** `aExpr` reads `e` from `pos` and stops at `end`. */
  predicate AExprReads(ts: seq<Token>, pos: nat, e: AlgebraicExpression, end: nat)
  {
    pos <= |ts| && AExpr(ts, pos) == Parsed(Ok(e), end)
  }

  /** `aExprRelation` reads `b` from `pos` and stops at `end`. */
  predicate RelationReads(ts: seq<Token>, pos: nat, b: BooleanExpression, end: nat)
  {
    pos <= |ts| && AExprRelation(ts, pos) == Parsed(Ok(b), end)
  }

  /** `bElem` reads `b` from `pos` and stops at `end`. */
  predicate ElemReads(ts: seq<Token>, pos: nat, b: BooleanExpression, end: nat)
  {
    pos <= |ts| && BElem(ts, pos) == Parsed(Ok(b), end)
  }

  /** `bExpr` reads `b` from `pos` and stops at `end`. */
  predicate BExprReads(ts: seq<Token>, pos: nat, b: BooleanExpression, end: nat)
  {
    pos <= |ts| && BExpr(ts, pos) == Parsed(Ok(b), end)
  }

  /** `aElem` fails at `pos` with a ParseException. */
  predicate ArithmeticFails(ts: seq<Token>, pos: nat)
  {
    pos <= |ts| && AElem(ts, pos).result.Err? && AElem(ts, pos).result.error.ParseException?
  }

  /** `aExpr` reads a spelt arithmetic expression that no arithmetic operator follows. */
  lemma AExprReadsSpelled(ts: seq<Token>, pos: nat, e: AlgebraicExpression, end: nat)
    requires SpelledAt(ts, pos, e) && end == pos + Width(e)
    requires !Peek(ts, end).AWEAKOP? && !Peek(ts, end).ASTRONGOP?
    ensures AExprReads(ts, pos, e, end)
  {
    AElemReadsSpelling(e, ts, pos);
    LoneElementIsAExpr(ts, pos);
  }

  /** A spelt relation: `aExpr` reads its left operand and stops at the RELATION token. */
  lemma RelationLeftOperand(ts: seq<Token>, pos: nat, rel: Relation, op: nat)
    requires BoolSpelledAt(ts, pos, RelationExpression(rel)) && op == pos + Width(rel.left)
    ensures op < |ts| && ts[op] == Token(RelationText(rel), RELATION) && SpelledAt(ts, op + 1, rel.right)
    ensures AExprReads(ts, pos, rel.left, op)
  {
    assert SkipNewLines(ts, op) == op;
    AExprReadsSpelled(ts, pos, rel.left, op);
  }

  /** When `aElem` fails, so do `aTerm`, `aExpr` and `aExprRelation` from the same cursor, with the same exception. */
  lemma ElementFailurePropagates(ts: seq<Token>, pos: nat)
    requires pos <= |ts| && AElem(ts, pos).result.Err?
    ensures ATerm(ts, pos).result == AElem(ts, pos).result
    ensures AExpr(ts, pos).result == AElem(ts, pos).result
    ensures AExprRelation(ts, pos).result == Err(AElem(ts, pos).result.error)
  {
  }

  /**
   * Read as arithmetic, the spelling of a boolean expression that is not a
   * relation fails with a ParseException; this is what sends
   * `resolveBrackets` to its second alternative.
   */
  lemma {:induction false} ArithmeticFailsOnBoolean(ts: seq<Token>, pos: nat, b: BooleanExpression)
    requires BoolSpelledAt(ts, pos, b) && !b.RelationExpression?
    ensures ArithmeticFails(ts, pos)
    decreases b, 2
  {
    if b.AndExpression? || b.OrExpression? {
      CompoundFailsAsArithmetic(ts, pos, b);
    } else {
      assert SkipNewLines(ts, pos) == pos;
    }
  }

  /** The tokens and parts of a spelt `and` or `or` node. */
  lemma CompoundSpelled(ts: seq<Token>, pos: nat, b: BooleanExpression, op: nat, close: nat)
    requires (b.AndExpression? || b.OrExpression?) && BoolSpelledAt(ts, pos, b)
    requires op == pos + 1 + BoolWidth(b.left) && close == op + 1 + BoolWidth(b.right)
    ensures close < |ts| && ts[pos] == Open && BoolSpelledAt(ts, pos + 1, b.left)
    ensures ts[op] == Connective(b) && BoolSpelledAt(ts, op + 1, b.right) && ts[close] == Close
    ensures close + 1 == pos + BoolWidth(b)
  {
  }

  /** `aElem` on `(` fails with a ParseException when `aElem` fails on what follows it. */
  lemma InnerFailureFailsBracket(ts: seq<Token>, pos: nat)
    requires pos < |ts| && ts[pos].info == OPENINGBRACKET && ArithmeticFails(ts, pos + 1)
    ensures ArithmeticFails(ts, pos)
  {
    ElementFailurePropagates(ts, pos + 1);
    assert SkipNewLines(ts, pos) == pos;
  }

  /** `aElem` on `(` fails with a ParseException when the inner `aExpr` stops at a RELATION where `)` is expected. */
  lemma RelationInBracketFails(ts: seq<Token>, pos: nat, e: AlgebraicExpression, m: nat)
    requires pos < |ts| && ts[pos].info == OPENINGBRACKET
    requires AExprReads(ts, pos + 1, e, m) && m < |ts| && ts[m].info == RELATION
    ensures ArithmeticFails(ts, pos)
  {
    assert SkipNewLines(ts, pos) == pos;
    EatFailsOnOther(ts, m, CLOSINGBRACKET);
  }

  /** Eating kind `k` where a token of another kind stands fails with a ParseException. */
  lemma EatFailsOnOther(ts: seq<Token>, m: nat, k: TokenInfo)
    requires m < |ts| && ts[m].info != NEWLINE && ts[m].info != k
    ensures Eat(ts, m, k, true).result.Err? && Eat(ts, m, k, true).result.error.ParseException?
  {
    assert SkipNewLines(ts, m) == m;
  }

  /** `aElem` on `(` l op r `)`: the inner `aExpr` fails, or stops at a RELATION where `)` is expected. */
  lemma {:induction false} CompoundFailsAsArithmetic(ts: seq<Token>, pos: nat, b: BooleanExpression)
    requires (b.AndExpression? || b.OrExpression?) && BoolSpelledAt(ts, pos, b)
    ensures ArithmeticFails(ts, pos)
    decreases b, 1
  {
    var op := pos + 1 + BoolWidth(b.left);
    CompoundSpelled(ts, pos, b, op, op + 1 + BoolWidth(b.right));
    if b.left.RelationExpression? {
      var rel := b.left.relation;
      var m := pos + 1 + Width(rel.left);
      RelationLeftOperand(ts, pos + 1, rel, m);
      RelationInBracketFails(ts, pos, rel.left, m);
    } else {
      ArithmeticFailsOnBoolean(ts, pos + 1, b.left);
      InnerFailureFailsBracket(ts, pos);
    }
  }

  /** Every spelt boolean expression is read back by `bElem`, when no arithmetic operator follows it. */
  lemma {:induction false} BElemReadsSpelling(ts: seq<Token>, pos: nat, b: BooleanExpression, end: nat)
    requires BoolSpelledAt(ts, pos, b) && end == pos + BoolWidth(b) && end <= |ts|
    requires !Peek(ts, end).AWEAKOP? && !Peek(ts, end).ASTRONGOP?
    ensures ElemReads(ts, pos, b, end)
    decreases b, 2
  {
    match b
    case BooleanConstant(v) =>
      ConstantIsElement(ts, pos);
      assert IsTrueIgnoringCase("true") && !IsTrueIgnoringCase("false");
    case NotExpression(x) =>
      BElemReadsSpelling(ts, pos + 1, x, end);
      NotStep(ts, pos, pos + 1, x, end);
    case RelationExpression(rel) =>
      RelationReadsSpelling(ts, pos, rel, pos + Width(rel.left), end);
    case AndExpression(_, _) | OrExpression(_, _) =>
      CompoundReadsSpelling(ts, pos, b, end);
  }

  /** `bElem` reads a spelt relation that no arithmetic operator follows. */
  lemma RelationReadsSpelling(ts: seq<Token>, pos: nat, rel: Relation, op: nat, end: nat)
    requires BoolSpelledAt(ts, pos, RelationExpression(rel))
    requires op == pos + Width(rel.left) && end == op + 1 + Width(rel.right)
    requires !Peek(ts, end).AWEAKOP? && !Peek(ts, end).ASTRONGOP?
    ensures ElemReads(ts, pos, RelationExpression(rel), end)
  {
    RelationRead(ts, pos, rel, op, end);
    SpelledStart(ts, pos, rel.left);
    RelationFirst(ts, pos, RelationExpression(rel), end);
  }

  /** `aExprRelation` reads a spelt relation that no arithmetic operator follows. */
  lemma RelationRead(ts: seq<Token>, pos: nat, rel: Relation, op: nat, end: nat)
    requires BoolSpelledAt(ts, pos, RelationExpression(rel))
    requires op == pos + Width(rel.left) && end == op + 1 + Width(rel.right)
    requires !Peek(ts, end).AWEAKOP? && !Peek(ts, end).ASTRONGOP?
    ensures RelationReads(ts, pos, RelationExpression(rel), end)
  {
    RelationLeftOperand(ts, pos, rel, op);
    AExprReadsSpelled(ts, op + 1, rel.right, end);
    RelationFromReads(ts, pos, rel, op, end);
  }

  /** `aExprRelation` from its parts: an `aExpr`, the RELATION token that spells `rel`, another `aExpr`. */
  lemma RelationFromReads(ts: seq<Token>, pos: nat, rel: Relation, op: nat, end: nat)
    requires AExprReads(ts, pos, rel.left, op) && op < |ts| && ts[op] == Token(RelationText(rel), RELATION)
    requires AExprReads(ts, op + 1, rel.right, end)
    ensures RelationReads(ts, pos, RelationExpression(rel), end)
  {
    RelationTextNamesRelation(rel);
    RelationStep(ts, pos, ComparisonOf(RelationText(rel)).value, rel.left, op, op + 1, rel.right, end);
  }

  /** A spelt arithmetic expression starts with a number, a name or `(`. */
  lemma SpelledStart(ts: seq<Token>, pos: nat, e: AlgebraicExpression)
    requires SpelledAt(ts, pos, e)
    ensures pos < |ts| && (ts[pos].info == NUMBER || ts[pos].info == VARNAME || ts[pos].info == OPENINGBRACKET)
  {
  }

  /** On a number, a name or `(`, `bElem` reads what `aExprRelation` reads, when that succeeds. */
  lemma RelationFirst(ts: seq<Token>, pos: nat, b: BooleanExpression, end: nat)
    requires pos < |ts| && (ts[pos].info == NUMBER || ts[pos].info == VARNAME || ts[pos].info == OPENINGBRACKET)
    requires RelationReads(ts, pos, b, end)
    ensures ElemReads(ts, pos, b, end)
  {
    if ts[pos].info == OPENINGBRACKET {
      BracketIsResolved(ts, pos);
    } else {
      RelationIsElement(ts, pos);
    }
  }

  /** A spelt `and` or `or` node is read by `bElemBrackets`, after `aExprRelation` has failed on it. */
  lemma {:induction false} CompoundReadsSpelling(ts: seq<Token>, pos: nat, b: BooleanExpression, end: nat)
    requires (b.AndExpression? || b.OrExpression?) && BoolSpelledAt(ts, pos, b) && end == pos + BoolWidth(b)
    ensures ElemReads(ts, pos, b, end)
    decreases b, 1
  {
    var op := pos + 1 + BoolWidth(b.left);
    var close := op + 1 + BoolWidth(b.right);
    CompoundSpelled(ts, pos, b, op, close);
    CompoundInsideRead(ts, pos + 1, b, op, close);
    ArithmeticFailsOnBoolean(ts, pos, b);
    BracketsRead(ts, pos, b, close);
  }

  /** `bElem` on `(` bExpr `)`, where `aElem` fails: `bElemBrackets` reads it. */
  lemma BracketsRead(ts: seq<Token>, pos: nat, b: BooleanExpression, close: nat)
    requires pos < |ts| && ts[pos].info == OPENINGBRACKET && ArithmeticFails(ts, pos)
    requires BExprReads(ts, pos + 1, b, close) && close < |ts| && ts[close].info == CLOSINGBRACKET
    ensures ElemReads(ts, pos, b, close + 1)
  {
    BracketsStep(ts, pos, pos + 1, b, close);
    ElementFailurePropagates(ts, pos);
    BracketIsResolved(ts, pos);
  }

  /** Between the brackets of a spelt `and` or `or`: two elements and the connective, a whole `bExpr`. */
  lemma {:induction false} CompoundInsideRead(ts: seq<Token>, from: nat, b: BooleanExpression, op: nat, close: nat)
    requires (b.AndExpression? || b.OrExpression?) && op == from + BoolWidth(b.left) && close == op + 1 + BoolWidth(b.right)
    requires close < |ts| && BoolSpelledAt(ts, from, b.left) && ts[op] == Connective(b)
    requires BoolSpelledAt(ts, op + 1, b.right) && ts[close] == Close
    ensures BExprReads(ts, from, b, close)
    decreases b, 0
  {
    OperandRead(ts, from, b.left, op);
    OperandRead(ts, op + 1, b.right, close);
    ConnectiveBetween(ts, from, b, op, close);
  }

  /** An operand of a spelt `and` or `or`, read up to the connective or the `)`. */
  lemma {:induction false} OperandRead(ts: seq<Token>, at: nat, x: BooleanExpression, next: nat)
    requires BoolSpelledAt(ts, at, x) && next == at + BoolWidth(x) && next < |ts|
    requires ts[next].info == AND || ts[next].info == OR || ts[next].info == CLOSINGBRACKET
    ensures ElemReads(ts, at, x, next)
    decreases x, 3
  {
    assert SkipNewLines(ts, next) == next;
    BElemReadsSpelling(ts, at, x, next);
  }

  /** Two read operands around the connective of `b`, that a `)` follows, make `b` a whole `bExpr`. */
  lemma ConnectiveBetween(ts: seq<Token>, from: nat, b: BooleanExpression, op: nat, close: nat)
    requires (b.AndExpression? || b.OrExpression?) && ElemReads(ts, from, b.left, op)
    requires op < |ts| && ts[op] == Connective(b) && ElemReads(ts, op + 1, b.right, close)
    requires close < |ts| && ts[close].info == CLOSINGBRACKET
    ensures BExprReads(ts, from, b, close)
  {
    if b.AndExpression? {
      AndBetween(ts, from, b.left, op, b.right, close);
    } else {
      OrBetween(ts, from, b.left, op, b.right, close);
    }
  }

  /** `bTerm` reads `b` from `pos` and stops at `end`. */
  predicate TermReads(ts: seq<Token>, pos: nat, b: BooleanExpression, end: nat)
  {
    pos <= |ts| && BTerm(ts, pos) == Parsed(Ok(b), end)
  }

  /** Element `and` element, that a `)` follows, is a whole `bExpr`. */
  lemma AndBetween(ts: seq<Token>, from: nat, l: BooleanExpression, op: nat, r: BooleanExpression, close: nat)
    requires ElemReads(ts, from, l, op)
    requires op < |ts| && ts[op].info == AND && ElemReads(ts, op + 1, r, close)
    requires close < |ts| && ts[close].info == CLOSINGBRACKET
    ensures BExprReads(ts, from, AndExpression(l, r), close)
  {
    ElementIsTerm(ts, op + 1, r, close);
    AndFromReads(ts, from, l, op, r, close);
    TermIsExpr(ts, from, AndExpression(l, r), close);
  }

  /** Element `or` element, that a `)` follows, is a whole `bExpr`. */
  lemma OrBetween(ts: seq<Token>, from: nat, l: BooleanExpression, op: nat, r: BooleanExpression, close: nat)
    requires ElemReads(ts, from, l, op)
    requires op < |ts| && ts[op].info == OR && ElemReads(ts, op + 1, r, close)
    requires close < |ts| && ts[close].info == CLOSINGBRACKET
    ensures BExprReads(ts, from, OrExpression(l, r), close)
  {
    ElementIsTerm(ts, from, l, op);
    ElementIsTerm(ts, op + 1, r, close);
    TermIsExpr(ts, op + 1, r, close);
    OrFromReads(ts, from, l, op, r, close);
  }

  /** An element that a token other than `and` follows is a whole `bTerm`. */
  lemma ElementIsTerm(ts: seq<Token>, pos: nat, b: BooleanExpression, end: nat)
    requires ElemReads(ts, pos, b, end) && end < |ts| && ts[end].info != AND && ts[end].info != NEWLINE
    ensures TermReads(ts, pos, b, end)
  {
    Significant(ts, end);
    LoneElementIsBTerm(ts, pos);
  }

  /** A term that a token other than `or` follows is a whole `bExpr`. */
  lemma TermIsExpr(ts: seq<Token>, pos: nat, b: BooleanExpression, end: nat)
    requires TermReads(ts, pos, b, end) && end < |ts| && ts[end].info != OR && ts[end].info != NEWLINE
    ensures BExprReads(ts, pos, b, end)
  {
    Significant(ts, end);
    LoneTermIsBExpr(ts, pos);
  }

  /** `bTerm`: an element, `and`, a further term. */
  lemma AndFromReads(ts: seq<Token>, from: nat, l: BooleanExpression, op: nat, r: BooleanExpression, end: nat)
    requires ElemReads(ts, from, l, op) && op < |ts| && ts[op].info == AND && TermReads(ts, op + 1, r, end)
    ensures TermReads(ts, from, AndExpression(l, r), end)
  {
    AndStep(ts, from, l, op, op + 1, r, end);
  }

  /** `bExpr`: a term, `or`, a further `bExpr`. */
  lemma OrFromReads(ts: seq<Token>, from: nat, l: BooleanExpression, op: nat, r: BooleanExpression, end: nat)
    requires TermReads(ts, from, l, op) && op < |ts| && ts[op].info == OR && BExprReads(ts, op + 1, r, end)
    ensures BExprReads(ts, from, OrExpression(l, r), end)
  {
    OrStep(ts, from, l, op, op + 1, r, end);
  }

  /** A spelt boolean expression that no operator of any kind follows is a whole `bExpr`. */
  lemma BExprReadsSpelling(ts: seq<Token>, pos: nat, b: BooleanExpression, end: nat)
    requires BoolSpelledAt(ts, pos, b) && end == pos + BoolWidth(b) && end <= |ts|
    requires var next := Peek(ts, end); !next.AWEAKOP? && !next.ASTRONGOP? && !next.AND? && !next.OR?
    ensures BExprReads(ts, pos, b, end)
  {
    BElemReadsSpelling(ts, pos, b, end);
    LoneElementIsBExpr(ts, pos);
  }

  /* ---------- Reading statements ---------- */

  /** The kinds that can follow a statement in a spelling: `;`, the final NEWLINE, `else`, `fi`, `od`. */
  predicate ClosesStatement(k: TokenInfo)
  {
    k == SEMICOLON || ClosesSeries(k)
  }

  /** The kinds that can follow a series in a spelling. */
  predicate ClosesSeries(k: TokenInfo)
  {
    k == NEWLINE || k == ELSE || k == FI || k == OD
  }

  /** `stmt` reads `s` from `pos` and stops at `end`. */
  predicate StmtReads(ts: seq<Token>, pos: nat, s: Statement, end: nat)
  {
    pos <= |ts| && Stmt(ts, pos) == Parsed(Ok(s), end)
  }

  /** `condStmt` reads `s` from `pos` and stops at `end`. */
  predicate CondReads(ts: seq<Token>, pos: nat, s: Statement, end: nat)
  {
    pos <= |ts| && CondStmt(ts, pos) == Parsed(Ok(s), end)
  }

  /** `loopStmt` reads `s` from `pos` and stops at `end`. */
  predicate LoopReads(ts: seq<Token>, pos: nat, s: Statement, end: nat)
  {
    pos <= |ts| && LoopStmt(ts, pos) == Parsed(Ok(s), end)
  }

  /** `series` reads `ss` from `pos` and stops at `end`. */
  predicate SeriesReads(ts: seq<Token>, pos: nat, ss: seq<Statement>, end: nat)
  {
    pos <= |ts| && Series(ts, pos) == Parsed(Ok(ss), end)
  }

  /** The else part reads `e` from `pos` and stops at `end`. */
  predicate ElseReads(ts: seq<Token>, pos: nat, e: seq<Statement>, end: nat)
  {
    pos <= |ts| && ElsePart(ts, pos) == Parsed(Ok(e), end)
  }

  /** Every spelt statement is read back by `stmt`, when a closing token follows it. */
  lemma {:induction false} StmtReadsSpelling(ts: seq<Token>, pos: nat, s: Statement, end: nat)
    requires StmtSpelledAt(ts, pos, s) && end == pos + StmtWidth(s)
    requires ClosesStatement(Peek(ts, end))
    ensures StmtReads(ts, pos, s, end)
    decreases s, 2
  {
    match s
    case SkipStatement =>
      assert SkipNewLines(ts, pos) == pos;
    case AssignStatement(x, e) =>
      AExprReadsSpelled(ts, pos + 2, e, end);
      AssignStep(ts, pos, e, pos + 2, end);
    case ReadStatment(names) =>
      VarListReadsNameList(names, ts, pos + 1, end);
      InputStmtStep(ts, pos, names, end);
    case WriteStatement(names) =>
      VarListReadsNameList(names, ts, pos + 1, end);
      OutputStmtStep(ts, pos, names, end);
    case ConditionalStatement(c, t, e) =>
      CondReadsSpelling(ts, pos, s, end);
      IfStartsConditional(ts, pos);
    case LoopStatement(c, body) =>
      LoopReadsSpelling(ts, pos, s, end);
      WhileStartsLoop(ts, pos);
  }

  /** `assignStmt`: a name, `:=`, an arithmetic expression. */
  lemma AssignStep(ts: seq<Token>, pos: nat, e: AlgebraicExpression, exprAt: nat, end: nat)
    requires exprAt == pos + 2 && exprAt <= |ts| && ts[pos].info == VARNAME && ts[pos + 1].info == ASSIGNMENT
    requires AExprReads(ts, exprAt, e, end)
    ensures StmtReads(ts, pos, AssignStatement(ts[pos].value, e), end)
  {
    assert SkipNewLines(ts, pos) == pos && SkipNewLines(ts, pos + 1) == pos + 1;
  }

  /** `inputStmt`: `read` and a name list. */
  lemma InputStmtStep(ts: seq<Token>, pos: nat, names: seq<string>, end: nat)
    requires pos < |ts| && ts[pos].info == READ && VarListReads(ts, pos + 1, names, end)
    ensures StmtReads(ts, pos, ReadStatment(names), end)
  {
    assert SkipNewLines(ts, pos) == pos;
  }

  /** `outputStmt`: `write` and a name list. */
  lemma OutputStmtStep(ts: seq<Token>, pos: nat, names: seq<string>, end: nat)
    requires pos < |ts| && ts[pos].info == WRITE && VarListReads(ts, pos + 1, names, end)
    ensures StmtReads(ts, pos, WriteStatement(names), end)
  {
    assert SkipNewLines(ts, pos) == pos;
  }

  /** The tokens and parts of a spelt conditional. */
  lemma CondSpelled(ts: seq<Token>, pos: nat, s: Statement, thenAt: nat, elseAt: nat, fiAt: nat)
    requires s.ConditionalStatement? && StmtSpelledAt(ts, pos, s)
    requires thenAt == pos + 1 + BoolWidth(s.condition) && elseAt == thenAt + 1 + SeriesWidth(s.thenStmt)
    requires fiAt == elseAt + ElseWidth(s.elseStmt)
    ensures fiAt < |ts| && ts[pos].info == IF && BoolSpelledAt(ts, pos + 1, s.condition)
    ensures ts[thenAt].info == THEN && SeriesSpelledAt(ts, thenAt + 1, s.thenStmt)
    ensures ElseSpelledAt(ts, elseAt, s.elseStmt) && ts[fiAt].info == FI && fiAt + 1 == pos + StmtWidth(s)
  {
  }

  /** Every spelt conditional is read back by `condStmt`. */
  lemma {:induction false} CondReadsSpelling(ts: seq<Token>, pos: nat, s: Statement, end: nat)
    requires s.ConditionalStatement? && StmtSpelledAt(ts, pos, s) && end == pos + StmtWidth(s)
    ensures CondReads(ts, pos, s, end)
    decreases s, 1
  {
    var thenAt := pos + 1 + BoolWidth(s.condition);
    var elseAt := thenAt + 1 + SeriesWidth(s.thenStmt);
    var fiAt := elseAt + ElseWidth(s.elseStmt);
    CondSpelled(ts, pos, s, thenAt, elseAt, fiAt);
    CondPartsRead(ts, pos, s, thenAt, elseAt, fiAt);
  }

  /** A conditional read from its spelt parts. */
  lemma {:induction false} CondPartsRead(ts: seq<Token>, pos: nat, s: Statement, thenAt: nat, elseAt: nat, fiAt: nat)
    requires s.ConditionalStatement? && thenAt == pos + 1 + BoolWidth(s.condition)
    requires elseAt == thenAt + 1 + SeriesWidth(s.thenStmt) && fiAt == elseAt + ElseWidth(s.elseStmt)
    requires fiAt < |ts| && ts[pos].info == IF && BoolSpelledAt(ts, pos + 1, s.condition)
    requires ts[thenAt].info == THEN && SeriesSpelledAt(ts, thenAt + 1, s.thenStmt)
    requires ElseSpelledAt(ts, elseAt, s.elseStmt) && ts[fiAt].info == FI
    ensures CondReads(ts, pos, s, fiAt + 1)
    decreases s, 0
  {
    ConditionRead(ts, pos + 1, s.condition, thenAt);
    ElseReadsSpelling(ts, elseAt, s.elseStmt, fiAt);
    BranchRead(ts, thenAt + 1, s.thenStmt, elseAt);
    CondFromReads(ts, pos, s, thenAt, elseAt, fiAt);
  }

  /** `condStmt` from the parts it reads: `if`, a condition, `then`, a series, the else part, `fi`. */
  lemma CondFromReads(ts: seq<Token>, pos: nat, s: Statement, thenAt: nat, elseAt: nat, fiAt: nat)
    requires s.ConditionalStatement? && pos < |ts| && ts[pos].info == IF
    requires BExprReads(ts, pos + 1, s.condition, thenAt) && thenAt < |ts| && ts[thenAt].info == THEN
    requires SeriesReads(ts, thenAt + 1, s.thenStmt, elseAt) && ElseReads(ts, elseAt, s.elseStmt, fiAt)
    requires fiAt < |ts| && ts[fiAt].info == FI
    ensures CondReads(ts, pos, s, fiAt + 1)
  {
    CondStmtStep(ts, pos, pos + 1, s.condition, thenAt, thenAt + 1, s.thenStmt, elseAt, s.elseStmt, fiAt);
  }

  /** An empty else part is read as the empty list; a present one as its series. */
  lemma {:induction false} ElseReadsSpelling(ts: seq<Token>, pos: nat, e: seq<Statement>, end: nat)
    requires ElseSpelledAt(ts, pos, e) && end == pos + ElseWidth(e)
    requires end < |ts| && ts[end].info == FI
    ensures Peek(ts, pos) == (if e == [] then FI else ELSE)
    ensures ElseReads(ts, pos, e, end)
    decreases e, 4
  {
    if e == [] {
      assert SkipNewLines(ts, pos) == pos;
    } else {
      BranchRead(ts, pos + 1, e, end);
      ElseStep(ts, pos, e, end);
    }
  }

  /** `else` followed by a series. */
  lemma ElseStep(ts: seq<Token>, pos: nat, e: seq<Statement>, end: nat)
    requires pos < |ts| && ts[pos].info == ELSE && SeriesReads(ts, pos + 1, e, end)
    ensures Peek(ts, pos) == ELSE && ElseReads(ts, pos, e, end)
  {
    assert SkipNewLines(ts, pos) == pos;
  }

  /** The tokens and parts of a spelt loop. */
  lemma LoopSpelled(ts: seq<Token>, pos: nat, s: Statement, doAt: nat, odAt: nat)
    requires s.LoopStatement? && StmtSpelledAt(ts, pos, s)
    requires doAt == pos + 1 + BoolWidth(s.condition) && odAt == doAt + 1 + SeriesWidth(s.body)
    ensures odAt < |ts| && ts[pos].info == WHILE && BoolSpelledAt(ts, pos + 1, s.condition)
    ensures ts[doAt].info == DO && SeriesSpelledAt(ts, doAt + 1, s.body)
    ensures ts[odAt].info == OD && odAt + 1 == pos + StmtWidth(s)
  {
  }

  /** Every spelt loop is read back by `loopStmt`. */
  lemma {:induction false} LoopReadsSpelling(ts: seq<Token>, pos: nat, s: Statement, end: nat)
    requires s.LoopStatement? && StmtSpelledAt(ts, pos, s) && end == pos + StmtWidth(s)
    ensures LoopReads(ts, pos, s, end)
    decreases s, 1
  {
    var doAt := pos + 1 + BoolWidth(s.condition);
    var odAt := doAt + 1 + SeriesWidth(s.body);
    LoopSpelled(ts, pos, s, doAt, odAt);
    LoopPartsRead(ts, pos, s, doAt, odAt);
  }

  /** A loop read from its spelt parts. */
  lemma {:induction false} LoopPartsRead(ts: seq<Token>, pos: nat, s: Statement, doAt: nat, odAt: nat)
    requires s.LoopStatement? && doAt == pos + 1 + BoolWidth(s.condition) && odAt == doAt + 1 + SeriesWidth(s.body)
    requires odAt < |ts| && ts[pos].info == WHILE && BoolSpelledAt(ts, pos + 1, s.condition)
    requires ts[doAt].info == DO && SeriesSpelledAt(ts, doAt + 1, s.body) && ts[odAt].info == OD
    ensures LoopReads(ts, pos, s, odAt + 1)
    decreases s, 0
  {
    ConditionRead(ts, pos + 1, s.condition, doAt);
    BranchRead(ts, doAt + 1, s.body, odAt);
    LoopStmtStep(ts, pos, s, doAt, odAt);
  }

  /** The condition of a spelt conditional or loop, read up to `then` or `do`. */
  lemma ConditionRead(ts: seq<Token>, condAt: nat, c: BooleanExpression, next: nat)
    requires BoolSpelledAt(ts, condAt, c) && next == condAt + BoolWidth(c) && next < |ts|
    requires ts[next].info == THEN || ts[next].info == DO
    ensures BExprReads(ts, condAt, c, next)
  {
    assert SkipNewLines(ts, next) == next;
    BExprReadsSpelling(ts, condAt, c, next);
  }

  /** A spelt branch or loop body, read up to the `else`, `fi` or `od` after it. */
  lemma {:induction false} BranchRead(ts: seq<Token>, at: nat, ss: seq<Statement>, end: nat)
    requires SeriesSpelledAt(ts, at, ss) && end == at + SeriesWidth(ss) && end < |ts|
    requires ts[end].info == ELSE || ts[end].info == FI || ts[end].info == OD
    ensures SeriesReads(ts, at, ss, end)
    decreases ss, 3
  {
    assert SkipNewLines(ts, end) == end;
    SeriesReadsSpelling(ts, at, ss, end);
  }

  /** `loopStmt` from the parts it reads: `while`, a condition, `do`, a series, `od`. */
  lemma LoopStmtStep(ts: seq<Token>, pos: nat, s: Statement, doAt: nat, odAt: nat)
    requires s.LoopStatement? && pos < |ts| && ts[pos].info == WHILE
    requires BExprReads(ts, pos + 1, s.condition, doAt) && doAt < |ts| && ts[doAt].info == DO
    requires SeriesReads(ts, doAt + 1, s.body, odAt) && odAt < |ts| && ts[odAt].info == OD
    ensures LoopReads(ts, pos, s, odAt + 1)
  {
    assert Eat(ts, pos, WHILE, true) == Parsed(Ok(ts[pos]), pos + 1) by { assert SkipNewLines(ts, pos) == pos; }
    assert Eat(ts, doAt, DO, true) == Parsed(Ok(ts[doAt]), doAt + 1) by { assert SkipNewLines(ts, doAt) == doAt; }
    assert Eat(ts, odAt, OD, true) == Parsed(Ok(ts[odAt]), odAt + 1) by { assert SkipNewLines(ts, odAt) == odAt; }
  }

  /** On `while`, `stmt` is `loopStmt`. */
  lemma WhileStartsLoop(ts: seq<Token>, pos: nat)
    requires pos < |ts| && ts[pos].info == WHILE
    ensures Stmt(ts, pos) == LoopStmt(ts, pos)
  {
    assert SkipNewLines(ts, pos) == pos;
  }

  /** Every spelt series is read back by `series`, when a token that closes a series follows it. */
  lemma {:induction false} SeriesReadsSpelling(ts: seq<Token>, pos: nat, ss: seq<Statement>, end: nat)
    requires SeriesSpelledAt(ts, pos, ss) && end == pos + SeriesWidth(ss) && end <= |ts|
    requires ClosesSeries(Peek(ts, end))
    ensures SeriesReads(ts, pos, ss, end)
    decreases ss, 2
  {
    var mid := pos + StmtWidth(ss[0]);
    SeriesSpelled(ts, pos, ss, mid);
    SeriesPartsRead(ts, pos, ss, mid, end);
  }

  /** A series read from its spelt parts: a first statement, then the end or a `;` and the rest. */
  lemma {:induction false} SeriesPartsRead(ts: seq<Token>, pos: nat, ss: seq<Statement>, mid: nat, end: nat)
    requires |ss| > 0 && StmtSpelledAt(ts, pos, ss[0]) && mid == pos + StmtWidth(ss[0])
    requires end <= |ts| && ClosesSeries(Peek(ts, end))
    requires |ss| == 1 ==> mid == end
    requires |ss| > 1 ==> && mid < |ts| && ts[mid] == Token(";", SEMICOLON) && SeriesSpelledAt(ts, mid + 1, ss[1..])
                          && end == mid + 1 + SeriesWidth(ss[1..])
    ensures SeriesReads(ts, pos, ss, end)
    decreases ss, 1
  {
    if |ss| == 1 {
      LastStatementRead(ts, pos, ss, mid);
    } else {
      HeadStatementRead(ts, pos, ss[0], mid);
      SeriesReadsSpelling(ts, mid + 1, ss[1..], end);
      SeriesStep(ts, pos, ss, mid, end);
    }
  }

  /** A spelt statement that a `;` follows is read up to the `;`. */
  lemma {:induction false} HeadStatementRead(ts: seq<Token>, pos: nat, s: Statement, mid: nat)
    requires StmtSpelledAt(ts, pos, s) && mid == pos + StmtWidth(s) && mid < |ts| && ts[mid] == Token(";", SEMICOLON)
    ensures StmtReads(ts, pos, s, mid)
    decreases s, 3
  {
    Significant(ts, mid);
    StmtReadsSpelling(ts, pos, s, mid);
  }

  /** A series of one spelt statement, that a token closing a series follows. */
  lemma {:induction false} LastStatementRead(ts: seq<Token>, pos: nat, ss: seq<Statement>, end: nat)
    requires |ss| == 1 && StmtSpelledAt(ts, pos, ss[0]) && end == pos + StmtWidth(ss[0])
    requires end <= |ts| && ClosesSeries(Peek(ts, end))
    ensures SeriesReads(ts, pos, ss, end)
    decreases ss, 0
  {
    StmtReadsSpelling(ts, pos, ss[0], end);
    SeriesLast(ts, pos, ss, end);
  }

  /** The first statement of a spelt series, and the `;` and the rest after it. */
  lemma SeriesSpelled(ts: seq<Token>, pos: nat, ss: seq<Statement>, mid: nat)
    requires SeriesSpelledAt(ts, pos, ss) && mid == pos + StmtWidth(ss[0])
    ensures StmtSpelledAt(ts, pos, ss[0])
    ensures |ss| == 1 ==> SeriesWidth(ss) == StmtWidth(ss[0])
    ensures |ss| > 1 ==> && mid < |ts| && ts[mid] == Token(";", SEMICOLON) && SeriesSpelledAt(ts, mid + 1, ss[1..])
                         && SeriesWidth(ss) == StmtWidth(ss[0]) + 1 + SeriesWidth(ss[1..])
  {
  }

  /** `series` after a first statement that a `;` follows. */
  lemma SeriesStep(ts: seq<Token>, pos: nat, ss: seq<Statement>, mid: nat, end: nat)
    requires |ss| > 1 && StmtReads(ts, pos, ss[0], mid)
    requires mid < |ts| && ts[mid].info == SEMICOLON && SeriesReads(ts, mid + 1, ss[1..], end)
    ensures SeriesReads(ts, pos, ss, end)
  {
    assert SkipNewLines(ts, mid) == mid;
    assert [ss[0]] + ss[1..] == ss;
  }

  /** `series` after a last statement, one that no `;` follows. */
  lemma SeriesLast(ts: seq<Token>, pos: nat, ss: seq<Statement>, mid: nat)
    requires |ss| == 1 && StmtReads(ts, pos, ss[0], mid) && Peek(ts, mid) != SEMICOLON
    ensures SeriesReads(ts, pos, ss, mid)
  {
    assert [ss[0]] == ss;
  }

  /* ---------- Programs ---------- */

  /**
   * Round trip: `buildAst` reads the spelling of every well-formed program
   * back as that program and consumes every token.
   */
  lemma ParsesSpelling(p: Program)
    requires WellFormedSeries(p.statements)
    ensures BuildAst(Spelling(p)) == Parsed(Ok(p), |Spelling(p)|)
  {
    var ts := Spelling(p);
    var n := |SeriesSpelling(p.statements)|;
    assert Holds(ts, 0, ts);
    HoldsConcat(ts, 0, SeriesSpelling(p.statements), [NewLine], n);
    HoldsToken(ts, n, NewLine);
    SeriesSpellingIsSpelled(ts, 0, p.statements);
    assert SkipNewLines(ts, n + 1) == n + 1;
    assert SkipNewLines(ts, n) == n + 1;
    SeriesReadsSpelling(ts, 0, p.statements, n);
    NewLineIsNotASeparator(ts, p.statements, n);
  }
}
