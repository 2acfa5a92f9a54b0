# A verified model of a guarded-command interpreter

This project models the pipeline of a small interpreter for a guarded-command
language written in Kotlin. The language has `skip`, assignments, `read` and
`write` over name lists, `if … then … [else …] fi` and `while … do … od`.
Expressions are 64-bit integer arithmetic with `+ - * /`, relations, and
`and`, `or` and `not`. The pipeline has three phases:

- **Tokenizer** (`Lexer`, `LexerFacts`). An ordered table of anchored
  patterns is tried at the start of the remaining text. The first pattern
  that matches wins, not the longest. Its match is cut off, and it becomes a
  token unless it is whitespace. `Lexer.Matcher` and `Lexer.Tokenizer` are
  classes whose methods are proved equal to the specification functions
  `FirstMatch` and `Lex`.
- **Parser** (`Grammar`, `Parsing`, `GrammarFacts`). `Grammar` states every
  rule of the recursive-descent parser as a function. Each function threads
  the token cursor, and the cursor is reported even on failure.
  `Parsing.Parser` is the parser as a class. Its cursor is a field, and each
  method is proved to leave the cursor and the result exactly where the
  grammar function says. That includes the one bounded backtrack in
  `resolveBrackets`, which restores the cursor and catches only
  `ParseException`s. `ParserRoundTrip` spells every program as a token list
  and proves that `buildAst` reads that spelling back as the same program.
  Arithmetic is spelled fully bracketed, and so is every `and` and `or`.
  The round trip covers the trees the parser can build: every series holds
  a statement, and every `read` and `write` lists a name.
- **Evaluator** (`Semantics`, `Interpreter`, `SemanticsFacts`, `Scenarios`).
  `Semantics` gives the meaning of expressions and statements as functions
  over a configuration. The configuration holds the variables, the unread
  input lines, the values written and the boolean stack.
  `Interpreter.InterpretVisitor` is the tree-walking visitor with its two
  stacks. Each visit is proved against `Semantics`.

Other modules:

- `Longs` models Kotlin `Long` arithmetic: 64-bit wrap-around and division
  truncating toward zero. It also models `toLongOrNull`.
- `Texts` models Kotlin's `Char.isWhitespace` and `String.trim`.
- `Nodes` is the AST.
- `Results` holds the `Option`, `Result` and `Outcome` wrappers.

Where the language's usual description and the code differ, the model
follows the code:

- The relation "less than or equal" is spelled `=<`. The text `<=` lexes as
  two relations, `<` and `=`, and a relation does not parse.
- A NEWLINE is not a statement separator: only `;` separates statements.
  NEWLINEs are skipped when peeking, so a NEWLINE between two statements
  that has no `;` ends the series.
- The program must end with a NEWLINE token. After that, only NEWLINEs may
  follow.

## Model

Source paths are relative to the repository root.

| member | source | states |
|---|---|---|
| Lexer.StartsWith | src/main/kotlin/interpreter/Tokenizer.kt:14 | an anchored literal pattern matches exactly when the literal is a prefix of the text |
| Lexer.MatchLength | src/main/kotlin/interpreter/Tokenizer.kt:29-54 | a pattern of the table never matches more than the remaining text |
| Lexer.FirstMatchingPattern | src/main/kotlin/interpreter/Tokenizer.kt:17-20 | the index of the pattern the `forEach` stops at, never before its starting index and at most the table size; `FirstMatchingPatternIsEarliest` states that it is the earliest match |
| Lexer.FirstMatchingPatternIsEarliest | src/main/kotlin/interpreter/Tokenizer.kt:17-20 | the table scan stops at a pattern that matches, and every pattern before it fails to match |
| Lexer.FirstMatch | src/main/kotlin/interpreter/Tokenizer.kt:16-21 | a match is a non-empty prefix of the text |
| Lexer.Scan | src/main/kotlin/interpreter/Tokenizer.kt:59-72 | no contract of its own: the tokenizing loop with WHITESPACE matches kept, the reference that `ScanReassemblesInput`, `ScanConsumesEverything` and `LexIsScanWithoutWhitespace` relate `Lex` to |
| Lexer.Lex | src/main/kotlin/interpreter/Tokenizer.kt:59-72 | the token list holds no WHITESPACE token and no empty token |
| Lexer.LexStep | src/main/kotlin/interpreter/Tokenizer.kt:63-69 | one loop iteration cuts the first match off the text and appends it to the tokens unless it is whitespace |
| Lexer.Matcher.constructor | src/main/kotlin/interpreter/Tokenizer.kt:13 | a new matcher has an empty table |
| Lexer.Matcher.Add | src/main/kotlin/interpreter/Tokenizer.kt:14 | a pattern is appended at the end of the table |
| Lexer.Matcher.AddRange | src/main/kotlin/interpreter/Tokenizer.kt:15 | the patterns are appended in list order |
| Lexer.Matcher.MatchFirst | src/main/kotlin/interpreter/Tokenizer.kt:16-22 | the loop returns the first match of its table; no match is the failure |
| Lexer.Tokenizer.constructor | src/main/kotlin/interpreter/Tokenizer.kt:26-57 | the tokenizer's table is the pattern table in `init` order |
| Lexer.Tokenizer.Tokenize | src/main/kotlin/interpreter/Tokenizer.kt:59-72 | the loop's tokens, or its failure, are those of `Lex` on the whole text |
| LexerFacts.ScanReassemblesInput | src/main/kotlin/interpreter/Tokenizer.kt:63-69 | the matches of a successful scan, whitespace included, concatenate back to the input |
| LexerFacts.LexIsScanWithoutWhitespace | src/main/kotlin/interpreter/Tokenizer.kt:66-68 | tokenizing is scanning with the WHITESPACE matches dropped; failures are the same |
| LexerFacts.ScanConsumesEverything | src/main/kotlin/interpreter/Tokenizer.kt:21 | a successful scan consumes the whole input; a failure names a suffix of the input |
| LexerFacts.FirstMatchIsEarliestPattern | src/main/kotlin/interpreter/Tokenizer.kt:16-20 | `matchFirst` returns a token exactly when its kind is the earliest pattern that matches and its text is that match |
| LexerFacts.FirstMatchFailsOnlyWhenNoPatternMatches | src/main/kotlin/interpreter/Tokenizer.kt:16-21 | `matchFirst` fails exactly when no pattern of the table matches |
| LexerFacts.PatternPositionIsIndex | src/main/kotlin/interpreter/Tokenizer.kt:27-55 | each kind's position is its index in the `init` table |
| LexerFacts.PositionIsTableIndex | src/main/kotlin/interpreter/Tokenizer.kt:27-55 | every kind except HELPTOKEN has a pattern in the table |
| LexerFacts.MatchNeedsStartingCharacter | src/main/kotlin/interpreter/Tokenizer.kt:29-54 | a pattern matches only text that starts with one of its possible first characters |
| LexerFacts.FirstMatchAt | src/main/kotlin/interpreter/Tokenizer.kt:17-19 | the first pattern that matches decides the token |
| LexerFacts.NoFirstMatch | src/main/kotlin/interpreter/Tokenizer.kt:21 | text that no pattern matches gets no token |
| LexerFacts.FirstMatchIsNotLongestMatch | src/main/kotlin/interpreter/Tokenizer.kt:40 | on `door`, VARNAME would match four characters, yet `do` wins because it comes first |
| LexerFacts.KeywordsSplitNames | src/main/kotlin/interpreter/Tokenizer.kt:40-42 | `door` lexes as DO then OR |
| LexerFacts.KeywordPrefixSplitsName | src/main/kotlin/interpreter/Tokenizer.kt:35 | `iffy` lexes as IF then the name `fy` |
| LexerFacts.LessOrEqualIsSpelledEqualsLess | src/main/kotlin/interpreter/Tokenizer.kt:50 | `=<` is one RELATION token |
| LexerFacts.LessEqualsIsTwoRelations | src/main/kotlin/interpreter/Tokenizer.kt:50 | `<=` lexes as the two relations `<` and `=` |
| LexerFacts.ZeroIsAWholeNumber | src/main/kotlin/interpreter/Tokenizer.kt:52 | text that starts with `0` gets the one-character number `0` |
| LexerFacts.ZeroSevenIsTwoNumbers | src/main/kotlin/interpreter/Tokenizer.kt:52 | `07` lexes as the numbers `0` and `7` |
| LexerFacts.NumbersHaveNoLeadingZero | src/main/kotlin/interpreter/Tokenizer.kt:52 | `007` lexes as three numbers |
| LexerFacts.LineBreaksAreNewLineTokens | src/main/kotlin/interpreter/Tokenizer.kt:47 | CR LF and LF are NEWLINE tokens, and a lone CR is dropped as whitespace |
| LexerFacts.ColonAloneMatchesNothing | src/main/kotlin/interpreter/Tokenizer.kt:34 | every text that starts with a `:` not followed by `=` matches no pattern |
| LexerFacts.UnknownCharactersFail | src/main/kotlin/interpreter/Tokenizer.kt:21 | `:` fails at the `:`, and `x !` fails at the `!` once the name and the space are consumed |
| Longs.Wrap | src/main/kotlin/interpreter/visitors/InterpretVisitor.kt:12-15 | results are congruent to the exact value modulo 2^64 and unchanged when in the Long range |
| Longs.Plus | src/main/kotlin/interpreter/visitors/InterpretVisitor.kt:12 | the sum is congruent to the exact sum modulo 2^64 and equal to it when that is in the Long range |
| Longs.Minus | src/main/kotlin/interpreter/visitors/InterpretVisitor.kt:13 | the difference is congruent to the exact difference modulo 2^64 and equal to it when that is in the Long range |
| Longs.Times | src/main/kotlin/interpreter/visitors/InterpretVisitor.kt:15 | the product is congruent to the exact product modulo 2^64 and equal to it when that is in the Long range |
| Longs.TruncatedQuotient | src/main/kotlin/interpreter/visitors/InterpretVisitor.kt:14 | no contract of its own: the JVM quotient before wrap-around; `TruncatedQuotientRoundsTowardZero` states how it rounds and `Divide` uses it |
| Longs.Divide | src/main/kotlin/interpreter/visitors/InterpretVisitor.kt:14 | division fails exactly when the divisor is zero |
| Longs.TruncatedQuotientRoundsTowardZero | src/main/kotlin/interpreter/visitors/InterpretVisitor.kt:14 | the quotient rounds toward zero: the remainder is smaller than the divisor, has the dividend's sign, and the product never exceeds the dividend in size |
| Longs.ToLongOrNull | src/main/kotlin/interpreter/visitors/InterpretVisitor.kt:66 | the empty text is never a number |
| Longs.TwentyDigitsAreOutOfRange | src/main/kotlin/interpreter/visitors/InterpretVisitor.kt:66 | twenty or more digits with no leading zero are out of range |
| Longs.DecimalText | src/main/kotlin/interpreter/visitors/InterpretVisitor.kt:70 | no contract of its own: the decimal text `println` writes for a Long; `ToLongOrNullReadsDecimalText` shows `toLongOrNull` reads it back |
| Longs.ToLongOrNullReadsDecimalText | src/main/kotlin/interpreter/visitors/InterpretVisitor.kt:66 | every Long's decimal text parses back to that Long |
| Texts.IsWhitespace | src/main/kotlin/interpreter/visitors/InterpretVisitor.kt:65 | no contract of its own: the characters Kotlin's `Char.isWhitespace` accepts, which `trim` removes |
| Texts.TrimStart | src/main/kotlin/interpreter/visitors/InterpretVisitor.kt:65 | no contract of its own: `trim`'s removal of leading whitespace; `TrimStartDropsLeadingWhitespace` states what it keeps |
| Texts.TrimEnd | src/main/kotlin/interpreter/visitors/InterpretVisitor.kt:65 | no contract of its own: `trim`'s removal of trailing whitespace; `TrimEndDropsTrailingWhitespace` states what it keeps |
| Texts.Trim | src/main/kotlin/interpreter/visitors/InterpretVisitor.kt:65 | no contract of its own: `trim`, which `read` applies to each line; `TrimKeepsTheInnerText` and `TrimKeepsUnpaddedText` state what it returns |
| Texts.TrimStartDropsLeadingWhitespace | src/main/kotlin/interpreter/visitors/InterpretVisitor.kt:65 | only leading whitespace is removed, and the rest starts with a non-whitespace character |
| Texts.TrimEndDropsTrailingWhitespace | src/main/kotlin/interpreter/visitors/InterpretVisitor.kt:65 | only trailing whitespace is removed, and the rest ends with a non-whitespace character |
| Texts.TrimKeepsTheInnerText | src/main/kotlin/interpreter/visitors/InterpretVisitor.kt:65 | `trim` returns a slice of the line with only whitespace outside it, not starting or ending in whitespace |
| Texts.TrimKeepsUnpaddedText | src/main/kotlin/interpreter/visitors/InterpretVisitor.kt:65 | `trim` leaves text that does not start or end in whitespace unchanged |
| Grammar.SkipNewLines | src/main/kotlin/interpreter/Parser.kt:30 | skipping stops at the end or at a token that is not a NEWLINE |
| Grammar.SkippedAreNewLines | src/main/kotlin/interpreter/Parser.kt:17-21 | every skipped token is a NEWLINE |
| Grammar.Eat | src/main/kotlin/interpreter/Parser.kt:27-38 | on success the token just consumed is returned and has the expected kind |
| Grammar.PeekThenEat | src/main/kotlin/interpreter/Parser.kt:15-38 | after a peek of kind k, eating k consumes the first token that is not a NEWLINE |
| Grammar.Peek | src/main/kotlin/interpreter/Parser.kt:15-23 | no contract of its own: the kind of the first token that is not a NEWLINE, or NEWLINE at the end; `Parsing.Parser.PeekTokenIgnoreNewLines` is proved equal to it |
| Grammar.Next | src/main/kotlin/interpreter/Parser.kt:15-23 | the index of the token the peek sees: at or after the cursor, inside the list, and of the peeked kind |
| Grammar.IsTrueIgnoringCase | src/main/kotlin/interpreter/Parser.kt:172 | no contract of its own: Kotlin's `toBoolean`, true exactly for `true` in any letter case; `ConstantsIgnoreCase` shows it on `TRUE` and `false` |
| Grammar.ComparisonOf | src/main/kotlin/interpreter/Parser.kt:186-193 | no contract of its own: the comparison each of the six relation texts selects, none for any other text; `ComparisonTextIsUnique` shows no two texts share one |
| Grammar.MakeRelation | src/main/kotlin/interpreter/Parser.kt:187-192 | no contract of its own: the relation node each comparison builds from the two operands |
| Grammar.Progr | src/main/kotlin/interpreter/Parser.kt:40-46 | the cursor stays inside the tokens, and a success consumes tokens |
| Grammar.Series | src/main/kotlin/interpreter/Parser.kt:48-55 | the cursor stays inside the tokens, and a success consumes tokens |
| Grammar.Stmt | src/main/kotlin/interpreter/Parser.kt:57-70 | the cursor stays inside the tokens, and a success consumes tokens |
| Grammar.LoopStmt | src/main/kotlin/interpreter/Parser.kt:72-79 | the cursor stays inside the tokens, and a success consumes tokens |
| Grammar.CondStmt | src/main/kotlin/interpreter/Parser.kt:81-96 | the cursor stays inside the tokens, and a success consumes tokens |
| Grammar.ElsePart | src/main/kotlin/interpreter/Parser.kt:87-92 | the cursor stays inside the tokens and never moves back on success |
| Grammar.AssignStmt | src/main/kotlin/interpreter/Parser.kt:98-103 | the cursor stays inside the tokens, and a success consumes tokens |
| Grammar.OutputStmt | src/main/kotlin/interpreter/Parser.kt:204-207 | the cursor stays inside the tokens, and a success consumes tokens |
| Grammar.InputStmt | src/main/kotlin/interpreter/Parser.kt:209-212 | the cursor stays inside the tokens, and a success consumes tokens |
| Grammar.VarList | src/main/kotlin/interpreter/Parser.kt:214-223 | the cursor stays inside the tokens, and a success consumes tokens |
| Grammar.AExpr | src/main/kotlin/interpreter/Parser.kt:106-118 | the cursor stays inside the tokens, and a success consumes tokens |
| Grammar.ATerm | src/main/kotlin/interpreter/Parser.kt:120-132 | the cursor stays inside the tokens, and a success consumes tokens |
| Grammar.AElem | src/main/kotlin/interpreter/Parser.kt:134-146 | the cursor stays inside the tokens, and a success consumes tokens |
| Grammar.BExpr | src/main/kotlin/interpreter/Parser.kt:148-157 | the cursor stays inside the tokens, and a success consumes tokens |
| Grammar.BTerm | src/main/kotlin/interpreter/Parser.kt:159-168 | the cursor stays inside the tokens, and a success consumes tokens |
| Grammar.BElem | src/main/kotlin/interpreter/Parser.kt:170-182 | the cursor stays inside the tokens, and a success consumes tokens |
| Grammar.AExprRelation | src/main/kotlin/interpreter/Parser.kt:184-195 | the cursor stays inside the tokens, and a success consumes tokens |
| Grammar.BElemBrackets | src/main/kotlin/interpreter/Parser.kt:197-202 | the cursor stays inside the tokens, and a success consumes tokens |
| Grammar.ResolveBrackets | src/main/kotlin/interpreter/Parser.kt:225-233 | the cursor stays inside the tokens, and a success consumes tokens |
| Parsing.Parser.constructor | src/main/kotlin/interpreter/Parser.kt:7-9 | a new parser holds the tokens with its cursor at index 0 |
| Parsing.Parser.BuildAst | src/main/kotlin/interpreter/Parser.kt:11 | the result and the final cursor are those of the grammar's `buildAst` |
| Parsing.Parser.PeekTokenIgnoreNewLines | src/main/kotlin/interpreter/Parser.kt:15-23 | the loop over a snapshot returns the first kind that is not NEWLINE, or NEWLINE at the end, and leaves the cursor alone |
| Parsing.Parser.SkipNewLinesInPlace | src/main/kotlin/interpreter/Parser.kt:30 | the loop moves the cursor past the NEWLINEs |
| Parsing.Parser.EatToken | src/main/kotlin/interpreter/Parser.kt:27-38 | the result and the cursor, including the step back taken on failure, are those of `Eat` |
| Parsing.Parser.TakePeeked | src/main/kotlin/interpreter/Parser.kt:27-35 | eating a kind just peeked returns that token and moves the cursor past it |
| Parsing.Parser.Progr | src/main/kotlin/interpreter/Parser.kt:40-46 | the result and the cursor are those of the `progr` rule |
| Parsing.Parser.Series | src/main/kotlin/interpreter/Parser.kt:48-55 | the result and the cursor are those of the `series` rule |
| Parsing.Parser.Stmt | src/main/kotlin/interpreter/Parser.kt:57-70 | the result and the cursor are those of the `stmt` rule |
| Parsing.Parser.LoopStmt | src/main/kotlin/interpreter/Parser.kt:72-79 | the result and the cursor are those of the `loopStmt` rule |
| Parsing.Parser.CondStmt | src/main/kotlin/interpreter/Parser.kt:81-96 | the result and the cursor are those of the `condStmt` rule |
| Parsing.Parser.ElsePart | src/main/kotlin/interpreter/Parser.kt:87-92 | the result and the cursor are those of the optional else part |
| Parsing.Parser.AssignStmt | src/main/kotlin/interpreter/Parser.kt:98-103 | the result and the cursor are those of the `assignStmt` rule |
| Parsing.Parser.OutputStmt | src/main/kotlin/interpreter/Parser.kt:204-207 | the result and the cursor are those of the `outputStmt` rule |
| Parsing.Parser.InputStmt | src/main/kotlin/interpreter/Parser.kt:209-212 | the result and the cursor are those of the `inputStmt` rule |
| Parsing.Parser.VarList | src/main/kotlin/interpreter/Parser.kt:214-223 | the result and the cursor are those of the `varList` rule |
| Parsing.Parser.AExpr | src/main/kotlin/interpreter/Parser.kt:106-118 | the result and the cursor are those of the `aExpr` rule |
| Parsing.Parser.ATerm | src/main/kotlin/interpreter/Parser.kt:120-132 | the result and the cursor are those of the `aTerm` rule |
| Parsing.Parser.AElem | src/main/kotlin/interpreter/Parser.kt:134-146 | the result and the cursor are those of the `aElem` rule, including the `toLong` failure |
| Parsing.Parser.BExpr | src/main/kotlin/interpreter/Parser.kt:148-157 | the result and the cursor are those of the `bExpr` rule |
| Parsing.Parser.BTerm | src/main/kotlin/interpreter/Parser.kt:159-168 | the result and the cursor are those of the `bTerm` rule |
| Parsing.Parser.BElem | src/main/kotlin/interpreter/Parser.kt:170-182 | the result and the cursor are those of the `bElem` rule |
| Parsing.Parser.AExprRelation | src/main/kotlin/interpreter/Parser.kt:184-195 | the result and the cursor are those of the `aExprRelation` rule |
| Parsing.Parser.BElemBrackets | src/main/kotlin/interpreter/Parser.kt:197-202 | the result and the cursor are those of the `bElemBrackets` rule |
| Parsing.Parser.ResolveBrackets | src/main/kotlin/interpreter/Parser.kt:225-233 | the relation is tried first; on a `ParseException` the cursor is restored and the bracketed boolean is tried, as in the rule |
| GrammarFacts.EatSucceedsExactlyWhenPeekAgrees | src/main/kotlin/interpreter/Parser.kt:27-35 | `eatToken` succeeds exactly when the peeked kind is the expected one |
| GrammarFacts.EatFailureReportsTokenAtCursor | src/main/kotlin/interpreter/Parser.kt:37 | a failed `eatToken` reports the token just before the new cursor; `previous()` has nothing to step back to exactly when there are no tokens |
| GrammarFacts.EatAtEndReportsLastToken | src/main/kotlin/interpreter/Parser.kt:32-37 | eating at the end of the tokens reports the last token |
| GrammarFacts.ProgramIsFollowedOnlyByNewLines | src/main/kotlin/interpreter/Parser.kt:40-46 | an accepted program ends with a NEWLINE, and only NEWLINEs follow it |
| GrammarFacts.TerminatingNewLineIsRequired | src/main/kotlin/interpreter/Parser.kt:42 | a series that uses up every token is rejected for want of the final NEWLINE |
| GrammarFacts.SeriesIsNonEmpty | src/main/kotlin/interpreter/Parser.kt:48-55 | a parsed series holds at least one statement |
| GrammarFacts.NewLineIsNotASeparator | src/main/kotlin/interpreter/Parser.kt:40-46 | when a series stops at a NEWLINE, that NEWLINE ends the program: it is accepted exactly when only NEWLINEs follow, and a further token is rejected with EndOfProgramExpected |
| GrammarFacts.NewLineBetweenSkipsIsRejected | src/main/kotlin/interpreter/Parser.kt:40-55 | `skip` NEWLINE `skip` NEWLINE is rejected at the second `skip` |
| GrammarFacts.SemicolonSeparates | src/main/kotlin/interpreter/Parser.kt:48-55 | `skip;` NEWLINE `skip` NEWLINE is a program of two statements |
| GrammarFacts.ElseIsOptional | src/main/kotlin/interpreter/Parser.kt:81-96 | a conditional whose then-series no `else` follows gets the empty else list and ends at the next `fi`; anything other than `fi` there is rejected |
| GrammarFacts.IfTrueSkipHasEmptyElse | src/main/kotlin/interpreter/Parser.kt:81-96 | `if true then skip fi` has an empty else list |
| GrammarFacts.IfStartsConditional | src/main/kotlin/interpreter/Parser.kt:66 | a statement that starts with `if` is a conditional |
| GrammarFacts.CondStmtStep | src/main/kotlin/interpreter/Parser.kt:81-96 | `condStmt` builds its node from the condition, the then series and the else part, and consumes `fi` |
| GrammarFacts.VarListReadsNameList | src/main/kotlin/interpreter/Parser.kt:214-223 | a comma-separated name list is read back as exactly its names, in order |
| GrammarFacts.LastNameEndsVarList | src/main/kotlin/interpreter/Parser.kt:215-222 | a name with no COMMA after it ends the list |
| GrammarFacts.CommaContinuesVarList | src/main/kotlin/interpreter/Parser.kt:217-219 | a name followed by a COMMA is prepended to the rest of the list |
| GrammarFacts.NameIsElement | src/main/kotlin/interpreter/Parser.kt:137 | a name is a variable element |
| GrammarFacts.LoneElementIsAExpr | src/main/kotlin/interpreter/Parser.kt:106-132 | an element with no operator after it is a whole term and a whole expression |
| GrammarFacts.MinusIsRightAssociative | src/main/kotlin/interpreter/Parser.kt:106-118 | `a - b - c` parses as `a - (b - c)` |
| GrammarFacts.TimesBindsTighterOnTheRight | src/main/kotlin/interpreter/Parser.kt:106-132 | `a + b * c` parses as `a + (b * c)` |
| GrammarFacts.TimesBindsTighterOnTheLeft | src/main/kotlin/interpreter/Parser.kt:106-132 | `a * b + c` parses as `(a * b) + c` |
| GrammarFacts.HoldsOperandSpellings | src/main/kotlin/interpreter/Parser.kt:138-143 | the spelling of a node is `(`, the left spelling, the operator, the right spelling and `)` |
| GrammarFacts.SpellingIsSpelledAt | src/main/kotlin/interpreter/Parser.kt:134-146 | a spelling laid down in the tokens is found where the parser looks for it |
| GrammarFacts.AExprReadsAdditive | src/main/kotlin/interpreter/Parser.kt:106-118 | element `+` or `-` element `)` is read as that sum or difference, up to the `)` |
| GrammarFacts.LoneElementIsATerm | src/main/kotlin/interpreter/Parser.kt:120-132 | an element with no `*` or `/` after it is a whole term |
| GrammarFacts.WeakOperatorStep | src/main/kotlin/interpreter/Parser.kt:106-114 | a term, `+` or `-`, then an expression, is read as that sum or difference |
| GrammarFacts.AExprReadsMultiplicative | src/main/kotlin/interpreter/Parser.kt:120-132 | element `*` or `/` element `)` is read as that product or quotient |
| GrammarFacts.AElemReadsParenthesized | src/main/kotlin/interpreter/Parser.kt:138-143 | a bracketed binary node is read as that node |
| GrammarFacts.AElemReadsBrackets | src/main/kotlin/interpreter/Parser.kt:138-143 | `(` expression `)` is an element whose value is the inner expression |
| GrammarFacts.AElemReadsLeaf | src/main/kotlin/interpreter/Parser.kt:136-137 | a number or a name is read as that literal or variable |
| GrammarFacts.AElemReadsSpelling | src/main/kotlin/interpreter/Parser.kt:134-146 | every fully bracketed spelling is read back as the expression it spells |
| GrammarFacts.SpelledNode | src/main/kotlin/interpreter/Parser.kt:138-143 | a spelled node has `(`, its operator and `)` at the computed positions |
| GrammarFacts.LeftOperandRead | src/main/kotlin/interpreter/Parser.kt:138-143 | the left operand's spelling is read back as the left operand |
| GrammarFacts.RightOperandRead | src/main/kotlin/interpreter/Parser.kt:138-143 | the right operand's spelling is read back as the right operand |
| GrammarFacts.SpelledOperands | src/main/kotlin/interpreter/Parser.kt:138-143 | both operands of a spelled node are spelled in place |
| GrammarFacts.ParsesBracketedSpelling | src/main/kotlin/interpreter/Parser.kt:106-146 | round trip: `aExpr` reads the fully bracketed spelling of any expression back as that expression and consumes all of it |
| GrammarFacts.ConstantIsElement | src/main/kotlin/interpreter/Parser.kt:172 | a boolean constant is read with `toBoolean` |
| GrammarFacts.RelationStep | src/main/kotlin/interpreter/Parser.kt:184-195 | expression, relation, expression is read as the relation its text names |
| GrammarFacts.LoneElementIsBExpr | src/main/kotlin/interpreter/Parser.kt:148-168 | a boolean element with no `and` or `or` after it is a whole expression |
| GrammarFacts.LoneElementIsBTerm | src/main/kotlin/interpreter/Parser.kt:159-168 | a boolean element with no `and` after it is a whole term |
| GrammarFacts.LoneTermIsBExpr | src/main/kotlin/interpreter/Parser.kt:148-157 | a term with no `or` after it is a whole expression |
| GrammarFacts.AndStep | src/main/kotlin/interpreter/Parser.kt:159-168 | element `and` term is read as a conjunction |
| GrammarFacts.OrStep | src/main/kotlin/interpreter/Parser.kt:148-157 | term `or` expression is read as a disjunction |
| GrammarFacts.NotStep | src/main/kotlin/interpreter/Parser.kt:173-176 | `not` takes a single element |
| GrammarFacts.RelationIsElement | src/main/kotlin/interpreter/Parser.kt:177-178 | an element that starts with a number or a name is a relation |
| GrammarFacts.BracketIsResolved | src/main/kotlin/interpreter/Parser.kt:179 | an element that starts with `(` goes to the bracket resolution |
| GrammarFacts.BracketsStep | src/main/kotlin/interpreter/Parser.kt:197-202 | `(` boolean expression `)` is read as the inner expression |
| GrammarFacts.AndBindsTighterThanOr | src/main/kotlin/interpreter/Parser.kt:148-168 | `true or false and true` parses as `true or (false and true)` |
| GrammarFacts.ConjunctionAfterOr | src/main/kotlin/interpreter/Parser.kt:148-168 | the right side of `or` is `false and true` |
| GrammarFacts.NotTakesOneElement | src/main/kotlin/interpreter/Parser.kt:173-176 | `not true and false` parses as `(not true) and false` |
| GrammarFacts.NotReadsOneElement | src/main/kotlin/interpreter/Parser.kt:173-176 | `not` stops after one element |
| GrammarFacts.ConstantsIgnoreCase | src/main/kotlin/interpreter/Parser.kt:172 | `TRUE` reads as true, and `false` as false |
| GrammarFacts.EqualsLessIsSmallerThanOrEqual | src/main/kotlin/interpreter/Parser.kt:189 | `a =< b` is a smaller-or-equal relation |
| GrammarFacts.LessEqualsIsRejected | src/main/kotlin/interpreter/Parser.kt:184-195 | `a < = b` is rejected, because `=` cannot start an element |
| GrammarFacts.ComparisonTextIsUnique | src/main/kotlin/interpreter/Parser.kt:186-193 | no two relation texts give the same relation |
| GrammarFacts.BracketedOperandOfRelation | src/main/kotlin/interpreter/Parser.kt:179-195 | `(a + b) < c` is read as a relation on the first try |
| GrammarFacts.BracketedSumIsOperand | src/main/kotlin/interpreter/Parser.kt:138-143 | `(a + b)` before `<` is the left operand |
| GrammarFacts.RelationAlternativeFailsOnBracketedRelation | src/main/kotlin/interpreter/Parser.kt:141 | on `(a < b) and true`, the relation attempt fails at the `<` with a `ParseException` |
| GrammarFacts.BracketedBooleanHoldsRelation | src/main/kotlin/interpreter/Parser.kt:197-202 | the bracketed-boolean alternative reads `(a < b)` |
| GrammarFacts.RelationAloneInBrackets | src/main/kotlin/interpreter/Parser.kt:148-168 | inside the brackets, `a < b` is the whole boolean expression |
| GrammarFacts.RelationInsideBrackets | src/main/kotlin/interpreter/Parser.kt:184-195 | inside the brackets, `a < b` is a relation that ends at `)` |
| GrammarFacts.BracketedRelationIsRetriedAsBoolean | src/main/kotlin/interpreter/Parser.kt:225-233 | `(a < b) and true` parses after the backtrack, as `(a < b) and true` |
| GrammarFacts.BareVariableIsNotABoolean | src/main/kotlin/interpreter/Parser.kt:177-193 | a name that no arithmetic operator or relation follows is not a boolean element: a `ParseException` for the missing RELATION is raised |
| GrammarFacts.LoneNameIsNotABoolean | src/main/kotlin/interpreter/Parser.kt:177-193 | `c` alone is not a boolean |
| GrammarFacts.BacktrackCatchesOnlyParseExceptions | src/main/kotlin/interpreter/Parser.kt:229 | an error of the first alternative that is not a `ParseException` is not caught |
| GrammarFacts.OutOfRangeLiteralEscapesBacktrack | src/main/kotlin/interpreter/Parser.kt:136 | an out-of-range number literal inside brackets raises `NumberFormatException` past the backtrack |
| ParserRoundTrip.ParsesSpelling | src/main/kotlin/interpreter/Parser.kt:11-55 | round trip: `buildAst` reads the spelling of every well-formed program back as that program and consumes every token |
| ParserRoundTrip.SeriesReadsSpelling | src/main/kotlin/interpreter/Parser.kt:48-55 | the spelling of any non-empty statement list is read back by `series` as that list, up to the NEWLINE, `else`, `fi` or `od` after it |
| ParserRoundTrip.SeriesPartsRead | src/main/kotlin/interpreter/Parser.kt:48-55 | a first statement followed by the end of the series, or by `;` and the rest, is read as that list |
| ParserRoundTrip.HeadStatementRead | src/main/kotlin/interpreter/Parser.kt:49-50 | a spelt statement that a `;` follows is read up to the `;` |
| ParserRoundTrip.LastStatementRead | src/main/kotlin/interpreter/Parser.kt:49-54 | one spelt statement that a token closing a series follows is a series of one |
| ParserRoundTrip.SeriesStep | src/main/kotlin/interpreter/Parser.kt:49-53 | after a first statement and `;`, `series` puts that statement before the rest |
| ParserRoundTrip.SeriesLast | src/main/kotlin/interpreter/Parser.kt:49-54 | a statement that no `;` follows ends the series |
| ParserRoundTrip.StmtReadsSpelling | src/main/kotlin/interpreter/Parser.kt:57-70 | every spelt statement of any kind is read back by `stmt` as that statement, up to the token that closes it |
| ParserRoundTrip.AssignStep | src/main/kotlin/interpreter/Parser.kt:98-103 | a name, `:=` and an arithmetic expression are read as that assignment |
| ParserRoundTrip.InputStmtStep | src/main/kotlin/interpreter/Parser.kt:209-212 | `read` and a name list are read as a read statement of those names |
| ParserRoundTrip.OutputStmtStep | src/main/kotlin/interpreter/Parser.kt:204-207 | `write` and a name list are read as a write statement of those names |
| ParserRoundTrip.CondReadsSpelling | src/main/kotlin/interpreter/Parser.kt:81-96 | every spelt conditional, with or without `else`, is read back by `condStmt` up to and including `fi` |
| ParserRoundTrip.CondPartsRead | src/main/kotlin/interpreter/Parser.kt:81-96 | a conditional whose condition, branches and keywords are spelt in place is read as that conditional |
| ParserRoundTrip.CondFromReads | src/main/kotlin/interpreter/Parser.kt:81-96 | `if`, a read condition, `then`, a read series, a read else part and `fi` form that conditional |
| ParserRoundTrip.ElseReadsSpelling | src/main/kotlin/interpreter/Parser.kt:87-92 | an absent else part is read as the empty list with `fi` next; a present one is read as its series |
| ParserRoundTrip.ElseStep | src/main/kotlin/interpreter/Parser.kt:87-89 | `else` and a read series are read as that else part |
| ParserRoundTrip.LoopReadsSpelling | src/main/kotlin/interpreter/Parser.kt:72-79 | every spelt loop is read back by `loopStmt` up to and including `od` |
| ParserRoundTrip.LoopPartsRead | src/main/kotlin/interpreter/Parser.kt:72-79 | a loop whose condition, body and keywords are spelt in place is read as that loop |
| ParserRoundTrip.LoopStmtStep | src/main/kotlin/interpreter/Parser.kt:72-79 | `while`, a read condition, `do`, a read series and `od` form that loop |
| ParserRoundTrip.WhileStartsLoop | src/main/kotlin/interpreter/Parser.kt:67 | a statement that starts with `while` is a loop |
| ParserRoundTrip.ConditionRead | src/main/kotlin/interpreter/Parser.kt:83-84 | the condition of a spelt conditional or loop is read as a whole `bExpr`, up to `then` or `do` |
| ParserRoundTrip.BranchRead | src/main/kotlin/interpreter/Parser.kt:85 | a spelt branch or loop body is read as its series, up to `else`, `fi` or `od` |
| ParserRoundTrip.BExprReadsSpelling | src/main/kotlin/interpreter/Parser.kt:148-168 | every spelt boolean expression that no operator follows is read back as a whole `bExpr` |
| ParserRoundTrip.BElemReadsSpelling | src/main/kotlin/interpreter/Parser.kt:170-182 | every spelt boolean expression is read back by `bElem` as that expression, when no arithmetic operator follows it |
| ParserRoundTrip.RelationReadsSpelling | src/main/kotlin/interpreter/Parser.kt:177-179 | a spelt relation is a boolean element, whether it starts with a number, a name or `(` |
| ParserRoundTrip.RelationRead | src/main/kotlin/interpreter/Parser.kt:184-195 | `aExprRelation` reads a spelt relation back as that relation |
| ParserRoundTrip.RelationFromReads | src/main/kotlin/interpreter/Parser.kt:184-195 | two read operands around a RELATION token form the relation that its text names |
| ParserRoundTrip.RelationTextNamesRelation | src/main/kotlin/interpreter/Parser.kt:186-192 | the text of each of the six relations is read back as that relation |
| ParserRoundTrip.RelationFirst | src/main/kotlin/interpreter/Parser.kt:177-179 | on a number, a name or `(`, a successful `aExprRelation` is the element |
| ParserRoundTrip.AExprReadsSpelled | src/main/kotlin/interpreter/Parser.kt:106-146 | a spelt arithmetic expression that no `+ - * /` follows is a whole `aExpr` |
| ParserRoundTrip.RelationLeftOperand | src/main/kotlin/interpreter/Parser.kt:185 | the left operand of a spelt relation is read up to its RELATION token |
| ParserRoundTrip.ElementFailurePropagates | src/main/kotlin/interpreter/Parser.kt:106-132 | when `aElem` fails, `aTerm`, `aExpr` and `aExprRelation` fail there with the same exception |
| ParserRoundTrip.ArithmeticFailsOnBoolean | src/main/kotlin/interpreter/Parser.kt:134-146 | read as arithmetic, the spelling of any boolean expression other than a relation fails with a `ParseException` |
| ParserRoundTrip.CompoundFailsAsArithmetic | src/main/kotlin/interpreter/Parser.kt:138-143 | `aElem` on a bracketed `and` or `or` fails with a `ParseException`, inside the brackets or at the connective where `)` is expected |
| ParserRoundTrip.InnerFailureFailsBracket | src/main/kotlin/interpreter/Parser.kt:138-140 | `aElem` on `(` fails when `aElem` fails on what follows it |
| ParserRoundTrip.RelationInBracketFails | src/main/kotlin/interpreter/Parser.kt:139-141 | `aElem` on `(` fails when the inner expression stops at a RELATION where `)` is expected |
| ParserRoundTrip.EatFailsOnOther | src/main/kotlin/interpreter/Parser.kt:27-37 | eating one kind where a token of another kind stands raises a `ParseException` |
| ParserRoundTrip.CompoundReadsSpelling | src/main/kotlin/interpreter/Parser.kt:225-233 | a spelt `and` or `or` is read by the bracketed alternative after the relation attempt has failed |
| ParserRoundTrip.BracketsRead | src/main/kotlin/interpreter/Parser.kt:197-233 | `(` a read `bExpr` `)`, on which `aElem` fails, is read by `bElemBrackets` as the inner expression |
| ParserRoundTrip.CompoundInsideRead | src/main/kotlin/interpreter/Parser.kt:148-168 | between the brackets of a spelt `and` or `or`, the two operands and the connective are a whole `bExpr` |
| ParserRoundTrip.OperandRead | src/main/kotlin/interpreter/Parser.kt:170-182 | an operand of a spelt `and` or `or` is read as one element, up to the connective or the `)` |
| ParserRoundTrip.ConnectiveBetween | src/main/kotlin/interpreter/Parser.kt:148-168 | two read elements around `and` or `or`, that a `)` follows, are that conjunction or disjunction |
| ParserRoundTrip.AndBetween | src/main/kotlin/interpreter/Parser.kt:159-168 | element `and` element, that a `)` follows, is a whole `bExpr` |
| ParserRoundTrip.OrBetween | src/main/kotlin/interpreter/Parser.kt:148-168 | element `or` element, that a `)` follows, is a whole `bExpr` |
| ParserRoundTrip.ElementIsTerm | src/main/kotlin/interpreter/Parser.kt:159-167 | an element that no `and` follows is a whole `bTerm` |
| ParserRoundTrip.TermIsExpr | src/main/kotlin/interpreter/Parser.kt:148-156 | a term that no `or` follows is a whole `bExpr` |
| ParserRoundTrip.AndFromReads | src/main/kotlin/interpreter/Parser.kt:159-164 | an element, `and` and a term are read as their conjunction |
| ParserRoundTrip.OrFromReads | src/main/kotlin/interpreter/Parser.kt:148-153 | a term, `or` and a `bExpr` are read as their disjunction |
| Semantics.EvalA | src/main/kotlin/interpreter/visitors/InterpretVisitor.kt:12-23 | no contract of its own: the value of an arithmetic expression, left operand first, or the exception it raises; `VisitAlgebraic` and `VisitArithmetic` are proved against it, and `EvalAReadsOnlyItsNames` and `EvalAFailures` state its properties |
| Semantics.Compare | src/main/kotlin/interpreter/visitors/InterpretVisitor.kt:36-41 | no contract of its own: the outcome of each of the six comparisons; `VisitRelation` pushes it |
| Semantics.EvalB | src/main/kotlin/interpreter/visitors/InterpretVisitor.kt:25-41 | no contract of its own: the value of a boolean expression with `and` and `or` skipping their right operand; `VisitBoolean`, `VisitShortCircuit` and `VisitRelation` are proved against it, and `ShortCircuitAgreesWithStrict` relates it to strict evaluation |
| Semantics.ReadVars | src/main/kotlin/interpreter/visitors/InterpretVisitor.kt:63-68 | no contract of its own: `read`, one trimmed line per name; `VisitRead` is proved equal to it, and `ReadVarsCompletes`, `ReadVarsConsumes` and `ReadVarsBindsListed` state what it does |
| Semantics.WriteVars | src/main/kotlin/interpreter/visitors/InterpretVisitor.kt:70 | no contract of its own: `write`, one value per name, stopping at an unbound name; `VisitWrite` is proved equal to it, and `WriteVarsPrintsInOrder` states what it prints |
| Semantics.ExecStmt | src/main/kotlin/interpreter/visitors/InterpretVisitor.kt:43-71 | no contract of its own: the effect of one statement; `VisitStatement` is proved equal to it, and `ExecStmtExtends` and `ExecStmtFuelMonotone` state its properties |
| Semantics.ExecList | src/main/kotlin/interpreter/visitors/InterpretVisitor.kt:59-60 | no contract of its own: a statement list in order, stopping at the first exception; `VisitList` is proved equal to it |
| Semantics.Loop | src/main/kotlin/interpreter/visitors/InterpretVisitor.kt:49-55 | no contract of its own: a loop at its head, evaluating the condition; `VisitLoop` is proved equal to it, and `FinishedLoopLeavesFalse` states its exit condition |
| Semantics.LoopTest | src/main/kotlin/interpreter/visitors/InterpretVisitor.kt:51-53 | no contract of its own: one test of the condition on top of the boolean stack, leaving `false` there or popping `true` and running the body |
| Semantics.Run | src/main/kotlin/interpreter/visitors/InterpretVisitor.kt:116 | no contract of its own: a whole program on a fresh interpreter; `Interpreter.Interpret` is proved equal to it |
| Interpreter.InterpretVisitor.constructor | src/main/kotlin/interpreter/visitors/InterpretVisitor.kt:6-10 | a new visitor has no variables and empty stacks |
| Interpreter.InterpretVisitor.GetVar | src/main/kotlin/interpreter/visitors/InterpretVisitor.kt:77-80 | a bound name gives its value, and an unbound one raises `VariableNotDefinedException` |
| Interpreter.InterpretVisitor.VisitAlgebraic | src/main/kotlin/interpreter/visitors/InterpretVisitor.kt:12-23 | an expression pushes exactly its value and changes nothing else, or raises its exception |
| Interpreter.InterpretVisitor.VisitArithmetic | src/main/kotlin/interpreter/visitors/InterpretVisitor.kt:90-96 | a binary node pops its two operands and pushes the wrapped result |
| Interpreter.InterpretVisitor.VisitBoolean | src/main/kotlin/interpreter/visitors/InterpretVisitor.kt:25-34 | a boolean expression pushes exactly its value, or raises its exception |
| Interpreter.InterpretVisitor.VisitShortCircuit | src/main/kotlin/interpreter/visitors/InterpretVisitor.kt:98-113 | `and`/`or` skip the right operand once the left decides the result |
| Interpreter.InterpretVisitor.VisitRelation | src/main/kotlin/interpreter/visitors/InterpretVisitor.kt:82-88 | a relation pushes the comparison of its two operands |
| Interpreter.InterpretVisitor.VisitStatement | src/main/kotlin/interpreter/visitors/InterpretVisitor.kt:43-61 | a statement leaves the state of `ExecStmt`, and on an exception the variables, input and output at that point |
| Interpreter.InterpretVisitor.VisitList | src/main/kotlin/interpreter/visitors/InterpretVisitor.kt:59-60 | the statements run in order, and the first exception stops the list |
| Interpreter.InterpretVisitor.VisitLoop | src/main/kotlin/interpreter/visitors/InterpretVisitor.kt:49-55 | the `while` loop over the boolean stack leaves the state of `Loop` |
| Interpreter.InterpretVisitor.VisitRead | src/main/kotlin/interpreter/visitors/InterpretVisitor.kt:63-68 | each name in order takes the next trimmed line as a Long, or raises `InvalidIntegerValue` with that text |
| Interpreter.InterpretVisitor.VisitWrite | src/main/kotlin/interpreter/visitors/InterpretVisitor.kt:70 | each name in order writes its value, and the first unbound name stops the statement |
| Interpreter.InterpretVisitor.VisitProgram | src/main/kotlin/interpreter/visitors/InterpretVisitor.kt:72-75 | a program runs its statements in order |
| Interpreter.Interpret | src/main/kotlin/interpreter/visitors/InterpretVisitor.kt:116 | a fresh visitor's outcome and output are those of `Run` |
| SemanticsFacts.EvalAReadsOnlyItsNames | src/main/kotlin/interpreter/visitors/InterpretVisitor.kt:12-23 | an expression's value depends only on the variables it names |
| SemanticsFacts.EvalBReadsOnlyItsNames | src/main/kotlin/interpreter/visitors/InterpretVisitor.kt:25-41 | a boolean's value depends only on the variables it names |
| SemanticsFacts.EvalAFailures | src/main/kotlin/interpreter/visitors/InterpretVisitor.kt:12-23 | success means every named variable is bound; a failure is division by zero or an unbound name that occurs in the expression |
| SemanticsFacts.ShortCircuitAgreesWithStrict | src/main/kotlin/interpreter/visitors/InterpretVisitor.kt:98-113 | where strict evaluation succeeds, short-circuit evaluation gives the same value, and it fails only where strict evaluation fails too |
| SemanticsFacts.UnboundRightOperandIsSkipped | src/main/kotlin/interpreter/visitors/InterpretVisitor.kt:104-108 | `false and z < 1` and `true or z < 1` need no `z`, while `true and z < 1` does |
| SemanticsFacts.ReadVarsExtends | src/main/kotlin/interpreter/visitors/InterpretVisitor.kt:63-68 | `read` only consumes input and leaves output and the boolean stack alone |
| SemanticsFacts.WriteVarsExtends | src/main/kotlin/interpreter/visitors/InterpretVisitor.kt:70 | `write` only appends to the output |
| SemanticsFacts.ExecStmtExtends | src/main/kotlin/interpreter/visitors/InterpretVisitor.kt:43-71 | a statement only consumes input, appends output and pushes booleans, even when it fails |
| SemanticsFacts.ExecListExtends | src/main/kotlin/interpreter/visitors/InterpretVisitor.kt:59-60 | likewise for a statement list |
| SemanticsFacts.LoopExtends | src/main/kotlin/interpreter/visitors/InterpretVisitor.kt:49-55 | likewise for a loop |
| SemanticsFacts.LoopTestExtends | src/main/kotlin/interpreter/visitors/InterpretVisitor.kt:51-53 | likewise for a loop after its test |
| SemanticsFacts.ExecStmtFuelMonotone | src/main/kotlin/interpreter/visitors/InterpretVisitor.kt:49-55 | a statement that does not run out of iterations gives the same result with any larger bound |
| SemanticsFacts.ExecListFuelMonotone | src/main/kotlin/interpreter/visitors/InterpretVisitor.kt:49-55 | likewise for a statement list |
| SemanticsFacts.LoopFuelMonotone | src/main/kotlin/interpreter/visitors/InterpretVisitor.kt:49-55 | likewise for a loop |
| SemanticsFacts.LoopTestFuelMonotone | src/main/kotlin/interpreter/visitors/InterpretVisitor.kt:51-53 | likewise for a loop after its test |
| SemanticsFacts.FinishedLoopLeavesFalse | src/main/kotlin/interpreter/visitors/InterpretVisitor.kt:51 | a loop that ends normally ends with its condition false, and a `false` is left on the boolean stack |
| SemanticsFacts.FalseConditionSkipsBody | src/main/kotlin/interpreter/visitors/InterpretVisitor.kt:49-55 | a loop whose condition is false at once only pushes `false` |
| SemanticsFacts.WriteVarsPrintsInOrder | src/main/kotlin/interpreter/visitors/InterpretVisitor.kt:70 | `write` succeeds exactly when every name is bound, and then it outputs their values in list order |
| SemanticsFacts.WriteVarsStopsAtFirstUnbound | src/main/kotlin/interpreter/visitors/InterpretVisitor.kt:70 | `write` prints the values before the first unbound name, then raises for that name |
| SemanticsFacts.ReadFirstLine | src/main/kotlin/interpreter/visitors/InterpretVisitor.kt:65-67 | a successful `read` binds its first name from the first line, trimmed and parsed, and goes on with the rest |
| SemanticsFacts.ReadVarsCompletes | src/main/kotlin/interpreter/visitors/InterpretVisitor.kt:63-68 | `read` succeeds exactly when there are enough lines and each of them, trimmed, is a Long |
| SemanticsFacts.ReadVarsConsumes | src/main/kotlin/interpreter/visitors/InterpretVisitor.kt:63-68 | a successful `read` consumes one line per name and changes neither output nor stack |
| SemanticsFacts.ReadVarsBindsListed | src/main/kotlin/interpreter/visitors/InterpretVisitor.kt:67 | after `read`, the bound names are the old ones plus the listed ones |
| SemanticsFacts.ReadVarsKeepsOthers | src/main/kotlin/interpreter/visitors/InterpretVisitor.kt:67 | `read` leaves variables it does not list unchanged |
| SemanticsFacts.ReadVarsLastLineWins | src/main/kotlin/interpreter/visitors/InterpretVisitor.kt:63-67 | a name listed twice keeps the value of its last line |
| Scenarios.AssignThenWrite | src/main/kotlin/interpreter/visitors/InterpretVisitor.kt:43-47 | `x := 3; y := 4; write x, y` outputs 3 then 4 |
| Scenarios.ReadTrimsTheLine | src/main/kotlin/interpreter/visitors/InterpretVisitor.kt:65-66 | the line ` -5 ` is read as -5 |
| Scenarios.MinusFiveParses | src/main/kotlin/interpreter/visitors/InterpretVisitor.kt:66 | `-5` is the Long -5 |
| Scenarios.ReadRejectsText | src/main/kotlin/interpreter/visitors/InterpretVisitor.kt:66 | the line `abc` raises `InvalidIntegerValue("abc")` |
| Scenarios.ReadNeedsALine | src/main/kotlin/interpreter/visitors/InterpretVisitor.kt:65 | `read` with no line left fails |
| Scenarios.WriteOfUnboundName | src/main/kotlin/interpreter/visitors/InterpretVisitor.kt:70 | writing an unbound name raises `VariableNotDefinedException` |
| Scenarios.AdditionWrapsAround | src/main/kotlin/interpreter/visitors/InterpretVisitor.kt:12 | `MaxLong + 1` is `MinLong` |
| Scenarios.DivisionTruncatesAndWraps | src/main/kotlin/interpreter/visitors/InterpretVisitor.kt:14 | `-7 / 2` is -3, `MinLong / -1` is `MinLong`, and `1 / 0` fails |
| Scenarios.CountingLoop | src/main/kotlin/interpreter/visitors/InterpretVisitor.kt:49-55 | the loop `while i < 3 do write i; i := i + 1 od` writes 0, 1, 2 and leaves one `false` |
| Scenarios.CountingLoopNeedsThreeIterations | src/main/kotlin/interpreter/visitors/InterpretVisitor.kt:49-55 | with a bound of two iterations the same loop stops after writing 0 and 1 |

## Left out

- Console I/O. The `Input:` prompt and `println("Output: …")` are left out. Input is a list of lines, and output is the list of Long values written.
- `readLine()` returning null at end of input. Kotlin's `!!` throws there, and the model calls this error `InputExhausted`.
- Verbose mode. The `State:` and `Running program:` lines, the command-line entry point `main` and the tree printer are not part of this model.
- Loops. `Semantics.Loop` and `Interpreter.InterpretVisitor.VisitLoop` bound each loop run to `fuel` iterations. When the bound runs out they stop with `OutOfFuel`, so a non-terminating program is not modelled. The fuel-monotonicity lemmas state that the bound never changes a result that did not run out.
- The stacks after an exception. Kotlin leaves partial values on the arithmetic and boolean stacks when an exception propagates. The model states the variables, input and output at that point, but not the stack contents, because the exception ends the run.
- Regular expressions. Each pattern of the tokenizer table is written out as a hand-coded matcher, `Lexer.MatchLength`, with the same greedy repetition and ordered alternation. No regular-expression engine is modelled.
- Lexer.Matcher.MatchFirst: reports every failure as `NoMatch` with the remaining text. In Kotlin, building the error message with `substring(0..10)` itself throws `StringIndexOutOfBoundsException` when fewer than eleven characters remain.
- Error messages. Exceptions are modelled by kind and by the data they carry, not by their message text.
- Longs.ToLongOrNull: accepts ASCII digits only. Kotlin's `toLong` and `toLongOrNull` also accept other Unicode decimal digits.
- Visitor double dispatch. `accept`/`visit` (Nodes.kt and Visitor.kt) becomes a `match` on the node in each visit method.
