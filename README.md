# popsi front end, modelled in Dafny

popsi is a small compiler front end written in Java. This project models its core:

- **Type algebra** (`Types`): the analyser's closed type universe. This covers `Named`, `Function` and `Record` types and the sentinel constants. It also covers the lattice operations `lub` and `glb`, the `compatibleTypes` relation and the `isIntegerType`, `isFloatType`, `isNumericType` and `isList` predicates.
- **Control-flow analysis** (`Cfa`): the three-valued verdict `RETURNED_TYPE` / `RETURNED_OTHER` / `CONTINUE` over the typed syntax tree (`TypedAst`). The verdict says whether every path through a function body returns the expected type.
- **Lexical environment** (`Env`): a chain of scopes. Each scope has a value namespace and a type namespace. Lookups go innermost first; writes go to the innermost scope.
- **File positions** (`FilePosition`): line and column arithmetic.
- **The current lexer** (`popsi.lexer.Lexer`). `LexerSpec` states what it computes as functions over the source text. `CurrentLexer` is the cursor object itself: it appends tokens and errors, and every method is proved to agree with `LexerSpec`.
- **The earlier lexer** (`popsi.Lexer`), modelled the same way in `LegacyLexerSpec` and `LegacyLexer`. It raises exceptions rather than collecting errors in place.
- **String literal decoding** (`StringLiterals`): the chain of `String.replace` calls both lexers use, and a left-to-right decoder proved to invert escaping.
- **The recursive-descent parser** (`Parser`): a token cursor with one method per grammar rule, a precedence-climbing ladder of expression levels, the optional-semicolon block tail, labelled arguments, and error recording with recovery.
- **The syntax-tree printer** (`Printer`, `Whitespace`): the S-expression serialiser, its StringBuilder helpers, and the white-space normalisation `print` applies at the end.

Three kinds of module make up the project:

- Pure code becomes functions and lemmas: the type algebra, the analysis, the visits of the printer, and the specifications of both lexers.
- Code that updates objects in place becomes classes with `modifies` frames: the lexers, the parser, the environment and the printer's builder.
- The `*Properties` modules hold the lemmas about the lexers and the printer.

Character classification that depends on Unicode tables is a parameter of the lexers (`LexerSpec.Classifier`). These are `Character.isUnicodeIdentifierStart`, `Character.isUnicodeIdentifierPart` and `Character.isEmoji`. The symbol table the analysis reads is also a parameter (`TypedAst.SymbolTable`), because its `typeDefinition` and `locals` methods do not exist in the analyser's stub table.

## Model

| member | source | states |
|---|---|---|
| FilePosition.Start | src/popsi/lexer/Lexer.java:55-56 | a lexer starts at line 1, column 1 of its text |
| FilePosition.NextLine | src/popsi/FilePosition.java:4-6 | the line goes up by one, the column is reset to 1, the text is kept |
| FilePosition.NextColumn | src/popsi/FilePosition.java:8-10 | the column goes up by one, the line and the text are kept |
| FilePosition.PreviousColumn | src/popsi/FilePosition.java:12-18 | at column 1 the position is returned unchanged, otherwise the column goes down by one; the line and the text are kept |
| FilePosition.PreviousUndoesNext | src/popsi/FilePosition.java:8-18 | for column >= 1, going back a column after going forward one gives the original position |
| FilePosition.PreviousColumnStaysPositive | src/popsi/FilePosition.java:12-18 | from column >= 1, any number of steps back stops at column 1, never below it, and keeps the line and the text |
| Types.Lub | src/main/java/popsi/analysis/Type.java:125-166 | `lub` as written, b-side swaps included; its meaning is stated by Types.LubIsBound, Types.LubCommutative and the lemmas after it |
| Types.Glb | src/main/java/popsi/analysis/Type.java:169-210 | `glb` as written; its meaning is stated by Types.GlbIsBound, Types.GlbCommutative and the lemmas after it |
| Types.Compatible | src/main/java/popsi/analysis/Type.java:212-258 | `compatibleTypes` as written, with Java's `&&`-over-`||` grouping; stated by Types.CompatibleSimplified and the lemmas after it |
| Types.IsIntegerType | src/main/java/popsi/analysis/Type.java:260-263 | I_LITERAL, or a name matching `i\d+` or `u\d+`; see Types.ClassifierExamples |
| Types.IsFloatType | src/main/java/popsi/analysis/Type.java:265-267 | a name matching `f\d+`; see Types.IntegerAndFloatDisjoint |
| Types.IsNumericType | src/main/java/popsi/analysis/Type.java:269-271 | integer or float |
| Types.IsList | src/main/java/popsi/analysis/Type.java:273-275 | a named type called `[]` |
| Types.ListOf | src/main/java/popsi/analysis/Type.java:162 | the list type `[]` with exactly the given element |
| Types.Element | src/main/java/popsi/analysis/Type.java:160-162 | the element (`args.get(0)`) of a well-formed list type is well-formed and nested less deep |
| Types.LubIsBound | src/main/java/popsi/analysis/Type.java:125-166 | `lub`, with its b-side swaps, equals a symmetric reference bound whose fallback is ANY |
| Types.GlbIsBound | src/main/java/popsi/analysis/Type.java:169-210 | `glb`, with its b-side swaps, equals the same reference bound with NOTHING as fallback |
| Types.BoundCommutative | src/main/java/popsi/analysis/Type.java:125-210 | the reference bound does not depend on the order of its operands |
| Types.LubCommutative | src/main/java/popsi/analysis/Type.java:125-166 | `lub(a, b) == lub(b, a)` for well-formed types |
| Types.GlbCommutative | src/main/java/popsi/analysis/Type.java:169-210 | `glb(a, b) == glb(b, a)` for well-formed types |
| Types.BoundsIdempotent | src/main/java/popsi/analysis/Type.java:126-127 | `lub(a, a) == a` and `glb(a, a) == a` |
| Types.AnyIsIdentity | src/main/java/popsi/analysis/Type.java:128-131 | ANY is an identity on both sides of `lub` and of `glb` |
| Types.PlaceholderNarrowing | src/main/java/popsi/analysis/Type.java:132-158 | NUMERIC, I_LITERAL and F_LITERAL narrow to an operand of their own family on either side; any other operand (not ANY, not the placeholder, not a placeholder tested before it) gives ANY from `lub` and NOTHING from `glb` |
| Types.ListBounds | src/main/java/popsi/analysis/Type.java:159-162 | two distinct list types bound to the list of the bound of their elements |
| Types.UnrelatedBounds | src/main/java/popsi/analysis/Type.java:163-165 | any other pair of distinct types gives ANY from `lub` and NOTHING from `glb` |
| Types.BoundsWellFormed | src/main/java/popsi/analysis/Type.java:125-210 | the bounds of well-formed types are well-formed |
| Types.BoundWellFormed | src/main/java/popsi/analysis/Type.java:159-165 | the reference bound keeps well-formedness |
| Types.GlbExamples | src/main/java/popsi/analysis/Type.java:176-202 | `glb(I_LITERAL, U8) == U8`, `glb(I_LITERAL, STR) == NOTHING`, `glb(I_LITERAL, F_LITERAL) == NOTHING`, `lub(I_LITERAL, F_LITERAL) == ANY`, and `glb([{integer}], [i32]) == [i32]` |
| Types.CompatibleReflexive | src/main/java/popsi/analysis/Type.java:214-216 | every type is compatible with itself |
| Types.AnyCompatible | src/main/java/popsi/analysis/Type.java:219-221 | ANY is compatible with every type, NOTHING included, on either side |
| Types.NothingCompatible | src/main/java/popsi/analysis/Type.java:224-226 | NOTHING is compatible with exactly NOTHING and ANY, on either side |
| Types.LiteralDisjuncts | src/main/java/popsi/analysis/Type.java:229-234 | `(I_LITERAL, x)` and `(x, F_LITERAL)` are compatible for every x other than NOTHING |
| Types.CompatibleIsNotSymmetric | src/main/java/popsi/analysis/Type.java:229-246 | `compatible(I32, F_LITERAL)` holds but `compatible(F_LITERAL, I32)` does not; `compatible(I_LITERAL, STR)` holds but `compatible(STR, I_LITERAL)` does not; `compatible(F_LITERAL, F32)` holds |
| Types.CompatibleSimplified | src/main/java/popsi/analysis/Type.java:212-258 | the relation is equivalent to: equal, or ANY on either side, or (neither being NOTHING) I_LITERAL on the left, F_LITERAL on the right, NUMERIC against a numeric type, an integer type against I_LITERAL on the right, F_LITERAL against a float type, or two lists with compatible elements |
| Types.ListCompatible | src/main/java/popsi/analysis/Type.java:249-254 | two list types are compatible exactly when their elements are |
| Types.RecordCompatible | src/main/java/popsi/analysis/Type.java:212-258 | a record is compatible with exactly itself, ANY and F_LITERAL |
| Types.RecordsCompatibleIffEqual | src/main/java/popsi/analysis/Type.java:212-258 | two records are compatible iff they are equal |
| Types.ClassifierExamples | src/main/java/popsi/analysis/Type.java:260-271 | `isIntegerType(I_LITERAL)` holds while `isFloatType(F_LITERAL)` and `isNumericType(F_LITERAL)` do not; the integer family are integer types and not float types, and the float family the reverse; NUMERIC, STR and BOOLEAN are not numeric |
| Types.IntegerAndFloatDisjoint | src/main/java/popsi/analysis/Type.java:260-267 | no type is both an integer and a float type |
| Cfa.FirstNonContinue | src/popsi/analysis/Cfa.java:27-35 | the verdict of the first child that does not continue, else CONTINUE; stated by Cfa.FirstNonContinueIsFirst |
| Cfa.VisitExpr | src/popsi/analysis/Cfa.java:23-162 | `visitExpr`, one case per node; stated case by case by the Cfa.*Verdict lemmas |
| Cfa.VisitBlock | src/popsi/analysis/Cfa.java:128-160 | the block case of `visitExpr`; stated by Cfa.BlockVerdict |
| Cfa.VisitStmt | src/popsi/analysis/Cfa.java:164-179 | `visitStmt`; stated by Cfa.StatementVerdicts |
| Cfa.EnsureAllPathsReturnType | src/popsi/analysis/Cfa.java:14-16 | `visitExpr` on the body; stated by Cfa.BodyWithTailDecides and Cfa.IfWithoutElseIsAccepted |
| Cfa.FirstNonContinueIsFirst | src/popsi/analysis/Cfa.java:27-35 | the search over children gives CONTINUE iff every child continues, and otherwise the verdict of the first child that does not |
| Cfa.FirstOfPair | src/popsi/analysis/Cfa.java:36-46 | of two children, the first decides unless it continues |
| Cfa.FirstOfSingle | src/popsi/analysis/Cfa.java:69-75 | a single child's verdict is passed on |
| Cfa.LeavesContinue | src/popsi/analysis/Cfa.java:25-26 | literals, variables and debug nodes give CONTINUE, whatever the debug operand is |
| Cfa.BinaryVerdict | src/popsi/analysis/Cfa.java:36-46 | a binary node gives the left verdict unless it is CONTINUE, and then the right one |
| Cfa.ListAccessVerdict | src/popsi/analysis/Cfa.java:58-68 | a list access gives the target's verdict unless it is CONTINUE, and then the index's |
| Cfa.ForVerdict | src/popsi/analysis/Cfa.java:76-86 | a `for` gives the range's verdict unless it is CONTINUE, and then the body's |
| Cfa.WhileVerdict | src/popsi/analysis/Cfa.java:103-113 | a while node gives the condition's verdict unless it is CONTINUE, and then the body's |
| Cfa.ListVerdict | src/popsi/analysis/Cfa.java:27-35 | a list gives CONTINUE iff every element does, else the first element verdict that is not CONTINUE |
| Cfa.CallIgnoresTarget | src/popsi/analysis/Cfa.java:48-56 | a call's verdict does not depend on its target |
| Cfa.IfElseVerdict | src/popsi/analysis/Cfa.java:87-98 | with an else: CONTINUE if either arm is, RETURNED_TYPE iff both arms are, otherwise RETURNED_OTHER; the condition is not consulted |
| Cfa.IfWithoutElseVerdict | src/popsi/analysis/Cfa.java:99-101 | without an else, exactly the then-arm's verdict |
| Cfa.ReturnVerdict | src/popsi/analysis/Cfa.java:114-126 | a return gives RETURNED_TYPE iff its operand does or its resolved type equals the expected one, else RETURNED_OTHER, so never CONTINUE |
| Cfa.StatementVerdicts | src/popsi/analysis/Cfa.java:164-179 | an expression statement gives RETURNED_TYPE iff its expression does, else CONTINUE, never RETURNED_OTHER; a declaration gives its initialiser's verdict, or CONTINUE without one |
| Cfa.BlockVerdict | src/popsi/analysis/Cfa.java:128-160 | the first statement verdict that is not CONTINUE decides; otherwise a non-CONTINUE tail verdict; otherwise RETURNED_TYPE iff the tail's type (a declaration's local type) is the expected one, else RETURNED_OTHER; without a tail the block gives CONTINUE iff every statement does; with a tail it never gives CONTINUE |
| Cfa.BodyWithTailDecides | src/popsi/analysis/Cfa.java:14-16 | the entry point on a body with a tail never gives CONTINUE |
| Cfa.IfWithoutElseIsAccepted | src/popsi/analysis/Cfa.java:99-101 | a body whose only statement is an `if` without `else` around a return of the expected type is reported RETURNED_TYPE, although it falls through when the condition is false |
| Cfa.ExprDependsOnMentionedEntries | src/popsi/analysis/Cfa.java:8-16 | the verdict depends only on the tree, the expected type and the table entries the tree mentions: two tables that agree there give the same verdict |
| Cfa.ListsDependOnMentionedEntries | src/popsi/analysis/Cfa.java:27-56 | the same for lists and calls |
| Cfa.ControlDependsOnMentionedEntries | src/popsi/analysis/Cfa.java:76-113 | the same for `for`, `if` and `while` |
| Cfa.BlockDependsOnMentionedEntries | src/popsi/analysis/Cfa.java:128-160 | the same for blocks |
| Cfa.StmtDependsOnMentionedEntries | src/popsi/analysis/Cfa.java:164-179 | the same for statements, and for the type the table gives a statement |
| Env.LookupFirst | src/popsi/analysis/Environment.java:45-63 | the reference lookup over the scope chain, innermost first; stated by Env.LookupFirstFindsFirst |
| Env.LookupFirstFindsFirst | src/popsi/analysis/Environment.java:45-63 | the chained lookup finds nothing iff no scope has the key, and otherwise finds the entry of the innermost scope that has it |
| Env.LookupAfterBindInnermost | src/popsi/analysis/Environment.java:65-71 | after binding a key in the innermost scope the lookup finds the new entry; other keys are looked up as before |
| Env.Environment.AncestorsValid | src/popsi/analysis/Environment.java:15 | every scope on the chain is valid and lists the rest of the chain as its ancestors |
| Env.Environment.NotOwnAncestor | src/popsi/analysis/Environment.java:39-43 | the chain is acyclic: no scope encloses itself |
| Env.Environment.ValueScopes | src/popsi/analysis/Environment.java:13-15 | the value maps along the chain, innermost first |
| Env.Environment.TypeScopes | src/popsi/analysis/Environment.java:14-15 | the type maps along the chain, innermost first |
| Env.Environment.Root | src/popsi/analysis/Environment.java:33-37 | a root scope has empty maps and no enclosing scope |
| Env.Environment.Child | src/popsi/analysis/Environment.java:39-43 | a child scope has empty maps, the given enclosing scope, and the parent's chain behind its own maps |
| Env.Environment.Get | src/popsi/analysis/Environment.java:45-53 | the innermost value binding of the key along the chain, and empty iff no scope has the key |
| Env.Environment.GetType | src/popsi/analysis/Environment.java:55-63 | the same for the type namespace |
| Env.Environment.Put | src/popsi/analysis/Environment.java:65-67 | binds or overwrites the key in this scope only: `get(key)` is the new entry, other keys and every `getType` are unchanged, and so is every lookup on the enclosing scope |
| Env.Environment.PutType | src/popsi/analysis/Environment.java:69-71 | the same for the type namespace, leaving every `get` unchanged |
| Env.ShadowingScenario | src/popsi/analysis/Environment.java:39-67 | a name bound in a child shadows the parent's binding of it while the parent keeps its own |
| StringLiterals.Replace | src/popsi/lexer/Lexer.java:351-355 | Java's `String.replace`: every occurrence, left to right, without overlaps; stated by StringLiterals.ReplaceAbsent |
| StringLiterals.UnescapeAsWritten | src/popsi/lexer/Lexer.java:351-356 | the five `replace` calls in the lexer's order; StringLiterals.AsWrittenMisreadsEscapedBackslash shows where it differs from StringLiterals.Unescape |
| StringLiterals.ReplaceAbsent | src/popsi/lexer/Lexer.java:351-355 | `replace` leaves a text without the target unchanged |
| StringLiterals.Unescape | src/popsi/lexer/Lexer.java:351-356 | the corrected decoding of escape sequences, left to right; never longer than the literal |
| StringLiterals.UnescapeWithoutBackslash | src/popsi/lexer/Lexer.java:351-356 | a literal without a backslash decodes to itself |
| StringLiterals.UnescapeAfterPlain | src/popsi/lexer/Lexer.java:351-356 | a front without a backslash decodes to itself, whatever follows it |
| StringLiterals.UnescapeKeepsInvalidEscape | src/popsi/lexer/Lexer.java:351-356 | a backslash before a code point that no escape uses is kept, with that code point |
| StringLiterals.UnescapeKeepsBody | src/popsi/lexer/Lexer.java:351-356 | a body whose only backslash stands before such a code point decodes to itself |
| StringLiterals.Escape | src/popsi/lexer/Lexer.java:368-383 | the escaping that the decoder inverts; never shorter than its input |
| StringLiterals.UnescapeEscapedChar | src/popsi/lexer/Lexer.java:368-383 | one escaped code point decodes back to itself, whatever follows |
| StringLiterals.UnescapeEscape | src/popsi/lexer/Lexer.java:351-356 | decoding inverts escaping for every text |
| StringLiterals.AsWrittenMisreadsEscapedBackslash | src/popsi/Lexer.java:413-416 | the `replace` chain as written decodes the literal for the text `\n` (backslash, n) to a backslash and a newline; the corrected decoder returns the text |
| StringLiterals.ReplaceCons | src/popsi/lexer/Lexer.java:351-355 | `replace` keeps a first code point that cannot start the target |
| StringLiterals.ReplacePair | src/popsi/lexer/Lexer.java:351-355 | `replace` keeps a leading pair that is not the two-letter target and cannot overlap it |
| StringLiterals.ReplaceHit | src/popsi/lexer/Lexer.java:351-355 | `replace` substitutes a leading occurrence and goes on after it |
| StringLiterals.AsWrittenCons | src/popsi/lexer/Lexer.java:351-356 | the chain keeps a first code point that is not a backslash |
| StringLiterals.AsWrittenKeepsPair | src/popsi/lexer/Lexer.java:351-356 | the chain keeps a backslash before a code point that is not an escape letter |
| StringLiterals.AsWrittenDecodes | src/popsi/lexer/Lexer.java:351-356 | the chain decodes `\n`, `\r`, `\t` and `\"` at the start, and never touches the result again |
| StringLiterals.AgreeAfterPlain | src/popsi/lexer/Lexer.java:351-356 | the chain and the one-pass decoder still agree after a code point that is not a backslash |
| StringLiterals.AgreeAfterDecoded | src/popsi/lexer/Lexer.java:351-356 | they still agree after an escape other than `\\` |
| StringLiterals.AgreeAfterKept | src/popsi/lexer/Lexer.java:351-356 | they still agree after a backslash before a code point that no escape uses |
| StringLiterals.NoEscapedBackslashSuffix | src/popsi/lexer/Lexer.java:351-356 | a suffix of a literal without an escaped backslash has none either |
| StringLiterals.AsWrittenAgreesWithoutEscapedBackslash | src/popsi/lexer/Lexer.java:351-356 | on every literal in which no backslash follows another, the source's chain and the one-pass decoder give the same value |
| LexerSpec.PosAt | src/popsi/lexer/Lexer.java:189-199 | the position after k code points, a line feed starting a new line; stated by LexerSpec.PosAtIsPosition |
| LexerSpec.IsDigit | src/popsi/lexer/Lexer.java:385-387 | a character is a digit iff it is one of `0`-`9` |
| LexerSpec.IsWhitespace | src/popsi/lexer/Lexer.java:399-401 | a character is whitespace iff it is a space, tab, carriage return or line feed |
| LexerSpec.KeywordKind | src/popsi/lexer/Lexer.java:236-277 | the keyword kind of a lexeme, else IDENTIFIER; stated by LexerSpec.KeywordTable and LexerProperties.KeywordKindSpelled |
| LexerSpec.LexRun | src/popsi/lexer/Lexer.java:18-21 | the loop of `lex`: scan after scan, then one EOF; stated by LexerSpec.LexRunExtends, LexerSpec.LexRunEndsWithEof and LexerSpec.LexRunSingleEof |
| LexerSpec.Lex | src/popsi/lexer/Lexer.java:15-28 | the tokens if no error was recorded, else the errors; stated by LexerSpec.LexResultShape and LexerSpec.LexSucceedsIffNoErrors |
| LexerSpec.DigitValue | src/popsi/lexer/Lexer.java:293-332 | the value of a hex, binary, octal or decimal digit, below 16 |
| LexerSpec.ParseLong | src/popsi/lexer/Lexer.java:298 | `Long.parseLong`: the value of the digits in the radix; none (the source throws) for no digits or a value above Long.MAX_VALUE |
| LexerSpec.PosAtIsPosition | src/popsi/lexer/Lexer.java:189-199 | the position after k code points: line one more than the newlines before it, column at least 1, the whole text |
| LexerSpec.Span | src/popsi/lexer/Lexer.java:294-296 | the end of the longest run of code points satisfying a class, from a start index |
| LexerSpec.SpanMaximal | src/popsi/lexer/Lexer.java:294-296 | every code point of the run satisfies the class and the one after it does not |
| LexerSpec.SpanUnique | src/popsi/lexer/Lexer.java:294-296 | those two properties determine the run |
| LexerSpec.KeywordTable | src/popsi/lexer/Lexer.java:236-277 | exactly fn, rec, let, for, while, return, if, debug, else, in, true and false get a kind other than IDENTIFIER |
| LexerSpec.ScanString | src/popsi/lexer/Lexer.java:334-383 | the body of a string from an index: a newline or the end records "String não fechada" and no token; a closing quote emits the STRING token with the decoded value; an invalid escape records "Escape inválido" and goes on |
| LexerSpec.ScanStringShape | src/popsi/lexer/Lexer.java:334-358 | a string scan either emits one STRING token up to its closing quote after any number of escape errors, or records the unclosed-string error and no token, or crashes at a backslash that ends the text |
| LexerSpec.StringShapeIsWellScanned | src/popsi/lexer/Lexer.java:334-358 | a string scan of that shape is a well-formed scan |
| LexerSpec.ScanStringLiteral | src/popsi/lexer/Lexer.java:170-172 | the string literal scanned from its opening quote |
| LexerSpec.ScanStringLiteralShape | src/popsi/lexer/Lexer.java:334-358 | a string literal scan has that shape and is well formed |
| LexerSpec.ScanRadix | src/popsi/lexer/Lexer.java:293-315 | `0x`, `0b` or `0o` followed by the longest run of digits of the radix, as an INTEGER |
| LexerSpec.IntegerToken | src/popsi/lexer/Lexer.java:298 | the INTEGER token of the parsed digits, or a crash where `Long.parseLong` throws |
| LexerSpec.ScanDecimal | src/popsi/lexer/Lexer.java:317-332 | decimal digits, then a FLOAT when a `.` is followed by a digit, otherwise an INTEGER |
| LexerSpec.FloatToken | src/popsi/lexer/Lexer.java:321-327 | the FLOAT token: the integer digits, the `.` and every digit after it, with its lexeme as the value |
| LexerSpec.ScanNumber | src/popsi/lexer/Lexer.java:280-291 | after a `0`, `x`/`b`/`o` chooses the radix; otherwise a decimal literal |
| LexerSpec.ScanIdentifier | src/popsi/lexer/Lexer.java:229-278 | the longest run of identifier-part code points, and a keyword kind iff the lexeme is a keyword |
| LexerSpec.ScanEqualPair | src/popsi/lexer/Lexer.java:103-114 | `=` `%` `!` `+` `*` `^` `<` `>`: the two-code-point kind when `=` follows, else the one-code-point kind |
| LexerSpec.ScanMinus | src/popsi/lexer/Lexer.java:115-117 | `-=` before `->`, else `-` |
| LexerSpec.ScanSlash | src/popsi/lexer/Lexer.java:118-128 | `//` skips to the newline, which it does not consume, emits nothing and moves the lexeme start; otherwise `/=` or `/` |
| LexerSpec.ScanDoubled | src/popsi/lexer/Lexer.java:141-159 | `..` or `.`, `&&` or `||`; a lone `&` or `|` records its error and no token |
| LexerSpec.ScanSymbol | src/popsi/lexer/Lexer.java:70-159 | the operator, punctuation mark or comment that starts at the index |
| LexerSpec.Scan | src/popsi/lexer/Lexer.java:61-187 | one scan: a symbol, a white-space run that emits nothing, a string, a number, an identifier, or "Símbolo não reconhecido" |
| LexerSpec.ScanSymbolWellScanned | src/popsi/lexer/Lexer.java:70-159 | a symbol scan consumes at least one code point, and what it records belongs to its lexeme |
| LexerSpec.ScanNumberWellScanned | src/popsi/lexer/Lexer.java:280-332 | the same for number literals |
| LexerSpec.ScanWellScanned | src/popsi/lexer/Lexer.java:61-187 | every scan consumes at least one code point, and each error is LEXICAL at the lexeme start while tokens sit at the position after the lexeme |
| LexerSpec.LexRunExtends | src/popsi/lexer/Lexer.java:18-20 | the scanning loop only appends to the tokens and errors recorded so far |
| LexerSpec.LexRunEndsWithEof | src/popsi/lexer/Lexer.java:18-21 | the loop ends with the EOF token at the end of the text |
| LexerSpec.LexRunSingleEof | src/popsi/lexer/Lexer.java:18-21 | no token before that EOF is an EOF |
| LexerSpec.LexRunErrorsLexical | src/popsi/lexer/Lexer.java:420-422 | every error the loop records is LEXICAL |
| LexerSpec.LexResultShape | src/popsi/lexer/Lexer.java:15-28 | a successful `lex` returns exactly one EOF token, last, at the end of the text; a failed one returns at least one error, all LEXICAL |
| LexerSpec.LexSucceedsIffNoErrors | src/popsi/lexer/Lexer.java:23-27 | `lex` succeeds iff the loop recorded no error, returning the loop's tokens, and otherwise returns the loop's errors; it crashes iff the loop does |
| CurrentLexer.Lexer.constructor | src/popsi/lexer/Lexer.java:51-59 | a lexer at index 0, position 1:1, with no tokens and no errors |
| CurrentLexer.Lexer.AtEof | src/popsi/lexer/Lexer.java:403-409 | whether the cursor is at the end of the text |
| CurrentLexer.Lexer.Peek | src/popsi/lexer/Lexer.java:212-218 | the next code point, or "" at the end |
| CurrentLexer.Lexer.PeekIs | src/popsi/lexer/Lexer.java:212-218 | whether the next code point is the given one |
| CurrentLexer.Lexer.PeekNext | src/popsi/lexer/Lexer.java:220-227 | the code point after the next one, or "" |
| CurrentLexer.Lexer.Next | src/popsi/lexer/Lexer.java:189-199 | consumes one code point; a newline moves to the next line, anything else to the next column |
| CurrentLexer.Lexer.Match | src/popsi/lexer/Lexer.java:201-210 | consumes the next code point iff it is the expected one, and says whether it did |
| CurrentLexer.Lexer.AddToken | src/popsi/lexer/Lexer.java:411-418 | appends the token spelling the current lexeme, at the current position |
| CurrentLexer.Lexer.AddError | src/popsi/lexer/Lexer.java:420-422 | appends a LEXICAL error at the start of the current lexeme |
| CurrentLexer.Lexer.Skip | src/popsi/lexer/Lexer.java:294-296 | consumes code points up to `LexerSpec.Span` |
| CurrentLexer.Lexer.Identifier | src/popsi/lexer/Lexer.java:229-278 | records what `LexerSpec.ScanIdentifier` says |
| CurrentLexer.Lexer.RadixNumber | src/popsi/lexer/Lexer.java:293-315 | records what `LexerSpec.ScanRadix` says |
| CurrentLexer.Lexer.IntegerToken | src/popsi/lexer/Lexer.java:298 | records `LexerSpec.IntegerToken`, or fails where `Long.parseLong` throws |
| CurrentLexer.Lexer.Fraction | src/popsi/lexer/Lexer.java:321-327 | records `LexerSpec.FloatToken` |
| CurrentLexer.Lexer.DecimalNumber | src/popsi/lexer/Lexer.java:317-332 | records what `LexerSpec.ScanDecimal` says |
| CurrentLexer.Lexer.Number | src/popsi/lexer/Lexer.java:280-291 | records what `LexerSpec.ScanNumber` says |
| CurrentLexer.Lexer.StringEscape | src/popsi/lexer/Lexer.java:368-383 | an escape letter after a backslash is consumed; anything else records "Escape inválido" and is consumed too; a backslash at the end of the text fails |
| CurrentLexer.Lexer.StringContent | src/popsi/lexer/Lexer.java:360-366 | one code point or one escape of a string body, one step of `LexerSpec.ScanString` |
| CurrentLexer.Lexer.StringBody | src/popsi/lexer/Lexer.java:334-358 | records what `LexerSpec.ScanString` says from the opening quote |
| CurrentLexer.Lexer.EqualPairToken | src/popsi/lexer/Lexer.java:103-140 | records what `LexerSpec.ScanEqualPair` says |
| CurrentLexer.Lexer.MinusToken | src/popsi/lexer/Lexer.java:115-117 | records what `LexerSpec.ScanMinus` says |
| CurrentLexer.Lexer.SlashOrComment | src/popsi/lexer/Lexer.java:118-128 | records what `LexerSpec.ScanSlash` says |
| CurrentLexer.Lexer.DoubledToken | src/popsi/lexer/Lexer.java:141-159 | records what `LexerSpec.ScanDoubled` says |
| CurrentLexer.Lexer.Scan | src/popsi/lexer/Lexer.java:61-187 | one scan, recording exactly what `LexerSpec.Scan` says, or failing where the source throws |
| CurrentLexer.Lexer.Lex | src/popsi/lexer/Lexer.java:15-28 | returns `LexerSpec.Lex` of the text, whose shape `LexResultShape` and `LexSucceedsIffNoErrors` give |
| LexerProperties.LongestOperator | src/popsi/lexer/Lexer.java:70-159 | the length (2, 1 or 0) of the longest operator that starts at an index, and which table it comes from |
| LexerProperties.DoubleStarts | src/popsi/lexer/Lexer.java:103-159 | each two-code-point operator starts with an `=`-pair code point followed by `=`, or is `/=`, `-=`, `->`, `..`, `&&` or `||` |
| LexerProperties.SingleInTable | src/popsi/lexer/Lexer.java:70-100 | each one-code-point punctuation mark is in the single-operator table with its kind |
| LexerProperties.SingleIsLone | src/popsi/lexer/Lexer.java:70-100 | a punctuation mark starts no two-code-point operator |
| LexerProperties.PairInSingles | src/popsi/lexer/Lexer.java:103-140 | each `=`-pair code point is a single operator with its one-code-point kind |
| LexerProperties.PairInDoubles | src/popsi/lexer/Lexer.java:103-140 | and followed by `=`, a double operator with its two-code-point kind |
| LexerProperties.SingleMunch | src/popsi/lexer/Lexer.java:70-100 | a scan at a punctuation mark emits it: the longest operator there |
| LexerProperties.EqualPairMunch | src/popsi/lexer/Lexer.java:103-140 | a scan at an `=`-pair code point emits the longest operator there |
| LexerProperties.EqualPairThenEqual | src/popsi/lexer/Lexer.java:103-140 | the same when `=` follows |
| LexerProperties.EqualPairAlone | src/popsi/lexer/Lexer.java:103-140 | the same when `=` does not follow |
| LexerProperties.MinusMunch | src/popsi/lexer/Lexer.java:115-117 | `-` munches `-=` and `->` |
| LexerProperties.SlashMunch | src/popsi/lexer/Lexer.java:118-128 | `/` not followed by `/` munches `/=` |
| LexerProperties.DotMunch | src/popsi/lexer/Lexer.java:141-143 | `.` munches `..` |
| LexerProperties.AmpersandMunch | src/popsi/lexer/Lexer.java:144-151 | `&&` is one AND; a lone `&` records its error and no token |
| LexerProperties.BarMunch | src/popsi/lexer/Lexer.java:152-159 | `||` is one OR; a lone `|` records its error and no token |
| LexerProperties.MaximalMunch | src/popsi/lexer/Lexer.java:70-159 | wherever an operator starts, other than `//`, the scan emits the longest operator there, or the lone-`&`/`|` error |
| LexerProperties.CommentEmitsNothing | src/popsi/lexer/Lexer.java:118-124 | `//` runs up to the next newline or the end, not including it, records nothing and moves the lexeme start there |
| LexerProperties.WhitespaceEmitsNothing | src/popsi/lexer/Lexer.java:161-168 | a run of white space is consumed whole and records nothing |
| LexerProperties.IdentifierOrKeyword | src/popsi/lexer/Lexer.java:229-278 | an identifier takes every identifier-part code point after its first, and its kind is the keyword's iff the lexeme is a keyword, else IDENTIFIER |
| LexerProperties.KeywordKindSpelled | src/popsi/lexer/Lexer.java:236-273 | each keyword's kind spells that keyword, so different keywords get different kinds |
| LexerProperties.HexLiteral | src/popsi/lexer/Lexer.java:282-283 | `0x` takes the longest run of hex digits and emits an INTEGER of their value, or crashes where `Long.parseLong` throws |
| LexerProperties.BinaryLiteral | src/popsi/lexer/Lexer.java:284-285 | the same for `0b` and binary digits |
| LexerProperties.OctalLiteral | src/popsi/lexer/Lexer.java:286-287 | the same for `0o` and octal digits |
| LexerProperties.DecimalNumber | src/popsi/lexer/Lexer.java:288-290 | without a radix prefix a number is a decimal literal |
| LexerProperties.DecimalCases | src/popsi/lexer/Lexer.java:321-331 | a decimal literal is a FLOAT iff a `.` and a digit follow its integer digits, else an INTEGER |
| LexerProperties.ScanIsNumber | src/popsi/lexer/Lexer.java:176-177 | a digit begins a number literal |
| LexerProperties.IntegerPart | src/popsi/lexer/Lexer.java:318-320 | the end of the maximal run of decimal digits |
| LexerProperties.FractionEnd | src/popsi/lexer/Lexer.java:323-325 | the end of the maximal run of fraction digits |
| LexerProperties.FloatLiteralScan | src/popsi/lexer/Lexer.java:317-327 | digits, `.` and a digit make one FLOAT taking every digit after the `.`, with its lexeme as value |
| LexerProperties.IntegerLiteralScan | src/popsi/lexer/Lexer.java:328-331 | digits not followed by `.` and a digit make one INTEGER of their value, or a crash above Long.MAX_VALUE |
| LexerProperties.StringLiteralScan | src/popsi/lexer/Lexer.java:170-172 | a quote begins a string literal of the shape `ScanStringShape` gives |
| LexerProperties.ScanStringSkipsPlain | src/popsi/lexer/Lexer.java:335-341 | plain content is read over without recording anything |
| LexerProperties.ClosedPlainString | src/popsi/lexer/Lexer.java:334-358 | a quote, plain content and a quote make one STRING token whose value is the content |
| LexerProperties.UnclosedPlainString | src/popsi/lexer/Lexer.java:335-347 | a quote and plain content up to a newline or the end record "String não fechada" at the quote and no token |
| LexerProperties.InvalidEscapeStillEmits | src/popsi/lexer/Lexer.java:334-383 | a backslash before a code point that no escape uses, between plain contents and quotes, records "Escape inválido" once, at the quote, and the STRING token is still emitted, its value the body as written |
| LexerProperties.InvalidEscapeSkipped | src/popsi/lexer/Lexer.java:334-383 | the string loop reads over such a body to the closing quote, with that one error recorded |
| LexerProperties.InvalidEscapeExample | src/popsi/lexer/Lexer.java:334-383 | `"\q"` records "Escape inválido" and still emits its STRING token |
| LexerProperties.PosAtFirstLine | src/popsi/lexer/Lexer.java:189-199 | without a newline before it, the position after k code points is column k + 1 of line 1 |
| LexerProperties.RangeFirstScan | src/popsi/lexer/Lexer.java:317-331 | in `1..5`, the first scan emits the INTEGER 1 |
| LexerProperties.RangeLastScan | src/popsi/lexer/Lexer.java:317-331 | and the last one the INTEGER 5 |
| LexerProperties.RangeDotDotScan | src/popsi/lexer/Lexer.java:141-143 | and the middle one DOT_DOT |
| LexerProperties.RangeFirstSteps | src/popsi/lexer/Lexer.java:18-20 | the first two turns of the loop over `1..5` record the INTEGER and the DOT_DOT |
| LexerProperties.RangeLexesAsIntegers | src/popsi/lexer/Lexer.java:15-28 | `1..5` lexes as INTEGER 1, DOT_DOT, INTEGER 5 and EOF |
| LexerProperties.HexScan | src/popsi/lexer/Lexer.java:282-298 | the scan of `0xff` |
| LexerProperties.HexExamples | src/popsi/lexer/Lexer.java:282-298 | `0xff` lexes as one INTEGER of value 255 and EOF; `0x` with no digit crashes |
| LegacyLexerSpec.PosAt | src/popsi/Lexer.java:247-257 | the position after k code points, only a carriage return starting a new line; stated by LegacyLexerSpec.LinesCountCarriageReturns |
| LegacyLexerSpec.KeywordKind | src/popsi/Lexer.java:287-304 | the keyword kind of a lexeme, else IDENTIFIER; stated by LegacyLexerProperties.KeywordTable |
| LegacyLexerSpec.LexRun | src/popsi/Lexer.java:16-26 | the loop of `lex`: a token added or an error recorded per round, until EOF; stated by LegacyLexerProperties.LexRunRaised and the lemmas after it |
| LegacyLexerSpec.Lex | src/popsi/Lexer.java:12-32 | the tokens if nothing was raised, else the errors; stated by LegacyLexerProperties.LexOfRun and LegacyLexerProperties.LexShape |
| LegacyLexerSpec.LinesCountCarriageReturns | src/popsi/Lexer.java:247-257 | the line is one more than the number of carriage returns (Character.LINE_SEPARATOR, 13) before the position |
| LegacyLexerSpec.ScanEqualPair | src/popsi/Lexer.java:109-148 | an `=`-pair code point: the two-code-point kind when `=` follows, else the one-code-point kind |
| LegacyLexerSpec.ScanSlash | src/popsi/Lexer.java:149-162 | `/=` or `/` where no comment starts |
| LegacyLexerSpec.ScanDoubled | src/popsi/Lexer.java:195-219 | `..` or `.`, `&&` or `||`; a lone `&` or `|` raises |
| LegacyLexerSpec.ScanSymbol | src/popsi/Lexer.java:86-219 | the operator or punctuation mark at the index; `->` is not one |
| LegacyLexerSpec.ScanIdentifier | src/popsi/Lexer.java:279-305 | the longest run of identifier-part code points; a keyword kind only for the seven keywords |
| LegacyLexerSpec.IntegerToken | src/popsi/Lexer.java:318-319 | the INTEGER token, or a crash where `Long.parseLong` throws |
| LegacyLexerSpec.ScanRadix | src/popsi/Lexer.java:309-339 | the digits of the radix, which must be followed by white space or the end, else "Literal numérico inválido" is raised |
| LegacyLexerSpec.ScanDecimal | src/popsi/Lexer.java:340-357 | decimal digits; a `.` after them must be followed by a digit and makes a FLOAT |
| LegacyLexerSpec.DecimalCases | src/popsi/Lexer.java:340-357 | the FLOAT and INTEGER cases of a decimal literal, step by step |
| LegacyLexerSpec.ScanFraction | src/popsi/Lexer.java:344-353 | the digits after the `.`: at least one, else "esperava dígito após o ponto" is raised |
| LegacyLexerSpec.ScanNumber | src/popsi/Lexer.java:307-376 | a number literal from its first digit |
| LegacyLexerSpec.ScanString | src/popsi/Lexer.java:378-418 | the body of a string: newlines allowed; the end makes the closing `match` raise; a closing quote emits the decoded STRING |
| LegacyLexerSpec.SkipInvalidEscape | src/popsi/Lexer.java:392-405 | an invalid escape consumes through the closing quote and raises "Escape inválido" at the backslash, or the failed match's error at the end |
| LegacyLexerSpec.ScanStringLiteral | src/popsi/Lexer.java:230-233 | the string literal from its opening quote |
| LegacyLexerSpec.ScanToken | src/popsi/Lexer.java:86-244 | one token or one raised error from a code point that is neither white space nor a comment |
| LegacyLexerSpec.Scan | src/popsi/Lexer.java:77-245 | `scan`: the EOF token at the end; white space and comments consumed and the scan started over after them; otherwise one token or one raised error |
| LegacyLexer.Lexer.constructor | src/popsi/Lexer.java:69-75 | a lexer at index 0, position 1:1 |
| LegacyLexer.Lexer.AtEof | src/popsi/Lexer.java:438-440 | whether the cursor is at the end |
| LegacyLexer.Lexer.Peek | src/popsi/Lexer.java:271-277 | the next code point, or "" |
| LegacyLexer.Lexer.PeekIs | src/popsi/Lexer.java:271-277 | whether the next code point is the given one |
| LegacyLexer.Lexer.PeekMatches | src/popsi/Lexer.java:312 | whether the next code point is in a one-character class |
| LegacyLexer.Lexer.Next | src/popsi/Lexer.java:247-257 | consumes one code point; only LINE_SEPARATOR (13) moves to the next line |
| LegacyLexer.Lexer.Match | src/popsi/Lexer.java:259-269 | consumes the expected code point; at the end, or on another code point (which it consumes), the error it raises, one column back |
| LegacyLexer.Lexer.Skip | src/popsi/Lexer.java:312-314 | consumes code points up to `LexerSpec.Span` |
| LegacyLexer.Lexer.Token | src/popsi/Lexer.java:442-449 | the token spelling the current lexeme at the current position |
| LegacyLexer.Lexer.Emitting | src/popsi/Lexer.java:442-449 | that token as a scan outcome |
| LegacyLexer.Lexer.Thrown | src/popsi/Lexer.java:42-53 | a raised error: LEXICAL, at the start of the lexeme |
| LegacyLexer.Lexer.Identifier | src/popsi/Lexer.java:279-305 | returns what `LegacyLexerSpec.ScanIdentifier` says |
| LegacyLexer.Lexer.IntegerToken | src/popsi/Lexer.java:318-319 | returns `LegacyLexerSpec.IntegerToken` |
| LegacyLexer.Lexer.RadixNumber | src/popsi/Lexer.java:309-339 | returns what `LegacyLexerSpec.ScanRadix` says |
| LegacyLexer.Lexer.DecimalNumber | src/popsi/Lexer.java:340-357 | returns what `LegacyLexerSpec.ScanDecimal` says |
| LegacyLexer.Lexer.Fraction | src/popsi/Lexer.java:344-353 | returns what `LegacyLexerSpec.ScanFraction` says |
| LegacyLexer.Lexer.Number | src/popsi/Lexer.java:307-376 | returns what `LegacyLexerSpec.ScanNumber` says |
| LegacyLexer.Lexer.InvalidEscape | src/popsi/Lexer.java:392-405 | returns what `LegacyLexerSpec.SkipInvalidEscape` says |
| LegacyLexer.Lexer.StringBody | src/popsi/Lexer.java:378-418 | returns what `LegacyLexerSpec.ScanString` says |
| LegacyLexer.Lexer.CloseString | src/popsi/Lexer.java:412-417 | the closing quote and the STRING token, or the failed match's error |
| LegacyLexer.Lexer.EqualPairToken | src/popsi/Lexer.java:109-194 | returns what `LegacyLexerSpec.ScanEqualPair` says |
| LegacyLexer.Lexer.DoubledToken | src/popsi/Lexer.java:195-219 | returns what `LegacyLexerSpec.ScanDoubled` says |
| LegacyLexer.Lexer.SlashOrComment | src/popsi/Lexer.java:149-162 | `/=`, a comment and the scan started over, or `/` |
| LegacyLexer.Lexer.Comment | src/popsi/Lexer.java:154-159 | a comment consumed up to the newline, then the scan started over |
| LegacyLexer.Lexer.TokenAfter | src/popsi/Lexer.java:86-244 | returns what `LegacyLexerSpec.ScanToken` says |
| LegacyLexer.Lexer.Scan | src/popsi/Lexer.java:77-245 | returns what `LegacyLexerSpec.Scan` says |
| LegacyLexer.Lexer.Lex | src/popsi/Lexer.java:12-32 | returns `LegacyLexerSpec.Lex` of the text |
| LegacyLexerProperties.LexRunRaised | src/popsi/Lexer.java:23-25 | a raised error is recorded and scanning goes on where the scan stopped |
| LegacyLexerProperties.LexRunEmitted | src/popsi/Lexer.java:18-19 | a token other than EOF is added and scanning goes on |
| LegacyLexerProperties.LexRunEof | src/popsi/Lexer.java:20-22 | the EOF token is added and the loop ends |
| LegacyLexerProperties.LexOfRun | src/popsi/Lexer.java:27-31 | `lex` returns the tokens of a finished run without errors, else its errors |
| LegacyLexerProperties.LexRunKeepsTokens | src/popsi/Lexer.java:16-26 | a finished run keeps the earlier tokens and adds at least one |
| LegacyLexerProperties.LexRunKeepsErrors | src/popsi/Lexer.java:16-26 | a finished run keeps the earlier errors |
| LegacyLexerProperties.LexRunEndsAtEof | src/popsi/Lexer.java:16-26 | a finished run ends with the EOF token and has no other |
| LegacyLexerProperties.LexShape | src/popsi/Lexer.java:12-32 | `lex` succeeds exactly when no error was raised, returning tokens whose last and only last is EOF; otherwise at least one error |
| LegacyLexerProperties.LongestOperator | src/popsi/Lexer.java:86-219 | the length of the longest operator at an index, and its table |
| LegacyLexerProperties.DoubleStarts | src/popsi/Lexer.java:109-219 | the first code points of the two-code-point operators and what follows them |
| LegacyLexerProperties.SingleInTable | src/popsi/Lexer.java:86-106 | each punctuation mark is a single operator and starts no double one |
| LegacyLexerProperties.SingleIsLone | src/popsi/Lexer.java:86-106 | a punctuation mark is not an `=`-pair and no other symbol starts with it |
| LegacyLexerProperties.PairInSingles | src/popsi/Lexer.java:109-194 | each `=`-pair code point is a single operator |
| LegacyLexerProperties.PairInDoubles | src/popsi/Lexer.java:109-194 | and followed by `=`, a double one |
| LegacyLexerProperties.SingleMunch | src/popsi/Lexer.java:86-106 | a punctuation mark is emitted alone |
| LegacyLexerProperties.EqualPairMunch | src/popsi/Lexer.java:109-194 | an `=`-pair code point emits the longest operator there |
| LegacyLexerProperties.EqualPairThenEqual | src/popsi/Lexer.java:109-194 | the same when `=` follows |
| LegacyLexerProperties.EqualPairAlone | src/popsi/Lexer.java:109-194 | the same when `=` does not follow |
| LegacyLexerProperties.SlashMunch | src/popsi/Lexer.java:149-162 | `/` not followed by `/` munches `/=` |
| LegacyLexerProperties.DotMunch | src/popsi/Lexer.java:195-203 | `.` munches `..` |
| LegacyLexerProperties.AmpersandMunch | src/popsi/Lexer.java:204-211 | `&&` is one AND; a lone `&` raises |
| LegacyLexerProperties.BarMunch | src/popsi/Lexer.java:212-219 | `||` is one OR; a lone `|` raises |
| LegacyLexerProperties.MaximalMunch | src/popsi/Lexer.java:86-219 | wherever an operator starts, other than `//`, the scan emits the longest operator there or raises for a lone `&` or `|` |
| LegacyLexerProperties.ArrowIsTwoTokens | src/popsi/Lexer.java:141-148 | with no ARROW kind, `->` scans as MINUS, then GREATER |
| LegacyLexerProperties.LoneAmpersandRaises | src/popsi/Lexer.java:204-211 | a lone `&` raises the message asking for `&&`, at the `&` |
| LegacyLexerProperties.LoneBarRaises | src/popsi/Lexer.java:212-219 | a lone `|` raises the message asking for `||`, at the `|` |
| LegacyLexerProperties.CommentSkipped | src/popsi/Lexer.java:154-159 | a comment is skipped to the newline (not included) or the end, and the scan starts over there |
| LegacyLexerProperties.WhitespaceSkipped | src/popsi/Lexer.java:221-228 | a run of white space is skipped whole and the scan starts over after it |
| LegacyLexerProperties.KeywordTable | src/popsi/Lexer.java:287-304 | a lexeme gets a keyword kind iff it is one of fn, let, for, while, return, if, debug, and that kind spells it |
| LegacyLexerProperties.NewerKeywordsAreIdentifiers | src/popsi/Lexer.java:287-304 | rec, else, in, true and false are identifiers here |
| LegacyLexerProperties.IdentifierOrKeyword | src/popsi/Lexer.java:279-305 | an identifier takes every identifier-part code point; keyword kind iff one of the seven |
| LegacyLexerProperties.RadixNeedsSeparator | src/popsi/Lexer.java:309-339 | radix digits followed by anything but white space or the end raise "Literal numérico inválido" at the literal |
| LegacyLexerProperties.HexBeforeSemicolonRaises | src/popsi/Lexer.java:315-317 | `0x10;` raises |
| LegacyLexerProperties.HexThenSpace | src/popsi/Lexer.java:310-319 | `0xff` followed by white space is the INTEGER 255 |
| LegacyLexerProperties.PointNeedsDigit | src/popsi/Lexer.java:344-348 | a `.` not followed by a digit raises at the literal's start, with the cursor after the `.` |
| LegacyLexerProperties.FloatLiteralScan | src/popsi/Lexer.java:344-353 | digits, `.` and a digit make one FLOAT taking every digit after the `.` |
| LegacyLexerProperties.PosAtFirstLine | src/popsi/Lexer.java:247-257 | without a carriage return before it, the position after k code points is column k + 1 of line 1 |
| LegacyLexerProperties.RangeFirstScan | src/popsi/Lexer.java:344-348 | the first scan of `1..5` raises at the 1, the cursor after the first `.` |
| LegacyLexerProperties.RangeDotScan | src/popsi/Lexer.java:195-203 | the next scan of `1..5` emits a DOT |
| LegacyLexerProperties.RangeLastScan | src/popsi/Lexer.java:340-357 | then the INTEGER 5 |
| LegacyLexerProperties.RangeEofScan | src/popsi/Lexer.java:80-82 | then the EOF token |
| LegacyLexerProperties.RangeRunAfterError | src/popsi/Lexer.java:16-26 | after the error the loop records a DOT, an INTEGER and EOF |
| LegacyLexerProperties.RangeIsRejected | src/popsi/Lexer.java:12-32 | `lex("1..5")` returns the one error |
| LegacyLexerProperties.ScanStringSkipsPlain | src/popsi/Lexer.java:390-411 | plain content is read over without anything happening |
| LegacyLexerProperties.ClosedPlainString | src/popsi/Lexer.java:378-418 | a quote, plain content (newlines included) and a quote make one STRING whose value is the content |
| LegacyLexerProperties.UnclosedPlainString | src/popsi/Lexer.java:259-263 | plain content up to the end raises the "fim do arquivo" error, one column back from the end |
| LegacyLexerProperties.InvalidEscapeRaises | src/popsi/Lexer.java:392-405 | after a quote and plain content, a backslash before a code point that no escape uses consumes the literal through the next quote and raises "Escape inválido" at the backslash, with no STRING token; with no quote left, the failed `match` raises at the end instead |
| LegacyLexerProperties.InvalidEscapeExample | src/popsi/Lexer.java:392-405 | `"\q"` raises "Escape inválido" at column 2 of line 1, the backslash |
| LegacyLexerProperties.InvalidEscapeLexes | src/popsi/Lexer.java:12-32 | `lex` of that literal returns the one error |
| LegacyLexerProperties.OnlyCarriageReturnStartsALine | src/popsi/Lexer.java:247-257 | a line feed moves one column on; a carriage return starts a new line |
| ParserSpec.SpelledAtIsSpells | src/popsi/parser/Parser.java:514-524 | the index form of "these tokens spell this type" agrees with the slice form |
| ParserSpec.SpellingDeterminesType | src/popsi/parser/Parser.java:514-524 | the tokens a type rule consumed determine the type it returned |
| ParserSpec.TokenAfter | src/popsi/parser/Parser.java:92-96 | the token after the cursor, or the final EOF past the end |
| ParserSpec.Next | src/popsi/parser/Parser.java:82-86 | advances one token, except at EOF; errors kept |
| ParserSpec.Match | src/popsi/parser/Parser.java:98-106 | consumes the current token iff its kind is one of those given, never past EOF |
| ParserSpec.RecordError | src/popsi/parser/Parser.java:121-124 | appends one SYNTATIC error at the current token; the cursor does not move |
| ParserSpec.Consume | src/popsi/parser/Parser.java:108-112 | consumes a token of the kind, or records "message, found lexeme" at it and does not move |
| ParserSpec.RecoverFunction | src/popsi/parser/Parser.java:126-135 | skips the failing token and stops at the next `fn` or EOF, with no `fn` skipped |
| ParserSpec.SkipToFunction | src/popsi/parser/Parser.java:128-134 | stops at the first `fn` or EOF from the cursor on |
| ParserSpec.RecoverStmt | src/popsi/parser/Parser.java:137-153 | skips tokens until the previous one is `;` or EOF; stopping at a statement keyword with no `;` before it is a hang, because the source loops forever there |
| ParserSpec.SkipStatement | src/popsi/parser/Parser.java:140-152 | skips only tokens that neither follow `;` nor start a statement |
| ParserSpec.Type | src/popsi/parser/Parser.java:514-524 | a parsed type is spelled by exactly the tokens consumed; a token that is neither a name nor `[` records "Esperado tipo" |
| ParserSpec.Annotation | src/popsi/parser/Parser.java:175-177 | `name : type`: the name is the first token and the type is spelled after the colon; a first token that is not a name records the given message |
| ParserSpec.Parameters | src/popsi/parser/Parser.java:171-182 | empty iff the next token is `)`, and then nothing is consumed; a failure records an error |
| ParserSpec.ParameterList | src/popsi/parser/Parser.java:173-180 | each round adds at least one parameter and consumes tokens |
| ParserSpec.RecField | src/popsi/parser/Parser.java:223-230 | `let name : type ;`: the name is the token after `let`, the type is spelled by the tokens after the colon, and exactly 4 + its width tokens are consumed |
| ParserSpec.Rec | src/popsi/parser/Parser.java:184-195 | the name is the first token, `{` follows it, `}` is the last token consumed |
| ParserSpec.RecFields | src/popsi/parser/Parser.java:187-193 | fields up to `}`, the record named as given |
| ParserSpec.Function | src/popsi/parser/Parser.java:155-169 | starts with `fn`; the name is the identifier after it, `(` follows, `}` is the last token consumed |
| ParserSpec.FunctionSignature | src/popsi/parser/Parser.java:158-168 | from `(`: the function keeps the given name, `}` ends it |
| ParserSpec.FunctionTail | src/popsi/parser/Parser.java:162-168 | keeps name and parameters; a return type iff `->` follows `)` |
| ParserSpec.FunctionBody | src/popsi/parser/Parser.java:167-168 | keeps name, parameters and return type; the body starts at `{` and ends at `}` |
| ParserSpec.Block | src/popsi/parser/Parser.java:203-221 | `{ ... }`; the last statement becomes the tail iff there is one and it did not consume `;` |
| ParserSpec.Statements | src/popsi/parser/Parser.java:205-219 | the statements up to `}`, with the same tail rule |
| ParserSpec.CloseBlock | src/popsi/parser/Parser.java:214-220 | consumes `}`; the statements are kept and the tail is taken iff the last did not eat `;` |
| ParserSpec.Statement | src/popsi/parser/Parser.java:232-239 | a declaration iff it starts with `let`; it records whether its last token is `;` |
| ParserSpec.Declaration | src/popsi/parser/Parser.java:241-255 | a declaration that ends with `;` |
| ParserSpec.DeclarationEnd | src/popsi/parser/Parser.java:251-254 | the declaration of exactly the given name, type and value, closed by `;` |
| ParserSpec.ExprStmt | src/popsi/parser/Parser.java:257-277 | an expression statement; a blockless one needs `;` unless `}` follows |
| ParserSpec.Expression | src/popsi/parser/Parser.java:279-284 | consumes tokens when it parses, records an error when it fails |
| ParserSpec.BlockExpression | src/popsi/parser/Parser.java:286-294 | the node kind follows the first token: if, while, for, else a block |
| ParserSpec.IfExpression | src/popsi/parser/Parser.java:296-304 | an `if` node |
| ParserSpec.Loop | src/popsi/parser/Parser.java:306-315 | a while iff the first token is `while`, a for iff it is `for` |
| ParserSpec.ForExpression | src/popsi/parser/Parser.java:317-325 | the variable and its type are the annotation at the start, followed by `in` |
| ParserSpec.ForRange | src/popsi/parser/Parser.java:321-324 | a `for` node with the given variable and type, at `in` |
| ParserSpec.WhileExpression | src/popsi/parser/Parser.java:327-331 | a `while` node |
| ParserSpec.BlocklessExpression | src/popsi/parser/Parser.java:333-341 | a return node at `return`, a debug node at `debug` |
| ParserSpec.Attribution | src/popsi/parser/Parser.java:343-353 | no assignment operator follows a parsed attribution |
| ParserSpec.Range | src/popsi/parser/Parser.java:355-363 | consumes tokens when it parses, records an error when it fails; what it builds is stated by ParserProperties.RangeAlone and RangeJoinsTwo |
| ParserSpec.Operand | src/popsi/parser/Parser.java:365-433 | consumes tokens when it parses, records an error when it fails |
| ParserSpec.Binary | src/popsi/parser/Parser.java:365-423 | none of the level's operators follows a parsed expression |
| ParserSpec.BinaryTail | src/popsi/parser/Parser.java:367-372 | none of the level's operators follows; what it consumed does not end in `;` |
| ParserSpec.Exponent | src/popsi/parser/Parser.java:425-433 | no `^` follows a parsed exponent |
| ParserSpec.Unary | src/popsi/parser/Parser.java:435-442 | at a prefix operator, a unary node whose operator is that token |
| ParserSpec.Call | src/popsi/parser/Parser.java:444-461 | no `(`, `[` or `.` follows a parsed call |
| ParserSpec.CallTail | src/popsi/parser/Parser.java:446-459 | no suffix opener follows; what it consumed does not end in `;` |
| ParserSpec.Suffix | src/popsi/parser/Parser.java:446-458 | an index iff the opener is `[`, arguments iff it is `(`; ends at `]`, `)` or a name |
| ParserSpec.Primary | src/popsi/parser/Parser.java:463-478 | a literal token gives that literal, a name that variable, `[` a list; anything else records "Esperada expressão" and the lexeme |
| ParserSpec.ArgList | src/popsi/parser/Parser.java:480-488 | empty iff the next token is `)`, and then nothing is consumed |
| ParserSpec.ArgumentList | src/popsi/parser/Parser.java:481-487 | each round adds at least one argument |
| ParserSpec.Argument | src/popsi/parser/Parser.java:490-502 | labelled iff an identifier is followed by `:`, the label being that identifier |
| ParserSpec.ListItems | src/popsi/parser/Parser.java:504-512 | empty iff the next token is `]`, and then nothing is consumed |
| ParserSpec.ItemList | src/popsi/parser/Parser.java:505-511 | each round adds at least one item |
| ParserSpec.ParseItem | src/popsi/parser/Parser.java:44-55 | one record or function; a failure records an error and recovery moves past it |
| ParserSpec.ParseItems | src/popsi/parser/Parser.java:43-56 | the errors only grow; the result is an error iff some error was recorded, and then exactly those errors; a hang has recorded one more error |
| ParserSpec.Parse | src/popsi/parser/Parser.java:39-63 | only SYNTATIC errors; unless it hangs, the result is an error iff some error was recorded, and then exactly those; a hang has recorded an error; a bare EOF gives the empty program |
| Parser.Parser.constructor | src/popsi/parser/Parser.java:71-75 | cursor 0, no errors |
| Parser.Parser.Next | src/popsi/parser/Parser.java:82-86 | the new cursor state is `ParserSpec.Next` of the old one |
| Parser.Parser.AtEof | src/popsi/parser/Parser.java:78-80 | true iff the current token is the end-of-file token |
| Parser.Parser.Peek | src/popsi/parser/Parser.java:88-90 | the current token, without consuming it |
| Parser.Parser.PeekNext | src/popsi/parser/Parser.java:92-96 | the token after the current one, or the final end-of-file token when there is none |
| Parser.Parser.Previous | src/popsi/parser/Parser.java:115-117 | the token just before the cursor; only asked for after a token was consumed |
| Parser.Parser.Match | src/popsi/parser/Parser.java:98-106 | result and new state are `ParserSpec.Match` of the old state |
| Parser.Parser.RecordError | src/popsi/parser/Parser.java:121-124 | the new state is `ParserSpec.RecordError` of the old one |
| Parser.Parser.Consume | src/popsi/parser/Parser.java:108-112 | result, token and new state are `ParserSpec.Consume` of the old state |
| Parser.Parser.RecoverFunction | src/popsi/parser/Parser.java:126-135 | the new state is `ParserSpec.RecoverFunction` of the old one |
| Parser.Parser.RecoverStmt | src/popsi/parser/Parser.java:137-153 | hang flag and new state are `ParserSpec.RecoverStmt` of the old state |
| Parser.Parser.Type | src/popsi/parser/Parser.java:514-524 | outcome and new state are `ParserSpec.Type` of the old state |
| Parser.Parser.Annotation | src/popsi/parser/Parser.java:175-177 | result and new state are `ParserSpec.Annotation` of the old state |
| Parser.Parser.Parameters | src/popsi/parser/Parser.java:171-182 | outcome and new state are `ParserSpec.Parameters` of the old state |
| Parser.Parser.RecField | src/popsi/parser/Parser.java:223-230 | outcome and new state are `ParserSpec.RecField` of the old state |
| Parser.Parser.Rec | src/popsi/parser/Parser.java:184-195 | outcome and new state are `ParserSpec.Rec` of the old state |
| Parser.Parser.Function | src/popsi/parser/Parser.java:155-169 | outcome and new state are `ParserSpec.Function` of the old state |
| Parser.Parser.Block | src/popsi/parser/Parser.java:203-221 | outcome and new state are `ParserSpec.Block` of the old state |
| Parser.Parser.Statement | src/popsi/parser/Parser.java:232-239 | outcome and new state are `ParserSpec.Statement` of the old state |
| Parser.Parser.Declaration | src/popsi/parser/Parser.java:241-255 | outcome and new state are `ParserSpec.Declaration` of the old state |
| Parser.Parser.ExprStmt | src/popsi/parser/Parser.java:257-277 | outcome and new state are `ParserSpec.ExprStmt` of the old state |
| Parser.Parser.Expression | src/popsi/parser/Parser.java:279-284 | outcome and new state are `ParserSpec.Expression` of the old state |
| Parser.Parser.BlockExpression | src/popsi/parser/Parser.java:286-294 | outcome and new state are `ParserSpec.BlockExpression` of the old state |
| Parser.Parser.IfExpression | src/popsi/parser/Parser.java:296-304 | outcome and new state are `ParserSpec.IfExpression` of the old state |
| Parser.Parser.Loop | src/popsi/parser/Parser.java:306-315 | outcome and new state are `ParserSpec.Loop` of the old state |
| Parser.Parser.ForExpression | src/popsi/parser/Parser.java:317-325 | outcome and new state are `ParserSpec.ForExpression` of the old state |
| Parser.Parser.WhileExpression | src/popsi/parser/Parser.java:327-331 | outcome and new state are `ParserSpec.WhileExpression` of the old state |
| Parser.Parser.BlocklessExpression | src/popsi/parser/Parser.java:333-341 | outcome and new state are `ParserSpec.BlocklessExpression` of the old state |
| Parser.Parser.Attribution | src/popsi/parser/Parser.java:343-353 | outcome and new state are `ParserSpec.Attribution` of the old state |
| Parser.Parser.Range | src/popsi/parser/Parser.java:355-363 | outcome and new state are `ParserSpec.Range` of the old state |
| Parser.Parser.Operand | src/popsi/parser/Parser.java:365-433 | outcome and new state are `ParserSpec.Operand` of the old state at the same level |
| Parser.Parser.Binary | src/popsi/parser/Parser.java:365-423 | the loop's outcome and new state are `ParserSpec.Binary` of the old state |
| Parser.Parser.BinaryStep | src/popsi/parser/Parser.java:367-372 | one round of the loop: it either ends with `ParserSpec.BinaryTail`'s result or folds one operand in, consuming tokens, so that the rest of the fold is unchanged |
| Parser.Parser.Exponent | src/popsi/parser/Parser.java:425-433 | outcome and new state are `ParserSpec.Exponent` of the old state |
| Parser.Parser.Unary | src/popsi/parser/Parser.java:435-442 | outcome and new state are `ParserSpec.Unary` of the old state |
| Parser.Parser.Call | src/popsi/parser/Parser.java:444-461 | the loop's outcome and new state are `ParserSpec.Call` of the old state |
| Parser.Parser.CallStep | src/popsi/parser/Parser.java:446-459 | one round of the loop: it either ends with `ParserSpec.CallTail`'s result or applies one suffix, consuming tokens, so that the rest of the loop is unchanged |
| Parser.Parser.Suffix | src/popsi/parser/Parser.java:446-458 | outcome and new state are `ParserSpec.Suffix` of the old state |
| Parser.Parser.Primary | src/popsi/parser/Parser.java:463-478 | outcome and new state are `ParserSpec.Primary` of the old state |
| Parser.Parser.ArgList | src/popsi/parser/Parser.java:480-488 | outcome and new state are `ParserSpec.ArgList` of the old state |
| Parser.Parser.Argument | src/popsi/parser/Parser.java:490-502 | outcome and new state are `ParserSpec.Argument` of the old state |
| Parser.Parser.ListItems | src/popsi/parser/Parser.java:504-512 | outcome and new state are `ParserSpec.ListItems` of the old state |
| Parser.Parser.Parse | src/popsi/parser/Parser.java:39-63 | the outcome, with the errors recorded along the way, is `ParserSpec.Parse` of the tokens |
| ParserProperties.LeftAssociative | src/popsi/parser/Parser.java:365-373 | `a op b op c` at one binary level parses as `((a op b) op c)` and stops after `c` |
| ParserProperties.ExponentNestsRight | src/popsi/parser/Parser.java:425-433 | `a ^ b ^ c` parses as `(a ^ (b ^ c))` |
| ParserProperties.AssignmentNestsRight | src/popsi/parser/Parser.java:343-353 | `a = b = c` (any assignment operators) parses as `(a = (b = c))` |
| ParserProperties.SuffixesInOrder | src/popsi/parser/Parser.java:444-461 | two postfix suffixes apply in source order: the second wraps the first |
| ParserProperties.RangeAlone | src/popsi/parser/Parser.java:355-363 | an OR-level operand with no `..` after it is the whole range |
| ParserProperties.RangeJoinsTwo | src/popsi/parser/Parser.java:355-363 | `a .. b` is `RangeExpression(a, b)` ending where `b` ends: `..` joins at most two operands, and a second `..` after `b` is left unconsumed |
| ParserProperties.Dispatch | src/popsi/parser/Parser.java:279-441 | which rule each level hands over to: expression to block or blockless expression, blockless to attribution, unary to call, each binary level to the next tighter one and factor to exponent |
| ParserProperties.ParameterListSpelled | src/popsi/parser/Parser.java:173-180 | the parameters added are written `name : type` separated by `,` from the cursor on, exactly over the tokens consumed, with no `,` after |
| ParserProperties.ParameterListSpelledOnComma | src/popsi/parser/Parser.java:173-178 | when `,` follows a parameter, the list read after the `,` extends to the parameters written from the first one on |
| ParserProperties.ParameterListSpelledLast | src/popsi/parser/Parser.java:173-178 | when no `,` follows a parameter, it is the last one read and the next token is not `,` |
| ParserProperties.ParameterListUnfoldsOnComma | src/popsi/parser/Parser.java:174-178 | a parameter, then `,`: the list goes on three tokens plus the type's width further |
| ParserProperties.ParameterListCons | src/popsi/parser/Parser.java:173-178 | a parameter and `,` in front of parameters written after them are written as one list |
| ParserProperties.ParametersAtCons | src/popsi/parser/Parser.java:173-178 | the width of a list is that of its first parameter, the `,` and the rest |
| ParserProperties.ParametersSpelled | src/popsi/parser/Parser.java:171-182 | every parsed parameter's name and type are the tokens at its place in the list |
| ParserProperties.RecFieldsSpelled | src/popsi/parser/Parser.java:187-193 | the fields added are written `let name : type ;` one after another up to `}` |
| ParserProperties.RecFieldsUnfoldsOnField | src/popsi/parser/Parser.java:188-190 | before a field, the loop reads it and goes on after it with the field added |
| ParserProperties.RecFieldsSpelledOnField | src/popsi/parser/Parser.java:188-190 | a field read in one round and the fields read after it are written one after another |
| ParserProperties.FieldsCons | src/popsi/parser/Parser.java:188-190 | a field in front of fields written after it is written as one sequence of fields, over the sum of their widths |
| ParserProperties.RecFieldsSpelledClose | src/popsi/parser/Parser.java:188-191 | at `}` the loop adds no field and consumes the `}` |
| ParserProperties.RecSpelled | src/popsi/parser/Parser.java:184-195 | a record's name is its first token, `{` follows, then its fields exactly as written |
| ParserProperties.FunctionTailSpelled | src/popsi/parser/Parser.java:162-168 | a return type iff `->` follows, spelled by the tokens after it, and then `{` |
| ParserProperties.FunctionSignatureSpelled | src/popsi/parser/Parser.java:158-168 | `( parameters ) [-> type] {`, with the parameters and return type as written |
| ParserProperties.FunctionSignatureUnfolds | src/popsi/parser/Parser.java:158-160 | a parsed head consumed `(`, the parameters and `)`, then goes on with the tail |
| ParserProperties.FunctionHeadSpelled | src/popsi/parser/Parser.java:158-168 | from `(`, parameters as written, `)` and a parsed tail make up the function's signature |
| ParserProperties.SignatureFromParts | src/popsi/parser/Parser.java:158-168 | `(`, parameters, `)`, an optional `-> type` and `{`, one after another, are the signature |
| ParserProperties.FunctionSpelled | src/popsi/parser/Parser.java:155-169 | `fn`, the name as the next token, then the signature as written |
| ParserProperties.FunctionUnfolds | src/popsi/parser/Parser.java:155-157 | a parsed function starts with `fn` and its name, and goes on with the head after the name |
| ParserProperties.DeclarationSpelled | src/popsi/parser/Parser.java:241-255 | the name and type are the annotation's tokens; a value iff `=` follows, and it is the expression after `=`; without one `;` follows at once |
| ParserProperties.IfSpelled | src/popsi/parser/Parser.java:296-304 | condition, then block, then an else block iff `else` follows, each parsed where the previous one stopped |
| ParserProperties.WhileSpelled | src/popsi/parser/Parser.java:327-331 | the condition is the expression at the start and the body the block after it |
| ParserProperties.ForSpelled | src/popsi/parser/Parser.java:317-325 | the range is the expression after `in` and the body the block after the range |
| ParserProperties.ItemListExtends | src/popsi/parser/Parser.java:505-511 | the list parsed so far is a proper prefix of the result |
| ParserProperties.ItemListSeparated | src/popsi/parser/Parser.java:505-511 | the items added are exactly expressions separated by `,`, each parsed where the previous one stopped, and no `,` after the last |
| ParserProperties.ListItemsSeparated | src/popsi/parser/Parser.java:504-512 | a list's items are empty at `]`, otherwise expressions separated by `,` as above |
| ParserProperties.ArgumentListExtends | src/popsi/parser/Parser.java:481-487 | the arguments parsed so far are a proper prefix of the result |
| ParserProperties.ArgumentListSeparated | src/popsi/parser/Parser.java:481-487 | the arguments added are exactly arguments separated by `,`, each parsed where the previous one stopped |
| ParserProperties.ArgListSeparated | src/popsi/parser/Parser.java:480-488 | a call's arguments are empty at `)`, otherwise arguments separated by `,` as above |
| ParserProperties.ParseItemNamed | src/popsi/parser/Parser.java:44-55 | a parsed item starts with `rec` or `fn` and is named by the token after it |
| ParserProperties.ParseItemsNamed | src/popsi/parser/Parser.java:43-56 | every function and record collected is named by the identifier after a `fn` or `rec` of the input |
| ParserProperties.ParsedItemNamed | src/popsi/parser/Parser.java:43-56 | the round that parses an item: the item joins the collected ones, named like them by the identifier after its `fn` or `rec` |
| ParserProperties.ParseNamed | src/popsi/parser/Parser.java:39-63 | in a successful parse, every function's name is the identifier after some `fn` and every record's the identifier after some `rec` |
| Whitespace.Collapse | src/popsi/parser/ast/AstPrinter.java:19 | `replaceAll("\\s+", " ")`; stated by Whitespace.CollapseIsSingleSpaced and Whitespace.CollapseEnds |
| Whitespace.Trim | src/popsi/parser/ast/AstPrinter.java:19 | `trim`; stated by Whitespace.TrimStartSuffix and Whitespace.TrimEndPrefix |
| Whitespace.Normalize | src/popsi/parser/ast/AstPrinter.java:19 | collapse, then trim; stated by Whitespace.NormalizeIsNormal and Whitespace.NormalizeIdempotent |
| Whitespace.SpaceIsBlank | src/popsi/parser/ast/AstPrinter.java:19 | every `\s` code point is one `trim` strips |
| Whitespace.CollapseEnds | src/popsi/parser/ast/AstPrinter.java:19 | collapsing keeps a text empty or not and keeps the kind of each end |
| Whitespace.CollapseIsSingleSpaced | src/popsi/parser/ast/AstPrinter.java:19 | the collapsed text has only plain spaces, never two in a row |
| Whitespace.TrimStartSuffix | src/popsi/parser/ast/AstPrinter.java:19 | trimming the start leaves a suffix that does not start blank |
| Whitespace.TrimEndPrefix | src/popsi/parser/ast/AstPrinter.java:19 | trimming the end leaves a prefix that does not end blank |
| Whitespace.SliceSingleSpaced | src/popsi/parser/ast/AstPrinter.java:19 | a part of a single-spaced text is single-spaced |
| Whitespace.TrimNormal | src/popsi/parser/ast/AstPrinter.java:19 | trimming a single-spaced text gives a normal one |
| Whitespace.NormalizeIsNormal | src/popsi/parser/ast/AstPrinter.java:19 | whatever the input, the result has no blank end and single plain spaces |
| Whitespace.CollapseSingleSpaced | src/popsi/parser/ast/AstPrinter.java:19 | collapsing leaves a single-spaced text alone |
| Whitespace.NormalIsFixed | src/popsi/parser/ast/AstPrinter.java:19 | a normal text is its own normal form |
| Whitespace.NormalizeIdempotent | src/popsi/parser/ast/AstPrinter.java:19 | normalising twice is normalising once |
| Whitespace.CollapseCons | src/popsi/parser/ast/AstPrinter.java:19 | how collapsing treats the first code point |
| Whitespace.CollapseJoin | src/popsi/parser/ast/AstPrinter.java:19 | two texts that do not meet in white space collapse separately |
| Whitespace.WordIsFixed | src/popsi/parser/ast/AstPrinter.java:19 | a word (no blank code point) is left alone and is solid |
| Whitespace.SolidTrim | src/popsi/parser/ast/AstPrinter.java:19 | trimming leaves a text with no blank end alone |
| Whitespace.SolidCollapse | src/popsi/parser/ast/AstPrinter.java:19 | a solid text collapses to a solid text, which trimming keeps |
| Printer.VisitType | src/popsi/parser/ast/AstPrinter.java:80-85 | `visitType`; stated by PrinterProperties.PrintListType |
| Printer.VisitExpr | src/popsi/parser/ast/AstPrinter.java:45-70 | `visitExpression`, one case per node; stated by the PrinterProperties.Print* lemmas |
| Printer.VisitBlock | src/popsi/parser/ast/AstPrinter.java:62 | a block as `(block statements tail)`; stated by PrinterProperties.PrintEmptyBlock |
| Printer.VisitStmt | src/popsi/parser/ast/AstPrinter.java:72-78 | `visitStatement` |
| Printer.VisitProgram | src/popsi/parser/ast/AstPrinter.java:34 | `(program records... functions...)`, the records first |
| Printer.VisitRec | src/popsi/parser/ast/AstPrinter.java:35 | `(rec (name fields...))` |
| Printer.VisitFunction | src/popsi/parser/ast/AstPrinter.java:36-39 | `(fn (name parameters...) -> type body)`, the type omitted when there is none |
| Printer.VisitParameter | src/popsi/parser/ast/AstPrinter.java:40 | `(name : type)` |
| Printer.VisitField | src/popsi/parser/ast/AstPrinter.java:41 | `(let (name type))` |
| Printer.VisitArgument | src/popsi/parser/ast/AstPrinter.java:64-67 | the printed value, after `label: ` when the argument is labelled |
| Printer.Visit | src/popsi/parser/ast/AstPrinter.java:22-43 | `visit`, dispatching on the kind of node |
| Printer.Print | src/popsi/parser/ast/AstPrinter.java:17-20 | the visited text, normalised; stated by PrinterProperties.PrintIsNormal |
| Printer.Parenthesised | src/popsi/parser/ast/AstPrinter.java:88-94 | `parens` output starts with `(`, ends with `)` and has no blank end |
| Printer.Bracketed | src/popsi/parser/ast/AstPrinter.java:96-102 | `brackets` output starts with `[`, ends with `]` and has no blank end |
| Printer.Texts | src/popsi/parser/ast/AstPrinter.java:119-120 | each text as a part of its own, in order |
| Printer.StringifiedSnoc | src/popsi/parser/ast/AstPrinter.java:113-123 | stringifying one more part appends a space and its content |
| Printer.Builder.constructor | src/popsi/parser/ast/AstPrinter.java:89 | an empty builder |
| Printer.Builder.Append | src/popsi/parser/ast/AstPrinter.java:90 | appends the text |
| Printer.Builder.StringifyItems | src/popsi/parser/ast/AstPrinter.java:116 | appends each item of a list after a space |
| Printer.Builder.StringifyPart | src/popsi/parser/ast/AstPrinter.java:114-121 | appends a space, then the part: a text, a flattened list, or an optional's value after one more space |
| Printer.Builder.Stringify | src/popsi/parser/ast/AstPrinter.java:112-124 | appends exactly `Stringified(parts)` |
| Printer.Parens | src/popsi/parser/ast/AstPrinter.java:88-94 | builds exactly `Parenthesised(name, parts)` |
| Printer.Brackets | src/popsi/parser/ast/AstPrinter.java:96-102 | builds exactly `Bracketed(name, parts)` |
| PrinterProperties.Normalized | src/popsi/parser/ast/AstPrinter.java:66-67 | each text `print`-normalised, in order |
| PrinterProperties.StringifiedTexts | src/popsi/parser/ast/AstPrinter.java:113-120 | texts passed one by one stringify like the items of a list |
| PrinterProperties.StringifiedAppend | src/popsi/parser/ast/AstPrinter.java:113-123 | stringifying two runs of parts is stringifying each, one after the other |
| PrinterProperties.SpacedEnd | src/popsi/parser/ast/AstPrinter.java:116 | spaced texts end as the last one does |
| PrinterProperties.SpacedStart | src/popsi/parser/ast/AstPrinter.java:116 | spaced texts start with a space |
| PrinterProperties.CollapseSpaced | src/popsi/parser/ast/AstPrinter.java:19 | spaced solid texts collapse item by item |
| PrinterProperties.CollapseFramed | src/popsi/parser/ast/AstPrinter.java:19 | a text between two code points that are not white space collapses piece by piece |
| PrinterProperties.CollapseRun | src/popsi/parser/ast/AstPrinter.java:19 | a run of white space collapses to one space |
| PrinterProperties.FormOfTexts | src/popsi/parser/ast/AstPrinter.java:17-20 | a form named by a word over solid texts prints as the name and the texts, each printed on its own, after exactly one space |
| PrinterProperties.FormOfPair | src/popsi/parser/ast/AstPrinter.java:88-94 | a form over two solid texts prints as `(name a b)` |
| PrinterProperties.FormOfSingle | src/popsi/parser/ast/AstPrinter.java:88-94 | a form over one solid text prints as `(name a)` |
| PrinterProperties.FormOfItems | src/popsi/parser/ast/AstPrinter.java:116 | a non-empty list flattened into a form: its separating space and its first item's space collapse into one |
| PrinterProperties.FlattenItems | src/popsi/parser/ast/AstPrinter.java:116 | once printed, a non-empty list reads as if its items had been passed one by one |
| PrinterProperties.FormOfNoItems | src/popsi/parser/ast/AstPrinter.java:114-116 | an empty list still leaves its separating space |
| PrinterProperties.FormOfNothing | src/popsi/parser/ast/AstPrinter.java:114-118 | an empty list and an absent optional: their two spaces collapse into one |
| PrinterProperties.FormOfPairAbsent | src/popsi/parser/ast/AstPrinter.java:117-118 | an absent optional after two texts leaves a space before `)` |
| PrinterProperties.NormalizeRange | src/popsi/parser/ast/AstPrinter.java:54 | two solid texts around `..` collapse separately and need no trimming |
| PrinterProperties.NormalizeBracketed | src/popsi/parser/ast/AstPrinter.java:83 | a solid text in brackets collapses inside them |
| PrinterProperties.NormalizeWordsApart | src/popsi/parser/ast/AstPrinter.java:19 | two words with white space between them print with one space between them |
| PrinterProperties.NormalizeLabelled | src/popsi/parser/ast/AstPrinter.java:64-67 | `label: ` before a normal text needs no further normalisation |
| PrinterProperties.PrintIsNormal | src/popsi/parser/ast/AstPrinter.java:17-20 | every printed node has no blank end, only plain spaces, never two in a row |
| PrinterProperties.PrintLiteral | src/popsi/parser/ast/AstPrinter.java:47-48 | a literal, a variable or a named type whose lexeme is already normal prints as its lexeme |
| PrinterProperties.PrintCollapsesLexeme | src/popsi/parser/ast/AstPrinter.java:19 | white space inside a lexeme is collapsed like any other |
| PrinterProperties.PrintBinary | src/popsi/parser/ast/AstPrinter.java:49-50 | a binary expression prints as `(op left right)`, its operands printed on their own |
| PrinterProperties.PrintUnary | src/popsi/parser/ast/AstPrinter.java:51 | a unary expression prints as `(op operand)` |
| PrinterProperties.PrintRange | src/popsi/parser/ast/AstPrinter.java:54 | a range prints as `start..end`, no parentheses, no space |
| PrinterProperties.PrintListType | src/popsi/parser/ast/AstPrinter.java:83 | a list type prints as its element type in brackets |
| PrinterProperties.PrintedExprs | src/popsi/parser/ast/AstPrinter.java:63 | the printed elements of a list, in order |
| PrinterProperties.PrintEmptyList | src/popsi/parser/ast/AstPrinter.java:63 | the empty list prints as `(list )` |
| PrinterProperties.PrintList | src/popsi/parser/ast/AstPrinter.java:63 | a non-empty list prints as `(list e1 e2 ...)` |
| PrinterProperties.PrintIfWithoutElse | src/popsi/parser/ast/AstPrinter.java:57-58 | an `if` without `else` prints as `(if condition block )`, a space left by the absent branch |
| PrinterProperties.PrintEmptyBlock | src/popsi/parser/ast/AstPrinter.java:62 | an empty block prints as `(block )` |
| PrinterProperties.PrintUnlabelledArgument | src/popsi/parser/ast/AstPrinter.java:64-67 | an unlabelled argument prints as its value does on its own |
| PrinterProperties.PrintLabelledArgument | src/popsi/parser/ast/AstPrinter.java:64-67 | a labelled argument prints as `label: value` |

## Left out

- Input and output: reading source files, printing diagnostics, and the `System.out.println` in the parser's block recovery (src/popsi/parser/Parser.java:211).
- `Double.parseDouble`: a FLOAT token keeps its lexeme as its value. Floating point is not modelled.
- Unicode classification (`Character.isUnicodeIdentifierStart`, `isUnicodeIdentifierPart`, `isEmoji`) is a parameter of both lexers.
- Strings are sequences of code points. The source indexes UTF-16 units and steps by `Character.charCount`. The model steps by one code point, which is the same for every text without supplementary characters.
- The semantic analyser (src/popsi/analysis/Analyser.java) is a stub that only throws, so it is not part of this model. `SymbolTable.typeDefinition` and `locals` do not exist there; the analysis takes a table of total functions instead.
- The printer's `IllegalArgumentException` for objects that are not syntax nodes cannot arise with the typed `Node` datatype.
- The unused `parens(Object...)` overload (src/popsi/parser/ast/AstPrinter.java:104-110) is not modelled. Java resolves every call to the named overload.
- The parallel `Expression`/`Expr`, `Statement`/`Stmt` and `Type`/`TypeAst` files declare the same shapes, so `Ast` declares each once.
- The older parser and printer (src/popsi/Parser.java, src/popsi/ast/AstPrinter.java) are not part of this model.
- `Type.toString` (src/main/java/popsi/analysis/Type.java:8-56) is not modelled. Only the algebra is.
- Parser.Parser.Parse: where a recovery loop of the source never terminates, the model reports `Hang`. It does not model the loop running forever.
- PrinterProperties.PrintBinary, PrinterProperties.PrintUnary, PrinterProperties.PrintRange, PrinterProperties.PrintListType, PrinterProperties.PrintList, PrinterProperties.PrintIfWithoutElse: these require the visited operands to have no blank end, and operators to be words. Lexer-produced lexemes satisfy this, but the lemmas do not cover syntax trees built with blank lexemes.
- PrinterProperties.PrintLiteral: this covers only lexemes already in normal form. PrintCollapsesLexeme covers one run of white space inside a lexeme, not arbitrary lexemes.
- PrinterProperties.PrintLabelledArgument: this requires a word label and a non-empty printed value.
- Types.LubCommutative, Types.GlbCommutative, Types.BoundsWellFormed: these are stated for well-formed types only, i.e. every list type has exactly one element argument. On other list types the source reads `args.get(0)` and may throw.
- Types.Lub, Types.Glb, Types.Compatible: these require well-formed operands as well, so a list type without exactly one element argument, on which the source's `args.get(0)` may throw, is outside their contracts too; so it is for every other Types member that requires WellFormed.
- LexerSpec.ScanString: a STRING value is decoded by the one-pass StringLiterals.Unescape, the corrected decoder recorded under "## Findings", not by the `replace` chain of src/popsi/lexer/Lexer.java:351-356. StringLiterals.AsWrittenAgreesWithoutEscapedBackslash proves the two equal whenever no backslash in the literal follows another; on a literal such as `"\\n"` the model gives the intended value, not the source's.
- LexerSpec.ScanStringShape: a STRING value is decoded by the one-pass StringLiterals.Unescape, the corrected decoder recorded under "## Findings", not by the `replace` chain of src/popsi/lexer/Lexer.java:351-356. StringLiterals.AsWrittenAgreesWithoutEscapedBackslash proves the two equal whenever no backslash in the literal follows another; on a literal such as `"\\n"` the model gives the intended value, not the source's.
- LexerSpec.ScanStringLiteral: a STRING value is decoded by the one-pass StringLiterals.Unescape, the corrected decoder recorded under "## Findings", not by the `replace` chain of src/popsi/lexer/Lexer.java:351-356. StringLiterals.AsWrittenAgreesWithoutEscapedBackslash proves the two equal whenever no backslash in the literal follows another; on a literal such as `"\\n"` the model gives the intended value, not the source's.
- LexerSpec.ScanStringLiteralShape: a STRING value is decoded by the one-pass StringLiterals.Unescape, the corrected decoder recorded under "## Findings", not by the `replace` chain of src/popsi/lexer/Lexer.java:351-356. StringLiterals.AsWrittenAgreesWithoutEscapedBackslash proves the two equal whenever no backslash in the literal follows another; on a literal such as `"\\n"` the model gives the intended value, not the source's.
- LexerSpec.Scan: a STRING value is decoded by the one-pass StringLiterals.Unescape, the corrected decoder recorded under "## Findings", not by the `replace` chain of src/popsi/lexer/Lexer.java:351-356. StringLiterals.AsWrittenAgreesWithoutEscapedBackslash proves the two equal whenever no backslash in the literal follows another; on a literal such as `"\\n"` the model gives the intended value, not the source's.
- LexerSpec.LexRun: a STRING value is decoded by the one-pass StringLiterals.Unescape, the corrected decoder recorded under "## Findings", not by the `replace` chain of src/popsi/lexer/Lexer.java:351-356. StringLiterals.AsWrittenAgreesWithoutEscapedBackslash proves the two equal whenever no backslash in the literal follows another; on a literal such as `"\\n"` the model gives the intended value, not the source's.
- LexerSpec.Lex: a STRING value is decoded by the one-pass StringLiterals.Unescape, the corrected decoder recorded under "## Findings", not by the `replace` chain of src/popsi/lexer/Lexer.java:351-356. StringLiterals.AsWrittenAgreesWithoutEscapedBackslash proves the two equal whenever no backslash in the literal follows another; on a literal such as `"\\n"` the model gives the intended value, not the source's.
- CurrentLexer.Lexer.StringBody: a STRING value is decoded by the one-pass StringLiterals.Unescape, the corrected decoder recorded under "## Findings", not by the `replace` chain of src/popsi/lexer/Lexer.java:351-356. StringLiterals.AsWrittenAgreesWithoutEscapedBackslash proves the two equal whenever no backslash in the literal follows another; on a literal such as `"\\n"` the model gives the intended value, not the source's.
- CurrentLexer.Lexer.Scan: a STRING value is decoded by the one-pass StringLiterals.Unescape, the corrected decoder recorded under "## Findings", not by the `replace` chain of src/popsi/lexer/Lexer.java:351-356. StringLiterals.AsWrittenAgreesWithoutEscapedBackslash proves the two equal whenever no backslash in the literal follows another; on a literal such as `"\\n"` the model gives the intended value, not the source's.
- CurrentLexer.Lexer.Lex: a STRING value is decoded by the one-pass StringLiterals.Unescape, the corrected decoder recorded under "## Findings", not by the `replace` chain of src/popsi/lexer/Lexer.java:351-356. StringLiterals.AsWrittenAgreesWithoutEscapedBackslash proves the two equal whenever no backslash in the literal follows another; on a literal such as `"\\n"` the model gives the intended value, not the source's.
- LexerProperties.StringLiteralScan: a STRING value is decoded by the one-pass StringLiterals.Unescape, the corrected decoder recorded under "## Findings", not by the `replace` chain of src/popsi/lexer/Lexer.java:351-356. StringLiterals.AsWrittenAgreesWithoutEscapedBackslash proves the two equal whenever no backslash in the literal follows another; on a literal such as `"\\n"` the model gives the intended value, not the source's.
- LegacyLexerSpec.ScanString: a STRING value is decoded by the one-pass StringLiterals.Unescape, the corrected decoder recorded under "## Findings", not by the `replace` chain of src/popsi/Lexer.java:413-416. StringLiterals.AsWrittenAgreesWithoutEscapedBackslash proves the two equal whenever no backslash in the literal follows another; on a literal such as `"\\n"` the model gives the intended value, not the source's.
- LegacyLexerSpec.ScanStringLiteral: a STRING value is decoded by the one-pass StringLiterals.Unescape, the corrected decoder recorded under "## Findings", not by the `replace` chain of src/popsi/Lexer.java:413-416. StringLiterals.AsWrittenAgreesWithoutEscapedBackslash proves the two equal whenever no backslash in the literal follows another; on a literal such as `"\\n"` the model gives the intended value, not the source's.
- LegacyLexerSpec.ScanToken: a STRING value is decoded by the one-pass StringLiterals.Unescape, the corrected decoder recorded under "## Findings", not by the `replace` chain of src/popsi/Lexer.java:413-416. StringLiterals.AsWrittenAgreesWithoutEscapedBackslash proves the two equal whenever no backslash in the literal follows another; on a literal such as `"\\n"` the model gives the intended value, not the source's.
- LegacyLexerSpec.Scan: a STRING value is decoded by the one-pass StringLiterals.Unescape, the corrected decoder recorded under "## Findings", not by the `replace` chain of src/popsi/Lexer.java:413-416. StringLiterals.AsWrittenAgreesWithoutEscapedBackslash proves the two equal whenever no backslash in the literal follows another; on a literal such as `"\\n"` the model gives the intended value, not the source's.
- LegacyLexerSpec.LexRun: a STRING value is decoded by the one-pass StringLiterals.Unescape, the corrected decoder recorded under "## Findings", not by the `replace` chain of src/popsi/Lexer.java:413-416. StringLiterals.AsWrittenAgreesWithoutEscapedBackslash proves the two equal whenever no backslash in the literal follows another; on a literal such as `"\\n"` the model gives the intended value, not the source's.
- LegacyLexerSpec.Lex: a STRING value is decoded by the one-pass StringLiterals.Unescape, the corrected decoder recorded under "## Findings", not by the `replace` chain of src/popsi/Lexer.java:413-416. StringLiterals.AsWrittenAgreesWithoutEscapedBackslash proves the two equal whenever no backslash in the literal follows another; on a literal such as `"\\n"` the model gives the intended value, not the source's.
- LegacyLexer.Lexer.StringBody: a STRING value is decoded by the one-pass StringLiterals.Unescape, the corrected decoder recorded under "## Findings", not by the `replace` chain of src/popsi/Lexer.java:413-416. StringLiterals.AsWrittenAgreesWithoutEscapedBackslash proves the two equal whenever no backslash in the literal follows another; on a literal such as `"\\n"` the model gives the intended value, not the source's.
- LegacyLexer.Lexer.CloseString: a STRING value is decoded by the one-pass StringLiterals.Unescape, the corrected decoder recorded under "## Findings", not by the `replace` chain of src/popsi/Lexer.java:413-416. StringLiterals.AsWrittenAgreesWithoutEscapedBackslash proves the two equal whenever no backslash in the literal follows another; on a literal such as `"\\n"` the model gives the intended value, not the source's.
- LegacyLexer.Lexer.TokenAfter: a STRING value is decoded by the one-pass StringLiterals.Unescape, the corrected decoder recorded under "## Findings", not by the `replace` chain of src/popsi/Lexer.java:413-416. StringLiterals.AsWrittenAgreesWithoutEscapedBackslash proves the two equal whenever no backslash in the literal follows another; on a literal such as `"\\n"` the model gives the intended value, not the source's.
- LegacyLexer.Lexer.Scan: a STRING value is decoded by the one-pass StringLiterals.Unescape, the corrected decoder recorded under "## Findings", not by the `replace` chain of src/popsi/Lexer.java:413-416. StringLiterals.AsWrittenAgreesWithoutEscapedBackslash proves the two equal whenever no backslash in the literal follows another; on a literal such as `"\\n"` the model gives the intended value, not the source's.
- LegacyLexer.Lexer.Lex: a STRING value is decoded by the one-pass StringLiterals.Unescape, the corrected decoder recorded under "## Findings", not by the `replace` chain of src/popsi/Lexer.java:413-416. StringLiterals.AsWrittenAgreesWithoutEscapedBackslash proves the two equal whenever no backslash in the literal follows another; on a literal such as `"\\n"` the model gives the intended value, not the source's.

## Findings

| source | as written | input that shows it | evidently intended | confidence | as-written member | corrected member |
|---|---|---|---|---|---|---|
| src/popsi/lexer/Lexer.java:351-356 | escapes are decoded by five `String.replace` calls over the whole literal, `\n` first and `\\` last (src/popsi/Lexer.java:413-416 does the same) | the source text `"\\n"` (quote, backslash, backslash, n, quote), the escaped form of backslash-n, decodes to a backslash followed by a newline | each escape sequence decoded once, left to right, so that decoding inverts escaping and `"\\n"` is backslash, n | not executed | StringLiterals.AsWrittenMisreadsEscapedBackslash | StringLiterals.UnescapeEscape |
