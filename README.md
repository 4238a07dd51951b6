# The parser of the Julia-subset interpreter, in Dafny

This project models the front end of a small tree-walking interpreter, written in Java, for a
Julia-like scripting language. The language has C-like expressions, `if/elseif/else/end`,
`while/end`, implicit variable declarations and `print(...)`/`println(...)`. The model covers:

- the tokens the scanner hands over, and their `toString` text (`Tokens.java`);
- the syntax-error and runtime-error reporting, with its two sticky flags (`Julia.java`);
- the recursive-descent parser, which turns a token list into a list of statements and
  recovers from syntax errors by synchronizing (`Parser.java`).

## Layout

- `Wrappers.dfy`: `Option` (Java's `null`) and `Outcome`, which models the `ParseError` that
  Java throws as a `Fail` that every caller propagates.
- `Tokens.dfy`: the token kinds, literal values and `Token`, with `toString`.
- `Ast.dfy`: the expression and statement trees.
- `Julia.dfy`: the diagnostics and a `Diagnostics` class.
  - Each diagnostic is kept as a structured value; `Text` gives the line that is printed to the
    error stream.
  - The class holds what was written to the error stream (`log`) and the `hadError` and
    `hadRuntimeError` flags, which Java keeps as statics.
- `Grammar.dfy`: one function per parser routine.
  - The roles of `toks`, `pos` and `log`:
    - `toks` is the token list.
    - `pos` is the cursor when the routine is entered.
    - `log` is what has been reported so far.
  - Each function gives three things: the routine's outcome, the cursor afterwards, and the
    diagnostics afterwards.
  - The Java loops become the `ChainRest`, `IfBody`, `ElseBody`, `WhileBody`, `SkipFrom` and
    `ProgramLoop` functions.
  - The six binary levels (`or` … `factor`) share one definition, parameterised by `Level`.
  - The function of each expression and statement routine (`PrimaryAt` … `WhileBody`) carries
    the progress guarantee (`Advances`): the cursor never moves back or past the end of the
    list, a success consumes at least one token, and the diagnostics written before the routine
    stay at the front of the log.
  - `ChainRest`, `VarDeclarationAt`, `AttemptAt`, `DeclarationAt` and `ProgramAt` state only the
    bounds and the prefix of the log. A variable declaration without `=` succeeds without
    moving. `DeclarationAt` consumes at least one token unless EOF is next.
- `Parser.dfy`: the class `Parser`.
  - It has the token list, the mutable cursor `current` and the diagnostics collector.
  - It has one method per routine, written with the routine's own loops and early exits.
  - Every routine method is proved to give exactly what its `Grammar` function gives: the same
    result, cursor and diagnostics. The cursor helpers and `Error` are specified directly.
  - Every method is proved to raise `hadError` exactly when it reported something, and to leave
    `hadRuntimeError` untouched.
- `Shapes.dfy`: the shape of every tree the parser can build.
  - The binary levels form left-leaning chains, with tighter operators below looser ones.
  - An assignment's target is a variable.
  - A `Var` statement appears only at the top level.
  - Each routine is proved to build trees of its shape.
- `Properties.dfy`: behavioural facts, proved over `Grammar`.
  - Every syntax error is reported before it propagates.
  - The exact rejections of `primary` and of `print`'s parenthesis.
  - `a - b - c` groups as `(a - b) - c`.
  - When an `Assign` is built, and what an invalid target gives.
  - Declarations with and without `=`.
  - What recovery skips and where it resumes.
  - `if (`, `elseif`, and the bodies closed by `end`.
  - `parse` as a sequence of declarations.

`assignment` with an invalid target reports "Invalid assignment target." at the `=` and returns
the left-hand expression (`Parser.java:99-101`). `synchronize` steps over one token unless it is
at EOF, and only then looks for a statement keyword (`Parser.java:227`, `Parser.java:141`).

Tokens are immutable values, as Java's `final` fields make them. The token kinds form a closed
datatype, in which EOF, ELSEIF, ELSE, END and BEGIN are distinct constructors.

Behaviour the code has, and the model keeps on purpose:

- `if (` yields no statement (`null`). It consumes only the parenthesis (`IfParen`).
- An identifier not followed by `=` yields no statement and reports nothing (`BareIdentifier`).
  So `x + 1` at the top level gives `null` and then fails at `+`.
- `synchronize` does not stop before `println`.
- At `elseif`, the condition and statements gathered so far are dropped, and the nested `if`
  replaces them (`ElseifDiscards`).

## Model

| member | source | states |
|---|---|---|
| Tokens.ToString | Tokens.java:29-31 | `toString`: kind name, lexeme and literal text joined by single spaces (split back by `ToStringFields`) |
| Tokens.KindName | Tokens.java:2-17 | the enum constant's name, as Java prints it |
| Tokens.LiteralText | Tokens.java:21 | the literal as text: `null`, `true`/`false`, a number's rendering, or the string itself |
| Tokens.ToStringFields | Tokens.java:29-31 | the first word of `toString` is the kind's name, and the rest is lexeme and literal separated by one space |
| Tokens.KindNameHasNoSpace | Tokens.java:2-17 | no kind name contains a space, so the first space of `toString` ends the kind |
| Julia.IntToString | Julia.java:71 | the decimal text of a line number in `"[line " + line + …`: a minus sign exactly for a negative number, then digits (read back by `LineOfLineMarker`) |
| Julia.ReportText | Julia.java:71 | the line `report` prints: `[line N] Error`, the location, `: ` and the message |
| Julia.RuntimeErrorText | Julia.java:89-90 | the text `runtimeError` prints: the message, a newline and `[line N]` |
| Julia.Text | Julia.java:71 | the text printed for a diagnostic, by its kind (see `LineOfReport`, `RuntimeErrorTextParts`) |
| Julia.Where | Julia.java:79-87 | the location of an error at a token: " at end" for EOF, else the quoted lexeme (see `WhereAtEnd`) |
| Julia.TokenError | Julia.java:79-87 | the diagnostic `error(Token, String)` writes: the token's line, its location and the message |
| Julia.LineError | Julia.java:75-77 | the diagnostic `error(int, String)` writes: the line, an empty location and the message |
| Julia.LineOfReport | Julia.java:69-73 | a syntax-error line starts with `[line N]`, and N reads back as the error's line for every int N |
| Julia.LineOfLineMarker | Julia.java:71 | the decimal rendering of any int, negatives included, inside `[line …]` reads back to the same int |
| Julia.RuntimeErrorTextParts | Julia.java:88-92 | a runtime-error text is the message, a line break, then a `[line N]` marker that reads back to the line |
| Julia.WhereAtEnd | Julia.java:79-87 | the location is " at end" exactly for the EOF token; any other token's lexeme is quoted |
| Julia.Diagnostics.constructor | Julia.java:12-13 | nothing written, both flags false |
| Julia.Diagnostics.Report | Julia.java:69-73 | appends the syntax error and sets `hadError`, with `hadRuntimeError` unchanged |
| Julia.Diagnostics.ErrorAtLine | Julia.java:75-77 | reports with an empty location |
| Julia.Diagnostics.ErrorAtToken | Julia.java:79-87 | reports at the token: " at end" for EOF, else the quoted lexeme |
| Julia.Diagnostics.RuntimeError | Julia.java:88-92 | appends the runtime failure and sets `hadRuntimeError`, with `hadError` unchanged |
| Grammar.Check | Parser.java:135-138 | `check`: false at EOF for every kind, else the next token's kind is compared |
| Grammar.Matches | Parser.java:125-133 | `match`: the next token is not EOF and has one of the kinds (see `Properties.MatchesSomeCheck`) |
| Grammar.ConsumeAt | Parser.java:215-218 | `consume`: steps over the expected token, else fails in place with the message reported at the next token (proved of `Parser.Parser.Consume`) |
| Grammar.Tighter | Parser.java:266-283 | the level whose chains are a level's operands: `or` reads `and`, `and` reads `equality`, and so on down to `factor` (lines 116, 158, 168, 178); its rank is one less, so the nesting ends |
| Grammar.Operators | Parser.java:117 | the kinds each level's loop matches, as listed at lines 117, 159, 169, 179, 268 and 277; never empty, and never EOF or `=` |
| Grammar.Node | Parser.java:120 | the node a level builds from the left side, the operator and the right side: `Logical` for `or` and `and` (lines 271, 280), `Binary` otherwise (lines 120, 162, 172, 182) |
| Grammar.OperandAt | Parser.java:178-181 | the operand of a level: `unary` below `factor`, the next tighter level otherwise; the progress guarantee |
| Grammar.PrimaryAt | Parser.java:196-213 | never moves back or past the end; a success consumes at least one token; the earlier diagnostics stay a prefix of the log |
| Grammar.UnaryAt | Parser.java:187-194 | the same progress guarantee for `unary` |
| Grammar.ChainAt | Parser.java:115-123 | the same progress guarantee for every binary level |
| Grammar.ChainRest | Parser.java:117-121 | the loop of a binary level stays in bounds and only appends diagnostics |
| Grammar.AssignmentAt | Parser.java:89-102 | the progress guarantee for `assignment` |
| Grammar.ExpressionAt | Parser.java:85-88 | the progress guarantee for `expression` |
| Grammar.ExpressionStatementAt | Parser.java:71-75 | the progress guarantee for `expressionStatement` |
| Grammar.ArgumentAt | Parser.java:27-30 | the progress guarantee for the parenthesised argument of `print` and `println` |
| Grammar.PrintAt | Parser.java:26-32 | the progress guarantee for `printStatement` |
| Grammar.PrintlnAt | Parser.java:33-39 | the progress guarantee for `printlnStatement` |
| Grammar.StatementAt | Parser.java:18-25 | the progress guarantee for `statement` |
| Grammar.IfAt | Parser.java:242-264 | the progress guarantee for `ifStatement` |
| Grammar.IfBody | Parser.java:250-261 | the then-loop: the progress guarantee |
| Grammar.ElseBody | Parser.java:254-258 | the else-loop: the progress guarantee |
| Grammar.WhileAt | Parser.java:284-291 | the progress guarantee for `whileStatement` |
| Grammar.WhileBody | Parser.java:287-289 | the loop of `whileStatement`: the progress guarantee |
| Grammar.VarDeclarationAt | Parser.java:48-59 | stays in bounds and only appends diagnostics |
| Grammar.SyncKinds | Parser.java:230-237 | the keywords before which `synchronize` stops: CLASS, FOR, IF, WHILE, PRINT and RETURN, and not PRINTLN |
| Grammar.SkipFrom | Parser.java:228-240 | stops at EOF or a CLASS/FOR/IF/WHILE/PRINT/RETURN, and every token skipped is none of these |
| Grammar.SynchronizeFrom | Parser.java:226-241 | moves unless at EOF, stops at EOF or a CLASS/FOR/IF/WHILE/PRINT/RETURN, and skips none of these after the first token |
| Grammar.AttemptAt | Parser.java:104-108 | the `try` block of `declaration` stays in bounds and keeps every earlier diagnostic |
| Grammar.DeclarationAt | Parser.java:103-113 | never fails; stays in bounds; only appends diagnostics; consumes at least one token unless at EOF |
| Grammar.ProgramLoop | Parser.java:77-83 | never fails; ends at EOF; only appends diagnostics; keeps the statements it was given as a prefix; at most one new entry per consumed token |
| Grammar.ProgramAt | Parser.java:77-83 | `parse` never fails, ends with EOF next, keeps every earlier diagnostic, at most one entry per consumed token |
| Parser.Parser.constructor | Parser.java:15-17 | the parser holds the list with the cursor at 0, and is valid exactly when the list ends with EOF |
| Parser.Parser.IsAtEnd | Parser.java:145-147 | the next token is EOF |
| Parser.Parser.Valid | Parser.java:140-151 | the cursor-safety invariant every method keeps: the list ends with EOF and the cursor is on one of its tokens, so `peek()` is in bounds and `advance()` stops at EOF |
| Parser.Parser.Peek | Parser.java:149-151 | the token at the cursor, always in bounds under `Valid` |
| Parser.Parser.Previous | Parser.java:153-155 | the token before the cursor; requires one to exist |
| Parser.Parser.Check | Parser.java:135-138 | true exactly when the next token is not EOF and has the kind |
| Parser.Parser.Advance | Parser.java:140-143 | steps forward unless at EOF, and returns the token before the new cursor |
| Parser.Parser.Match | Parser.java:125-133 | advances by one exactly when the next token is non-EOF with one of the kinds |
| Parser.Parser.Consume | Parser.java:215-218 | on the expected kind, steps over it and returns it; otherwise reports the message at the next token and fails without moving |
| Parser.Parser.Error | Parser.java:220-223 | reports at the token through the collector |
| Parser.Parser.Expression | Parser.java:85-88 | computes `ExpressionAt`: same result, cursor and diagnostics; `hadError` is raised exactly when something was reported |
| Parser.Parser.Assignment | Parser.java:89-102 | computes `AssignmentAt`, including the non-fatal invalid-target report |
| Parser.Parser.Or | Parser.java:266-274 | its loop computes the `or` level's chain |
| Parser.Parser.And | Parser.java:275-283 | its loop computes the `and` level's chain |
| Parser.Parser.Equality | Parser.java:115-123 | its loop computes the equality chain |
| Parser.Parser.Comparison | Parser.java:157-165 | its loop computes the comparison chain |
| Parser.Parser.Term | Parser.java:167-175 | its loop computes the term chain |
| Parser.Parser.Factor | Parser.java:177-185 | its loop computes the factor chain |
| Parser.Parser.Unary | Parser.java:187-194 | computes `UnaryAt` |
| Parser.Parser.Primary | Parser.java:196-213 | computes `PrimaryAt`, including the "Expect expression." and missing-`)` errors |
| Parser.Parser.Statement | Parser.java:18-25 | computes `StatementAt` |
| Parser.Parser.PrintStatement | Parser.java:26-32 | computes `PrintAt` |
| Parser.Parser.PrintlnStatement | Parser.java:33-39 | computes `PrintlnAt` |
| Parser.Parser.ExpressionStatement | Parser.java:71-75 | computes `ExpressionStatementAt` |
| Parser.Parser.IfStatement | Parser.java:242-264 | its nested loops and its `elseif` recursion compute `IfAt` |
| Parser.Parser.WhileStatement | Parser.java:284-291 | its loop computes `WhileAt` |
| Parser.Parser.VarDeclaration | Parser.java:48-59 | computes `VarDeclarationAt` |
| Parser.Parser.Declaration | Parser.java:103-113 | computes `DeclarationAt`: a failed attempt is caught, then synchronize and `null` |
| Parser.Parser.Synchronize | Parser.java:226-241 | ends at `SynchronizeFrom`; moves unless at EOF; stops at EOF or a statement keyword; skips none |
| Parser.Parser.Parse | Parser.java:77-83 | computes `ProgramAt`; ends at EOF; at most one entry per consumed token |
| Shapes.PrimaryShape | Parser.java:196-213 | a primary is a literal, a variable named by an identifier, or a grouped assignment-level tree |
| Shapes.UnaryShape | Parser.java:187-194 | a unary tree is `!`/`-` applied to unary trees, down to a primary |
| Shapes.OperandShape | Parser.java:177-185 | the operand of a level is a tree of the next tighter level |
| Shapes.ChainShape | Parser.java:115-123 | each binary level yields a left-leaning chain of its own operators over tighter operands |
| Shapes.ChainRestShape | Parser.java:117-121 | the loop of a binary level extends a chain to a chain |
| Shapes.AssignmentShape | Parser.java:89-102 | an `or` chain, or an `Assign` to an identifier whose value again has assignment shape (right-associative) |
| Shapes.ExpressionShape | Parser.java:85-88 | an expression has assignment shape |
| Shapes.RightChildNotSameLevel | Parser.java:167-175 | in a chain, the right child of a node is never an ungrouped node of the same level: left associativity |
| Shapes.LooserNodeOutside | Parser.java:266-283 | a node of a looser level is no tree of a tighter level, so precedence is respected |
| Shapes.OperatorsDisjoint | Parser.java:117 | no operator kind belongs to two levels |
| Shapes.UnaryIsNoNode | Parser.java:187-194 | a unary or primary tree is no binary node |
| Shapes.VariableInChain | Parser.java:203-204 | a variable tree at any level names an identifier |
| Shapes.AssignNotInChain | Parser.java:95-97 | `or` never yields an `Assign` |
| Shapes.PrintShape | Parser.java:26-32 | `print` yields a `Print` of a well-shaped expression |
| Shapes.PrintlnShape | Parser.java:33-39 | `println` yields a `Println` of a well-shaped expression |
| Shapes.StatementShape | Parser.java:18-25 | a statement is `null` or a well-shaped statement, and never a `Var` |
| Shapes.IfShape | Parser.java:242-264 | `ifStatement` yields `null` or an `If` whose condition and branches are well shaped |
| Shapes.IfBodyShape | Parser.java:250-261 | the then-loop yields `null` (through `elseif`) or an `If`, with every branch entry well shaped |
| Shapes.ElseBodyShape | Parser.java:254-258 | the else-loop yields an `If` with every branch entry well shaped |
| Shapes.WhileShape | Parser.java:284-291 | `whileStatement` yields a `While` with a well-shaped condition and body |
| Shapes.WhileBodyShape | Parser.java:287-289 | the loop keeps every body entry well shaped |
| Shapes.DeclarationShape | Parser.java:103-113 | a declaration is `null`, a statement, or a `Var` of an identifier with a well-shaped initializer |
| Shapes.ProgramLoopShape | Parser.java:79-81 | every entry the loop adds is a well-shaped declaration |
| Shapes.ProgramShape | Parser.java:77-83 | every entry of the parsed program is `null` or a well-shaped declaration |
| Shapes.AppendStatement | Parser.java:260 | appending a well-shaped entry keeps a statement list well shaped |
| Shapes.AppendDeclaration | Parser.java:80 | appending a well-shaped entry keeps a program list well shaped |
| Properties.MatchesSomeCheck | Parser.java:125-133 | `match` succeeds exactly when `check` holds for one of the kinds it tries |
| Properties.PrimaryReports | Parser.java:206-211 | a failing `primary` has reported at least one diagnostic first |
| Properties.UnaryReports | Parser.java:187-194 | a failing `unary` has reported first |
| Properties.OperandReports | Parser.java:178 | a failing operand has reported first |
| Properties.ChainReports | Parser.java:115-123 | a failing binary level has reported first |
| Properties.ChainRestReports | Parser.java:117-121 | a failing level loop has reported first |
| Properties.AssignmentReports | Parser.java:89-102 | a failing `assignment` has reported first |
| Properties.ExpressionReports | Parser.java:85-88 | a failing `expression` has reported first |
| Properties.ArgumentReports | Parser.java:27-30 | a failing `print` argument has reported first |
| Properties.StatementReports | Parser.java:18-25 | a failing `statement` has reported first |
| Properties.IfReports | Parser.java:242-249 | a failing `ifStatement` has reported first |
| Properties.IfBodyReports | Parser.java:250-261 | a failing then-loop has reported first |
| Properties.ElseBodyReports | Parser.java:254-258 | a failing else-loop has reported first |
| Properties.WhileReports | Parser.java:284-286 | a failing `whileStatement` has reported first |
| Properties.WhileBodyReports | Parser.java:287-289 | a failing while-loop has reported first |
| Properties.ExpectExpression | Parser.java:196-211 | fails on the spot with "Expect expression." at the next token exactly when that token starts no primary, EOF included |
| Properties.GroupingNeedsClose | Parser.java:206-210 | `( e` becomes a grouping ending after `)` exactly when `)` follows; otherwise the missing `)` is reported at the next token and the primary fails there |
| Properties.VariableChain | Parser.java:203-204 | an identifier followed by no operator of the levels up to `lv` is the whole chain of `lv` |
| Properties.LooserLevelsPassThrough | Parser.java:266-283 | looser levels pass a tighter chain through unchanged when none of their operators follows |
| Properties.MinusGroupsLeft | Parser.java:167-175 | `a - b - c` parses as `(a - b) - c`, consuming five tokens and reporting nothing |
| Properties.AssignOnlyToVariables | Parser.java:89-98 | an `Assign` results exactly when the left side is a variable, `=` follows and the right side parses |
| Properties.InvalidAssignmentTarget | Parser.java:99-101 | another target is reported once, at the `=` token with its line, and the left expression is returned after the right side |
| Properties.BareIdentifier | Parser.java:53-58 | an identifier without `=` yields `null`, consumes only itself and reports nothing |
| Properties.VariableWithInitializer | Parser.java:53-55 | an identifier, `=` and an expression yield a `Var` of that identifier |
| Properties.Recovery | Parser.java:109-111 | a failed attempt is reported, yields `null`, and resumes after the first token at EOF or a statement keyword, never at PRINTLN, skipping none |
| Properties.IfParen | Parser.java:243-244 | `if (` yields `null`, consuming both tokens and reporting nothing |
| Properties.ElseifDiscards | Parser.java:251-253 | at `elseif`, the result does not depend on the condition or then-statements gathered, and is the nested `if` |
| Properties.ElseCollects | Parser.java:254-258 | the else-loop keeps condition and then-branch, only extends the else-branch, and ends just after `end` |
| Properties.WhileCollects | Parser.java:287-290 | the while-loop keeps the condition, only extends the body, and ends just after `end` |
| Properties.PrintNeedsParentheses | Parser.java:27-30 | fails on the spot at the next token exactly when `(` is missing; a success is closed by `)` |
| Properties.ProgramLoopAppends | Parser.java:78-81 | the loop of `parse` only appends to the statements it was given |
| Properties.ProgramIsDeclarations | Parser.java:77-83 | `parse` is one `declaration` and then the rest of the program, or nothing at EOF |

## Left out

- The scanner, the interpreter, `Stmt`/`Expr` visitors and `RuntimeError` are not part of this
  model. Tokens arrive as a given list, and the runtime error is given by its message and line.
- `Julia.main`, `runFile`, `runPrompt` and `run` are left out because they read files, print
  tokens and exit the process. This includes the loop that reads a fixed file and resets
  `hadError`.
- `block()` is left out because no routine calls it (`Parser.java:40-47`).
- The `varDeclaration(Expr)` overload is left out for the same reason (`Parser.java:60-70`).
- The commented-out `for` statement is left out, because it is not code (`Parser.java:23`).
- Parsing of number literals is left out. A number's value is kept as the text Java would
  print, because double arithmetic and its rendering are not modelled.
- The error stream is modelled as a list of structured diagnostics; `Julia.Text` gives the line
  as printed, without Java's platform line separator.
- Grammar.PrimaryAt, Grammar.UnaryAt, Grammar.ChainAt, Grammar.AssignmentAt, Grammar.StatementAt:
  the progress guarantee does not state that the cursor never steps over the EOF token. Every
  function stays inside the list, and EOF is its last element.
- Parser.Parser.Advance: requires a token before the cursor or a non-EOF next token. Java's
  `previous()` would index -1 otherwise, and no routine calls it in that state.
- Parser.Parser.VarDeclaration: requires a token before the cursor (Java reads `previous()`).
  Its only caller has just matched the identifier.
- Parser.Parser.Declaration: requires a token before the cursor or a non-EOF next token. With
  EOF as the first token, a failed attempt would make Java's `synchronize` read `previous()` at
  index -1 (`Parser.java:142`, `Parser.java:154`), where `Grammar.DeclarationAt` yields `null`.
  The only caller never calls it at EOF (`Parser.java:79`).
- Parser.Parser.Synchronize: the same precondition, for the same `previous()` read. At the start
  of a list whose first token is EOF, `Grammar.SynchronizeFrom` stays put where Java would fail.
