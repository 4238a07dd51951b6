/** The parser's behaviour as functions over a token sequence and a cursor position.

    Each function models one routine of the recursive-descent parser: started at `pos` with
    `log` already written to the diagnostics, it gives the routine's outcome (a tree, or the
    syntax error that Java throws), the cursor position afterwards, and the diagnostics
    afterwards. The loops of the
    Java routines become the `...Rest`/`...Body` functions, whose extra parameters are the
    loop's variables. The methods of `Parser.Parser` are proved to compute exactly these. */
module Grammar {
  import opened Wrappers
  import opened Tokens
  import opened Ast
  import Julia

  /** What the parser needs of its input: a non-empty list ending with an EOF token. */
  predicate WellFormed(toks: seq<Token>)
  {
    |toks| > 0 && toks[|toks| - 1].kind == Eof
  }

  /** The result of running one parsing routine: its outcome, the cursor afterwards, and every
      diagnostic line written so far (the lines before the routine, then its own). */
  datatype Parsed<+T> = Parsed(out: Outcome<T>, pos: nat, log: seq<Julia.Diagnostic>)

  /** The cursor moves from `pos` to `q` without going back or leaving the list. */
  predicate Stays(toks: seq<Token>, pos: nat, q: nat)
  {
    pos <= q < |toks|
  }

  /** Besides staying in bounds, a routine that succeeds has consumed at least one token; and the
      diagnostics written before it are still there, in order, ahead of its own. */
  predicate Advances<T>(toks: seq<Token>, pos: nat, log: seq<Julia.Diagnostic>, r: Parsed<T>)
  {
    Stays(toks, pos, r.pos) && (r.out.Ok? ==> pos < r.pos) && log <= r.log
  }

  /** A failure after `r`, keeping its position and diagnostics. */
  function Failed<T, U>(r: Parsed<T>): Parsed<U>
  {
    Parsed(Fail, r.pos, r.log)
  }

  // ---------------------------------------------------------------------------------------
  // Cursor primitives

  /** `check(kind)`: never true at EOF. */
  predicate Check(toks: seq<Token>, pos: nat, kind: TokenType)
    requires pos < |toks|
  {
    toks[pos].kind != Eof && toks[pos].kind == kind
  }

  /** `match(kinds...)` succeeds (and advances) exactly when `check` holds for one of the kinds. */
  predicate Matches(toks: seq<Token>, pos: nat, kinds: seq<TokenType>)
    requires pos < |toks|
  {
    toks[pos].kind != Eof && toks[pos].kind in kinds
  }

  /** `consume(kind, message)`. */
  function ConsumeAt(toks: seq<Token>, pos: nat, kind: TokenType, message: string, log: seq<Julia.Diagnostic>)
    : Parsed<Token>
    requires pos < |toks|
  {
    if Check(toks, pos, kind) then Parsed(Ok(toks[pos]), pos + 1, log)
    else Parsed(Fail, pos, log + [Julia.TokenError(toks[pos], message)])
  }

  // ---------------------------------------------------------------------------------------
  // Binary precedence levels, loosest first: or, and, equality, comparison, term, factor.

  datatype Level = OrLevel | AndLevel | EqualityLevel | ComparisonLevel | TermLevel | FactorLevel

  function Rank(lv: Level): nat
  {
    match lv
    case OrLevel => 6
    case AndLevel => 5
    case EqualityLevel => 4
    case ComparisonLevel => 3
    case TermLevel => 2
    case FactorLevel => 1
  }

  /** The level whose chains are the operands of `lv`'s chains. */
  function Tighter(lv: Level): (t: Level)
    requires lv != FactorLevel
    ensures Rank(t) + 1 == Rank(lv)
  {
    match lv
    case OrLevel => AndLevel
    case AndLevel => EqualityLevel
    case EqualityLevel => ComparisonLevel
    case ComparisonLevel => TermLevel
    case TermLevel => FactorLevel
  }

  /** The operator kinds each level's loop matches, in the order the source lists them. */
  function Operators(lv: Level): (ops: seq<TokenType>)
    ensures 0 < |ops| && Eof !in ops && Equal !in ops
  {
    match lv
    case OrLevel => [Or]
    case AndLevel => [And]
    case EqualityLevel => [BangEqual, EqualEqual]
    case ComparisonLevel => [Greater, GreaterEqual, Less, LessEqual]
    case TermLevel => [Minus, Plus]
    case FactorLevel => [Slash, Star]
  }

  predicate IsLogicalLevel(lv: Level)
  {
    lv == OrLevel || lv == AndLevel
  }

  /** The node a level builds: `Logical` for or/and, `Binary` for the others. */
  function Node(lv: Level, left: Expr, operator: Token, right: Expr): Expr
  {
    if IsLogicalLevel(lv) then Logical(left, operator, right) else Binary(left, operator, right)
  }

  // ---------------------------------------------------------------------------------------
  // Expressions

  /** `primary`. */
  function PrimaryAt(toks: seq<Token>, pos: nat, log: seq<Julia.Diagnostic>): (r: Parsed<Expr>)
    requires WellFormed(toks) && pos < |toks|
    decreases |toks| - pos, 0
    ensures Advances(toks, pos, log, r)
  {
    if Matches(toks, pos, [False]) then Parsed(Ok(Literal(BoolValue(false))), pos + 1, log)
    else if Matches(toks, pos, [True]) then Parsed(Ok(Literal(BoolValue(true))), pos + 1, log)
    else if Matches(toks, pos, [Nil]) then Parsed(Ok(Literal(NullValue)), pos + 1, log)
    else if Matches(toks, pos, [Number, String]) then Parsed(Ok(Literal(toks[pos].literal)), pos + 1, log)
    else if Matches(toks, pos, [Identifier]) then Parsed(Ok(Variable(toks[pos])), pos + 1, log)
    else if Matches(toks, pos, [LeftParen]) then
      var inner := ExpressionAt(toks, pos + 1, log);
      if inner.out.Fail? then inner
      else
        var close := ConsumeAt(toks, inner.pos, RightParen, "Expect ')' after expression.", inner.log);
        if close.out.Fail? then Failed(close)
        else Parsed(Ok(Grouping(inner.out.value)), close.pos, close.log)
    else Parsed(Fail, pos, log + [Julia.TokenError(toks[pos], "Expect expression.")])
  }

  /** `unary`: prefix `!` and `-`, right-recursive, over `primary`. */
  function UnaryAt(toks: seq<Token>, pos: nat, log: seq<Julia.Diagnostic>): (r: Parsed<Expr>)
    requires WellFormed(toks) && pos < |toks|
    decreases |toks| - pos, 1
    ensures Advances(toks, pos, log, r)
  {
    if Matches(toks, pos, [Bang, Minus]) then
      var right := UnaryAt(toks, pos + 1, log);
      if right.out.Fail? then right
      else Parsed(Ok(Unary(toks[pos], right.out.value)), right.pos, right.log)
    else PrimaryAt(toks, pos, log)
  }

  /** An operand of a level's chain: the next tighter level (`unary` below `factor`). */
  function OperandAt(lv: Level, toks: seq<Token>, pos: nat, log: seq<Julia.Diagnostic>): (r: Parsed<Expr>)
    requires WellFormed(toks) && pos < |toks|
    decreases |toks| - pos, 2 * Rank(lv)
    ensures Advances(toks, pos, log, r)
  {
    if lv == FactorLevel then UnaryAt(toks, pos, log) else ChainAt(Tighter(lv), toks, pos, log)
  }

  /** `or`, `and`, `equality`, `comparison`, `term` and `factor`: an operand, then the loop. */
  function ChainAt(lv: Level, toks: seq<Token>, pos: nat, log: seq<Julia.Diagnostic>): (r: Parsed<Expr>)
    requires WellFormed(toks) && pos < |toks|
    decreases |toks| - pos, 2 * Rank(lv) + 1
    ensures Advances(toks, pos, log, r)
  {
    var first := OperandAt(lv, toks, pos, log);
    if first.out.Fail? then first
    else ChainRest(lv, toks, first.out.value, first.pos, first.log)
  }

  /** The loop of a binary level: while an operator of the level follows, parse one more operand
      and make the tree so far its left child. */
  function ChainRest(lv: Level, toks: seq<Token>, left: Expr, pos: nat, log: seq<Julia.Diagnostic>): (r: Parsed<Expr>)
    requires WellFormed(toks) && pos < |toks|
    decreases |toks| - pos, 2 * Rank(lv) + 1
    ensures Stays(toks, pos, r.pos) && log <= r.log
  {
    if Matches(toks, pos, Operators(lv)) then
      var right := OperandAt(lv, toks, pos + 1, log);
      if right.out.Fail? then right
      else ChainRest(lv, toks, Node(lv, left, toks[pos], right.out.value), right.pos, right.log)
    else Parsed(Ok(left), pos, log)
  }

  /** `assignment`: right-recursive; a non-variable target is reported but not fatal, and the
      left-hand expression is then the result. */
  function AssignmentAt(toks: seq<Token>, pos: nat, log: seq<Julia.Diagnostic>): (r: Parsed<Expr>)
    requires WellFormed(toks) && pos < |toks|
    decreases |toks| - pos, 14
    ensures Advances(toks, pos, log, r)
  {
    var left := ChainAt(OrLevel, toks, pos, log);
    if left.out.Fail? || !Matches(toks, left.pos, [Equal]) then left
    else
      var value := AssignmentAt(toks, left.pos + 1, left.log);
      if value.out.Fail? then value
      else if left.out.value.Variable? then
        Parsed(Ok(Assign(left.out.value.name, value.out.value)), value.pos, value.log)
      else
        Parsed(Ok(left.out.value), value.pos,
               value.log + [Julia.TokenError(toks[left.pos], "Invalid assignment target.")])
  }

  /** `expression`. */
  function ExpressionAt(toks: seq<Token>, pos: nat, log: seq<Julia.Diagnostic>): (r: Parsed<Expr>)
    requires WellFormed(toks) && pos < |toks|
    decreases |toks| - pos, 15
    ensures Advances(toks, pos, log, r)
  {
    AssignmentAt(toks, pos, log)
  }

  /** A statement routine's outcome seen where a possibly absent statement is expected. */
  function Lift(o: Outcome<Stmt>): Outcome<Option<Stmt>>
  {
    if o.Ok? then Ok(Some(o.value)) else Fail
  }

  function Present(r: Parsed<Stmt>): Parsed<Option<Stmt>>
  {
    Parsed(Lift(r.out), r.pos, r.log)
  }

  // ---------------------------------------------------------------------------------------
  // Statements

  /** `expressionStatement`. */
  function ExpressionStatementAt(toks: seq<Token>, pos: nat, log: seq<Julia.Diagnostic>): (r: Parsed<Stmt>)
    requires WellFormed(toks) && pos < |toks|
    ensures Advances(toks, pos, log, r)
  {
    var e := ExpressionAt(toks, pos, log);
    if e.out.Fail? then Failed(e) else Parsed(Ok(Stmt.Expression(e.out.value)), e.pos, e.log)
  }

  /** The `( expression )` that `print` and `println` require after the keyword. */
  function ArgumentAt(toks: seq<Token>, pos: nat, log: seq<Julia.Diagnostic>): (r: Parsed<Expr>)
    requires WellFormed(toks) && pos < |toks|
    ensures Advances(toks, pos, log, r)
  {
    var open := ConsumeAt(toks, pos, LeftParen, "expect '(' this after print", log);
    if open.out.Fail? then Failed(open)
    else
      var value := ExpressionAt(toks, open.pos, open.log);
      if value.out.Fail? then value
      else
        var close := ConsumeAt(toks, value.pos, RightParen, "expect ')' this after print", value.log);
        if close.out.Fail? then Failed(close)
        else Parsed(Ok(value.out.value), close.pos, close.log)
  }

  /** `printStatement`, started after the `print` keyword. */
  function PrintAt(toks: seq<Token>, pos: nat, log: seq<Julia.Diagnostic>): (r: Parsed<Stmt>)
    requires WellFormed(toks) && pos < |toks|
    ensures Advances(toks, pos, log, r)
  {
    var arg := ArgumentAt(toks, pos, log);
    if arg.out.Fail? then Failed(arg) else Parsed(Ok(Stmt.Print(arg.out.value)), arg.pos, arg.log)
  }

  /** `printlnStatement`, started after the `println` keyword. */
  function PrintlnAt(toks: seq<Token>, pos: nat, log: seq<Julia.Diagnostic>): (r: Parsed<Stmt>)
    requires WellFormed(toks) && pos < |toks|
    ensures Advances(toks, pos, log, r)
  {
    var arg := ArgumentAt(toks, pos, log);
    if arg.out.Fail? then Failed(arg) else Parsed(Ok(Stmt.Println(arg.out.value)), arg.pos, arg.log)
  }

  /** `statement`. */
  function StatementAt(toks: seq<Token>, pos: nat, log: seq<Julia.Diagnostic>): (r: Parsed<Option<Stmt>>)
    requires WellFormed(toks) && pos < |toks|
    decreases |toks| - pos, 0
    ensures Advances(toks, pos, log, r)
  {
    if Matches(toks, pos, [TokenType.If]) then IfAt(toks, pos + 1, log)
    else if Matches(toks, pos, [TokenType.While]) then Present(WhileAt(toks, pos + 1, log))
    else if Matches(toks, pos, [TokenType.Print]) then Present(PrintAt(toks, pos + 1, log))
    else if Matches(toks, pos, [TokenType.Println]) then Present(PrintlnAt(toks, pos + 1, log))
    else Present(ExpressionStatementAt(toks, pos, log))
  }

  /** `ifStatement`, started after the `if` keyword. A `(` straight after `if` yields no node. */
  function IfAt(toks: seq<Token>, pos: nat, log: seq<Julia.Diagnostic>): (r: Parsed<Option<Stmt>>)
    requires WellFormed(toks) && pos < |toks|
    decreases |toks| - pos, 1
    ensures Advances(toks, pos, log, r)
  {
    if Matches(toks, pos, [LeftParen]) then Parsed(Ok(None), pos + 1, log)
    else
      var condition := ExpressionAt(toks, pos, log);
      if condition.out.Fail? then Failed(condition)
      else IfBody(toks, condition.out.value, [], condition.pos, condition.log)
  }

  /** The then-loop of `ifStatement`: `end` closes the statement, `elseif` replaces it with the
      nested `if` parsed after it, `else` moves to the else-loop; anything else is a statement. */
  function IfBody(toks: seq<Token>, condition: Expr, thenBranch: seq<Option<Stmt>>, pos: nat, log: seq<Julia.Diagnostic>)
    : (r: Parsed<Option<Stmt>>)
    requires WellFormed(toks) && pos < |toks|
    decreases |toks| - pos, 1
    ensures Advances(toks, pos, log, r)
  {
    if Matches(toks, pos, [End]) then Parsed(Ok(Some(Stmt.If(condition, thenBranch, []))), pos + 1, log)
    else if Matches(toks, pos, [Elseif]) then IfAt(toks, pos + 1, log)
    else if Matches(toks, pos, [Else]) then ElseBody(toks, condition, thenBranch, [], pos + 1, log)
    else
      var s := StatementAt(toks, pos, log);
      if s.out.Fail? then s
      else IfBody(toks, condition, thenBranch + [s.out.value], s.pos, s.log)
  }

  /** The else-loop of `ifStatement`: statements up to `end`. */
  function ElseBody(toks: seq<Token>, condition: Expr, thenBranch: seq<Option<Stmt>>,
                    elseBranch: seq<Option<Stmt>>, pos: nat, log: seq<Julia.Diagnostic>): (r: Parsed<Option<Stmt>>)
    requires WellFormed(toks) && pos < |toks|
    decreases |toks| - pos, 1
    ensures Advances(toks, pos, log, r)
  {
    if Matches(toks, pos, [End]) then
      Parsed(Ok(Some(Stmt.If(condition, thenBranch, elseBranch))), pos + 1, log)
    else
      var s := StatementAt(toks, pos, log);
      if s.out.Fail? then s
      else ElseBody(toks, condition, thenBranch, elseBranch + [s.out.value], s.pos, s.log)
  }

  /** `whileStatement`, started after the `while` keyword. */
  function WhileAt(toks: seq<Token>, pos: nat, log: seq<Julia.Diagnostic>): (r: Parsed<Stmt>)
    requires WellFormed(toks) && pos < |toks|
    decreases |toks| - pos, 1
    ensures Advances(toks, pos, log, r)
  {
    var condition := ExpressionAt(toks, pos, log);
    if condition.out.Fail? then Failed(condition)
    else WhileBody(toks, condition.out.value, [], condition.pos, condition.log)
  }

  /** The loop of `whileStatement`: statements up to `end`. */
  function WhileBody(toks: seq<Token>, condition: Expr, body: seq<Option<Stmt>>, pos: nat, log: seq<Julia.Diagnostic>)
    : (r: Parsed<Stmt>)
    requires WellFormed(toks) && pos < |toks|
    decreases |toks| - pos, 1
    ensures Advances(toks, pos, log, r)
  {
    if Matches(toks, pos, [End]) then Parsed(Ok(Stmt.While(condition, body)), pos + 1, log)
    else
      var s := StatementAt(toks, pos, log);
      if s.out.Fail? then Failed(s)
      else WhileBody(toks, condition, body + [s.out.value], s.pos, s.log)
  }

  // ---------------------------------------------------------------------------------------
  // Declarations, recovery and the whole program

  /** `varDeclaration`, started after the identifier (which is the previous token). Without
      `=` it yields no statement, consumes nothing more and reports nothing. */
  function VarDeclarationAt(toks: seq<Token>, pos: nat, log: seq<Julia.Diagnostic>): (r: Parsed<Option<Stmt>>)
    requires WellFormed(toks) && 0 < pos < |toks|
    ensures Stays(toks, pos, r.pos) && log <= r.log
  {
    var name := toks[pos - 1];
    if Matches(toks, pos, [Equal]) then
      var initializer := ExpressionAt(toks, pos + 1, log);
      if initializer.out.Fail? then Failed(initializer)
      else Parsed(Ok(Some(Stmt.Var(name, initializer.out.value))), initializer.pos, initializer.log)
    else Parsed(Ok(None), pos, log)
  }

  /** The kinds before which `synchronize` stops (PRINTLN is not one of them). */
  const SyncKinds: set<TokenType> := {Class, For, TokenType.If, TokenType.While, TokenType.Print, Return}

  /** The loop of `synchronize`: skip tokens until EOF or a statement keyword is next. */
  function SkipFrom(toks: seq<Token>, pos: nat): (q: nat)
    requires WellFormed(toks) && pos < |toks|
    decreases |toks| - pos
    ensures Stays(toks, pos, q)
    ensures toks[q].kind == Eof || toks[q].kind in SyncKinds
    ensures forall i :: pos <= i < q ==> toks[i].kind != Eof && toks[i].kind !in SyncKinds
  {
    if toks[pos].kind == Eof || toks[pos].kind in SyncKinds then pos else SkipFrom(toks, pos + 1)
  }

  /** `synchronize`: one `advance`, then the loop. */
  function SynchronizeFrom(toks: seq<Token>, pos: nat): (q: nat)
    requires WellFormed(toks) && pos < |toks|
    ensures Stays(toks, pos, q) && (toks[pos].kind != Eof ==> pos < q)
    ensures toks[q].kind == Eof || toks[q].kind in SyncKinds
    ensures forall i :: pos < i < q ==> toks[i].kind != Eof && toks[i].kind !in SyncKinds
  {
    SkipFrom(toks, if toks[pos].kind == Eof then pos else pos + 1)
  }

  /** The `try` block of `declaration`: an identifier starts a variable declaration, anything
      else a statement. */
  function AttemptAt(toks: seq<Token>, pos: nat, log: seq<Julia.Diagnostic>): (r: Parsed<Option<Stmt>>)
    requires WellFormed(toks) && pos < |toks|
    ensures Stays(toks, pos, r.pos) && log <= r.log
  {
    if Matches(toks, pos, [Identifier]) then VarDeclarationAt(toks, pos + 1, log) else StatementAt(toks, pos, log)
  }

  /** `declaration`: a syntax error in its attempt is caught here: the parser synchronizes and
      yields no statement. */
  function DeclarationAt(toks: seq<Token>, pos: nat, log: seq<Julia.Diagnostic>): (r: Parsed<Option<Stmt>>)
    requires WellFormed(toks) && pos < |toks|
    ensures r.out.Ok? && Stays(toks, pos, r.pos) && log <= r.log
    ensures toks[pos].kind != Eof ==> pos < r.pos
  {
    var attempt := AttemptAt(toks, pos, log);
    if attempt.out.Ok? then attempt
    else Parsed(Ok(None), SynchronizeFrom(toks, attempt.pos), attempt.log)
  }

  /** The loop of `parse`: one `declaration` per round until EOF is next. */
  function ProgramLoop(toks: seq<Token>, statements: seq<Option<Stmt>>, pos: nat, log: seq<Julia.Diagnostic>)
    : (r: Parsed<seq<Option<Stmt>>>)
    requires WellFormed(toks) && pos < |toks|
    decreases |toks| - pos
    ensures r.out.Ok? && Stays(toks, pos, r.pos) && toks[r.pos].kind == Eof && log <= r.log
    ensures |statements| <= |r.out.value| <= |statements| + (r.pos - pos)
    ensures r.out.value[..|statements|] == statements
  {
    if toks[pos].kind == Eof then Parsed(Ok(statements), pos, log)
    else
      var d := DeclarationAt(toks, pos, log);
      var rest := ProgramLoop(toks, statements + [d.out.value], d.pos, d.log);
      assert rest.out.value[..|statements|] == rest.out.value[..|statements| + 1][..|statements|];
      rest
  }

  /** `parse`: never fails, ends with EOF next, keeps every earlier diagnostic, and gives at most
      one entry per consumed token. */
  function ProgramAt(toks: seq<Token>, pos: nat, log: seq<Julia.Diagnostic>): (r: Parsed<seq<Option<Stmt>>>)
    requires WellFormed(toks) && pos < |toks|
    ensures r.out.Ok? && Stays(toks, pos, r.pos) && toks[r.pos].kind == Eof && log <= r.log
    ensures |r.out.value| <= r.pos - pos
  {
    ProgramLoop(toks, [], pos, log)
  }
}
