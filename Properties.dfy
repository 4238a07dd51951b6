/** What the parser's routines do, stated over the functions of `Grammar`: every syntax error is
    reported before it propagates, which inputs each routine rejects and with which message,
    how binary operators group, what declarations, recovery and statements yield, and how
    `parse` is one `declaration` after another. */
module Properties {
  import opened Wrappers
  import opened Tokens
  import opened Ast
  import opened Grammar
  import Shapes
  import Julia

  // ---------------------------------------------------------------------------------------
  // Cursor primitives

  /** `match` tries the kinds in turn with `check`: it matches exactly when one of them checks. */
  lemma MatchesSomeCheck(toks: seq<Token>, pos: nat, kinds: seq<TokenType>)
    requires pos < |toks|
    ensures Matches(toks, pos, kinds) <==> exists i :: 0 <= i < |kinds| && Check(toks, pos, kinds[i])
  {
    if Matches(toks, pos, kinds) {
      var i :| 0 <= i < |kinds| && kinds[i] == toks[pos].kind;
      assert Check(toks, pos, kinds[i]);
    }
  }

  // ---------------------------------------------------------------------------------------
  // A syntax error is always reported before it propagates (Java's `error` comes before every
  // `throw`): a routine that fails has added at least one diagnostic.

  lemma {:induction false} PrimaryReports(toks: seq<Token>, pos: nat, log: seq<Julia.Diagnostic>)
    requires WellFormed(toks) && pos < |toks|
    ensures var r := PrimaryAt(toks, pos, log); r.out.Fail? ==> |log| < |r.log|
    decreases |toks| - pos, 0
  {
    if !Matches(toks, pos, [False]) && !Matches(toks, pos, [True]) && !Matches(toks, pos, [Nil])
       && !Matches(toks, pos, [Number, String]) && !Matches(toks, pos, [Identifier])
       && Matches(toks, pos, [LeftParen])
    {
      ExpressionReports(toks, pos + 1, log);
    }
  }

  lemma {:induction false} UnaryReports(toks: seq<Token>, pos: nat, log: seq<Julia.Diagnostic>)
    requires WellFormed(toks) && pos < |toks|
    ensures var r := UnaryAt(toks, pos, log); r.out.Fail? ==> |log| < |r.log|
    decreases |toks| - pos, 1
  {
    if Matches(toks, pos, [Bang, Minus]) {
      UnaryReports(toks, pos + 1, log);
    } else {
      PrimaryReports(toks, pos, log);
    }
  }

  lemma {:induction false} OperandReports(lv: Level, toks: seq<Token>, pos: nat, log: seq<Julia.Diagnostic>)
    requires WellFormed(toks) && pos < |toks|
    ensures var r := OperandAt(lv, toks, pos, log); r.out.Fail? ==> |log| < |r.log|
    decreases |toks| - pos, 2 * Rank(lv)
  {
    if lv == FactorLevel {
      UnaryReports(toks, pos, log);
    } else {
      ChainReports(Tighter(lv), toks, pos, log);
    }
  }

  lemma {:induction false} ChainReports(lv: Level, toks: seq<Token>, pos: nat, log: seq<Julia.Diagnostic>)
    requires WellFormed(toks) && pos < |toks|
    ensures var r := ChainAt(lv, toks, pos, log); r.out.Fail? ==> |log| < |r.log|
    decreases |toks| - pos, 2 * Rank(lv) + 1
  {
    var first := OperandAt(lv, toks, pos, log);
    OperandReports(lv, toks, pos, log);
    if first.out.Ok? {
      ChainRestReports(lv, toks, first.out.value, first.pos, first.log);
    }
  }

  lemma {:induction false} ChainRestReports(lv: Level, toks: seq<Token>, left: Expr, pos: nat, log: seq<Julia.Diagnostic>)
    requires WellFormed(toks) && pos < |toks|
    ensures var r := ChainRest(lv, toks, left, pos, log); r.out.Fail? ==> |log| < |r.log|
    decreases |toks| - pos, 2 * Rank(lv) + 1
  {
    if Matches(toks, pos, Operators(lv)) {
      var right := OperandAt(lv, toks, pos + 1, log);
      OperandReports(lv, toks, pos + 1, log);
      if right.out.Ok? {
        ChainRestReports(lv, toks, Node(lv, left, toks[pos], right.out.value), right.pos, right.log);
      }
    }
  }

  lemma {:induction false} AssignmentReports(toks: seq<Token>, pos: nat, log: seq<Julia.Diagnostic>)
    requires WellFormed(toks) && pos < |toks|
    ensures var r := AssignmentAt(toks, pos, log); r.out.Fail? ==> |log| < |r.log|
    decreases |toks| - pos, 14
  {
    var left := ChainAt(OrLevel, toks, pos, log);
    ChainReports(OrLevel, toks, pos, log);
    if left.out.Ok? && Matches(toks, left.pos, [Equal]) {
      AssignmentReports(toks, left.pos + 1, left.log);
    }
  }

  lemma {:induction false} ExpressionReports(toks: seq<Token>, pos: nat, log: seq<Julia.Diagnostic>)
    requires WellFormed(toks) && pos < |toks|
    ensures var r := ExpressionAt(toks, pos, log); r.out.Fail? ==> |log| < |r.log|
    decreases |toks| - pos, 15
  {
    AssignmentReports(toks, pos, log);
  }

  lemma ArgumentReports(toks: seq<Token>, pos: nat, log: seq<Julia.Diagnostic>)
    requires WellFormed(toks) && pos < |toks|
    ensures var r := ArgumentAt(toks, pos, log); r.out.Fail? ==> |log| < |r.log|
  {
    var open := ConsumeAt(toks, pos, LeftParen, "expect '(' this after print", log);
    if open.out.Ok? {
      ExpressionReports(toks, open.pos, open.log);
    }
  }

  lemma {:induction false} StatementReports(toks: seq<Token>, pos: nat, log: seq<Julia.Diagnostic>)
    requires WellFormed(toks) && pos < |toks|
    ensures var r := StatementAt(toks, pos, log); r.out.Fail? ==> |log| < |r.log|
    decreases |toks| - pos, 0
  {
    if Matches(toks, pos, [TokenType.If]) {
      IfReports(toks, pos + 1, log);
    } else if Matches(toks, pos, [TokenType.While]) {
      WhileReports(toks, pos + 1, log);
    } else if Matches(toks, pos, [TokenType.Print]) || Matches(toks, pos, [TokenType.Println]) {
      ArgumentReports(toks, pos + 1, log);
    } else {
      ExpressionReports(toks, pos, log);
    }
  }

  lemma {:induction false} IfReports(toks: seq<Token>, pos: nat, log: seq<Julia.Diagnostic>)
    requires WellFormed(toks) && pos < |toks|
    ensures var r := IfAt(toks, pos, log); r.out.Fail? ==> |log| < |r.log|
    decreases |toks| - pos, 1
  {
    if !Matches(toks, pos, [LeftParen]) {
      var condition := ExpressionAt(toks, pos, log);
      ExpressionReports(toks, pos, log);
      if condition.out.Ok? {
        IfBodyReports(toks, condition.out.value, [], condition.pos, condition.log);
      }
    }
  }

  lemma {:induction false} IfBodyReports(toks: seq<Token>, condition: Expr, thenBranch: seq<Option<Stmt>>,
                                         pos: nat, log: seq<Julia.Diagnostic>)
    requires WellFormed(toks) && pos < |toks|
    ensures var r := IfBody(toks, condition, thenBranch, pos, log); r.out.Fail? ==> |log| < |r.log|
    decreases |toks| - pos, 1
  {
    if Matches(toks, pos, [End]) {
    } else if Matches(toks, pos, [Elseif]) {
      IfReports(toks, pos + 1, log);
    } else if Matches(toks, pos, [Else]) {
      ElseBodyReports(toks, condition, thenBranch, [], pos + 1, log);
    } else {
      var s := StatementAt(toks, pos, log);
      StatementReports(toks, pos, log);
      if s.out.Ok? {
        IfBodyReports(toks, condition, thenBranch + [s.out.value], s.pos, s.log);
      }
    }
  }

  lemma {:induction false} ElseBodyReports(toks: seq<Token>, condition: Expr, thenBranch: seq<Option<Stmt>>,
                                           elseBranch: seq<Option<Stmt>>, pos: nat, log: seq<Julia.Diagnostic>)
    requires WellFormed(toks) && pos < |toks|
    ensures var r := ElseBody(toks, condition, thenBranch, elseBranch, pos, log); r.out.Fail? ==> |log| < |r.log|
    decreases |toks| - pos, 1
  {
    if !Matches(toks, pos, [End]) {
      var s := StatementAt(toks, pos, log);
      StatementReports(toks, pos, log);
      if s.out.Ok? {
        ElseBodyReports(toks, condition, thenBranch, elseBranch + [s.out.value], s.pos, s.log);
      }
    }
  }

  lemma {:induction false} WhileReports(toks: seq<Token>, pos: nat, log: seq<Julia.Diagnostic>)
    requires WellFormed(toks) && pos < |toks|
    ensures var r := WhileAt(toks, pos, log); r.out.Fail? ==> |log| < |r.log|
    decreases |toks| - pos, 1
  {
    var condition := ExpressionAt(toks, pos, log);
    ExpressionReports(toks, pos, log);
    if condition.out.Ok? {
      WhileBodyReports(toks, condition.out.value, [], condition.pos, condition.log);
    }
  }

  lemma {:induction false} WhileBodyReports(toks: seq<Token>, condition: Expr, body: seq<Option<Stmt>>,
                                            pos: nat, log: seq<Julia.Diagnostic>)
    requires WellFormed(toks) && pos < |toks|
    ensures var r := WhileBody(toks, condition, body, pos, log); r.out.Fail? ==> |log| < |r.log|
    decreases |toks| - pos, 1
  {
    if !Matches(toks, pos, [End]) {
      var s := StatementAt(toks, pos, log);
      StatementReports(toks, pos, log);
      if s.out.Ok? {
        WhileBodyReports(toks, condition, body + [s.out.value], s.pos, s.log);
      }
    }
  }

  // ---------------------------------------------------------------------------------------
  // Primary

  /** The kinds a `primary` can start with. */
  predicate StartsPrimary(toks: seq<Token>, pos: nat)
    requires pos < |toks|
  {
    Matches(toks, pos, [False, True, Nil, Number, String, Identifier, LeftParen])
  }

  /** `primary` fails on the spot with "Expect expression." at the next token exactly when that
      token starts no primary (EOF included); every other failure comes after a `(`. */
  lemma ExpectExpression(toks: seq<Token>, pos: nat, log: seq<Julia.Diagnostic>)
    requires WellFormed(toks) && pos < |toks|
    ensures PrimaryAt(toks, pos, log) == Parsed(Fail, pos, log + [Julia.TokenError(toks[pos], "Expect expression.")])
            <==> !StartsPrimary(toks, pos)
  {
  }

  /** A parenthesised expression must be closed: with `)` next it becomes a grouping that ends
      after the `)`; otherwise "Expect ')' after expression." is reported at that token and the
      primary fails there. */
  lemma GroupingNeedsClose(toks: seq<Token>, pos: nat, log: seq<Julia.Diagnostic>)
    requires WellFormed(toks) && pos + 1 < |toks| && toks[pos].kind == LeftParen
    requires ExpressionAt(toks, pos + 1, log).out.Ok?
    ensures var inner := ExpressionAt(toks, pos + 1, log);
            var r := PrimaryAt(toks, pos, log);
            && (r.out.Ok? <==> toks[inner.pos].kind == RightParen)
            && (r.out.Ok? ==> r == Parsed(Ok(Grouping(inner.out.value)), inner.pos + 1, inner.log))
            && (r.out.Fail? ==>
                  r == Parsed(Fail, inner.pos, inner.log + [Julia.TokenError(toks[inner.pos], "Expect ')' after expression.")]))
  {
  }

  // ---------------------------------------------------------------------------------------
  // Precedence and associativity

  /** A variable followed by no operator of `lv` or a tighter level is a whole chain of `lv`. */
  lemma {:induction false} VariableChain(lv: Level, toks: seq<Token>, pos: nat, log: seq<Julia.Diagnostic>)
    requires WellFormed(toks) && pos + 1 < |toks| && toks[pos].kind == Identifier
    requires forall l :: Rank(l) <= Rank(lv) ==> toks[pos + 1].kind !in Operators(l)
    ensures ChainAt(lv, toks, pos, log) == Parsed(Ok(Variable(toks[pos])), pos + 1, log)
    decreases Rank(lv)
  {
    var v := Parsed(Ok(Variable(toks[pos])), pos + 1, log);
    if lv == FactorLevel {
      assert PrimaryAt(toks, pos, log) == v;
      assert UnaryAt(toks, pos, log) == v;
    } else {
      VariableChain(Tighter(lv), toks, pos, log);
    }
    assert OperandAt(lv, toks, pos, log) == v;
    assert toks[pos + 1].kind !in Operators(lv);
    assert ChainRest(lv, toks, Variable(toks[pos]), pos + 1, log) == v;
  }

  /** A chain of a tighter level followed by no operator of the levels up to `lv` is also the
      whole chain of `lv`: looser loops match nothing and pass it through. */
  lemma {:induction false} LooserLevelsPassThrough(lv: Level, t: Level, toks: seq<Token>, pos: nat,
                                                   log: seq<Julia.Diagnostic>)
    requires WellFormed(toks) && pos < |toks| && Rank(t) <= Rank(lv)
    requires var r := ChainAt(t, toks, pos, log);
             r.out.Ok? && forall l :: Rank(t) < Rank(l) <= Rank(lv) ==> toks[r.pos].kind !in Operators(l)
    ensures ChainAt(lv, toks, pos, log) == ChainAt(t, toks, pos, log)
    decreases Rank(lv)
  {
    if Rank(t) < Rank(lv) {
      LooserLevelsPassThrough(Tighter(lv), t, toks, pos, log);
    } else {
      assert lv == t;
    }
  }

  /** `a - b - c` groups to the left: `(a - b) - c`. */
  lemma MinusGroupsLeft(a: Token, minus1: Token, b: Token, minus2: Token, c: Token, eof: Token)
    requires a.kind == Identifier && b.kind == Identifier && c.kind == Identifier
    requires minus1.kind == Minus && minus2.kind == Minus && eof.kind == Eof
    ensures ExpressionAt([a, minus1, b, minus2, c, eof], 0, [])
            == Parsed(Ok(Binary(Binary(Variable(a), minus1, Variable(b)), minus2, Variable(c))), 5, [])
  {
    var toks := [a, minus1, b, minus2, c, eof];
    var ab := Binary(Variable(a), minus1, Variable(b));
    var abc := Binary(ab, minus2, Variable(c));
    VariableChain(FactorLevel, toks, 0, []);
    VariableChain(FactorLevel, toks, 2, []);
    VariableChain(FactorLevel, toks, 4, []);
    assert ChainRest(TermLevel, toks, abc, 5, []) == Parsed(Ok(abc), 5, []);
    assert ChainRest(TermLevel, toks, ab, 3, []) == Parsed(Ok(abc), 5, []);
    assert ChainRest(TermLevel, toks, Variable(a), 1, []) == Parsed(Ok(abc), 5, []);
    assert ChainAt(TermLevel, toks, 0, []) == Parsed(Ok(abc), 5, []);
    LooserLevelsPassThrough(OrLevel, TermLevel, toks, 0, []);
  }

  // ---------------------------------------------------------------------------------------
  // Assignment

  /** An `Assign` comes out exactly when the left side parsed to a variable, `=` followed and the
      right side parsed. */
  lemma AssignOnlyToVariables(toks: seq<Token>, pos: nat, log: seq<Julia.Diagnostic>)
    requires WellFormed(toks) && pos < |toks|
    ensures var r := AssignmentAt(toks, pos, log);
            var left := ChainAt(OrLevel, toks, pos, log);
            r.out.Ok? && r.out.value.Assign?
            <==> && left.out.Ok? && left.out.value.Variable? && Matches(toks, left.pos, [Equal])
                 && AssignmentAt(toks, left.pos + 1, left.log).out.Ok?
  {
    var left := ChainAt(OrLevel, toks, pos, log);
    Shapes.ChainShape(OrLevel, toks, pos, log);
    if left.out.Ok? && left.out.value.Assign? {
      Shapes.AssignNotInChain(OrLevel, left.out.value);
    }
  }

  /** Any other target is reported at the `=` and parsing goes on: the right side is consumed
      and the left-hand expression is the result. */
  lemma InvalidAssignmentTarget(toks: seq<Token>, pos: nat, log: seq<Julia.Diagnostic>)
    requires WellFormed(toks) && pos < |toks|
    requires var left := ChainAt(OrLevel, toks, pos, log);
             && left.out.Ok? && !left.out.value.Variable? && Matches(toks, left.pos, [Equal])
             && AssignmentAt(toks, left.pos + 1, left.log).out.Ok?
    ensures var left := ChainAt(OrLevel, toks, pos, log);
            var value := AssignmentAt(toks, left.pos + 1, left.log);
            var r := AssignmentAt(toks, pos, log);
            && r.out == Ok(left.out.value) && r.pos == value.pos
            && |r.log| == |value.log| + 1 && r.log[..|value.log|] == value.log
            && r.log[|value.log|]
               == Julia.SyntaxError(toks[left.pos].line, " at '" + toks[left.pos].lexeme + "'", "Invalid assignment target.")
  {
    var left := ChainAt(OrLevel, toks, pos, log);
    var value := AssignmentAt(toks, left.pos + 1, left.log);
    assert AssignmentAt(toks, pos, log).log == value.log + [Julia.TokenError(toks[left.pos], "Invalid assignment target.")];
  }

  // ---------------------------------------------------------------------------------------
  // Declarations and recovery

  /** An identifier not followed by `=` is consumed and yields nothing, reporting nothing. */
  lemma BareIdentifier(toks: seq<Token>, pos: nat, log: seq<Julia.Diagnostic>)
    requires WellFormed(toks) && pos + 1 < |toks|
    requires toks[pos].kind == Identifier && toks[pos + 1].kind != Equal
    ensures DeclarationAt(toks, pos, log) == Parsed(Ok(None), pos + 1, log)
  {
  }

  /** An identifier followed by `=` and an expression declares that variable. */
  lemma VariableWithInitializer(toks: seq<Token>, pos: nat, log: seq<Julia.Diagnostic>)
    requires WellFormed(toks) && pos + 2 < |toks|
    requires toks[pos].kind == Identifier && toks[pos + 1].kind == Equal
    requires ExpressionAt(toks, pos + 2, log).out.Ok?
    ensures var e := ExpressionAt(toks, pos + 2, log);
            DeclarationAt(toks, pos, log) == Parsed(Ok(Some(Stmt.Var(toks[pos], e.out.value))), e.pos, e.log)
  {
  }

  /** When that attempt fails, `declaration` has reported the error, yields nothing, and resumes
      past the declaration's first token: at EOF or at a CLASS, FOR, IF, WHILE, PRINT or RETURN
      (never at PRINTLN), with every token skipped on the way being none of these. */
  lemma Recovery(toks: seq<Token>, pos: nat, log: seq<Julia.Diagnostic>)
    requires WellFormed(toks) && pos < |toks| && toks[pos].kind != Eof
    requires AttemptAt(toks, pos, log).out.Fail?
    ensures var a := AttemptAt(toks, pos, log);
            var r := DeclarationAt(toks, pos, log);
            && r.out == Ok(None) && r.log == a.log && |log| < |r.log|
            && pos <= a.pos <= r.pos && pos < r.pos
            && (toks[r.pos].kind == Eof || toks[r.pos].kind in SyncKinds) && toks[r.pos].kind != TokenType.Println
            && forall i :: a.pos < i < r.pos ==> toks[i].kind != Eof && toks[i].kind !in SyncKinds
  {
    if Matches(toks, pos, [Identifier]) {
      if Matches(toks, pos + 1, [Equal]) {
        ExpressionReports(toks, pos + 2, log);
      }
    } else {
      StatementReports(toks, pos, log);
    }
  }

  // ---------------------------------------------------------------------------------------
  // Statements

  /** `if (` yields no statement: the `(` is consumed and nothing is reported. */
  lemma IfParen(toks: seq<Token>, pos: nat, log: seq<Julia.Diagnostic>)
    requires WellFormed(toks) && pos + 1 < |toks|
    requires toks[pos].kind == TokenType.If && toks[pos + 1].kind == LeftParen
    ensures StatementAt(toks, pos, log) == Parsed(Ok(None), pos + 2, log)
  {
  }

  /** At `elseif` the condition and the then-statements gathered so far play no part: the
      result is the `if` parsed after the keyword. */
  lemma ElseifDiscards(toks: seq<Token>, condition: Expr, thenBranch: seq<Option<Stmt>>,
                       otherCondition: Expr, otherBranch: seq<Option<Stmt>>, pos: nat, log: seq<Julia.Diagnostic>)
    requires WellFormed(toks) && pos < |toks| && toks[pos].kind == Elseif
    ensures IfBody(toks, condition, thenBranch, pos, log) == IfBody(toks, otherCondition, otherBranch, pos, log)
    ensures IfBody(toks, condition, thenBranch, pos, log) == IfAt(toks, pos + 1, log)
  {
  }

  /** The else-loop keeps the condition and the then-statements, extends the else-statements and
      ends just after an `end`. */
  lemma {:induction false} ElseCollects(toks: seq<Token>, condition: Expr, thenBranch: seq<Option<Stmt>>,
                                        elseBranch: seq<Option<Stmt>>, pos: nat, log: seq<Julia.Diagnostic>)
    requires WellFormed(toks) && pos < |toks|
    ensures var r := ElseBody(toks, condition, thenBranch, elseBranch, pos, log);
            r.out.Ok? ==>
              && r.out.value.Some? && r.out.value.value.If?
              && r.out.value.value.condition == condition && r.out.value.value.thenBranch == thenBranch
              && |elseBranch| <= |r.out.value.value.elseBranch|
              && r.out.value.value.elseBranch[..|elseBranch|] == elseBranch
              && pos < r.pos && toks[r.pos - 1].kind == End
    decreases |toks| - pos
  {
    if !Matches(toks, pos, [End]) {
      var s := StatementAt(toks, pos, log);
      if s.out.Ok? {
        var longer := elseBranch + [s.out.value];
        ElseCollects(toks, condition, thenBranch, longer, s.pos, s.log);
        var r := ElseBody(toks, condition, thenBranch, longer, s.pos, s.log);
        if r.out.Ok? {
          assert r.out.value.value.elseBranch[..|elseBranch|] == r.out.value.value.elseBranch[..|longer|][..|elseBranch|];
        }
      }
    }
  }

  /** The loop of `while` keeps the condition, extends the body and ends just after an `end`. */
  lemma {:induction false} WhileCollects(toks: seq<Token>, condition: Expr, body: seq<Option<Stmt>>,
                                         pos: nat, log: seq<Julia.Diagnostic>)
    requires WellFormed(toks) && pos < |toks|
    ensures var r := WhileBody(toks, condition, body, pos, log);
            r.out.Ok? ==>
              && r.out.value.While? && r.out.value.condition == condition
              && |body| <= |r.out.value.body| && r.out.value.body[..|body|] == body
              && pos < r.pos && toks[r.pos - 1].kind == End
    decreases |toks| - pos
  {
    if !Matches(toks, pos, [End]) {
      var s := StatementAt(toks, pos, log);
      if s.out.Ok? {
        var longer := body + [s.out.value];
        WhileCollects(toks, condition, longer, s.pos, s.log);
        var r := WhileBody(toks, condition, longer, s.pos, s.log);
        if r.out.Ok? {
          assert r.out.value.body[..|body|] == r.out.value.body[..|longer|][..|body|];
        }
      }
    }
  }

  /** `print` and `println` need `(`: without it they fail on the spot, reporting the missing
      parenthesis at the next token; when they succeed the argument was closed by `)`. */
  lemma PrintNeedsParentheses(toks: seq<Token>, pos: nat, log: seq<Julia.Diagnostic>)
    requires WellFormed(toks) && pos < |toks|
    ensures var r := ArgumentAt(toks, pos, log);
            && (r == Parsed(Fail, pos, log + [Julia.TokenError(toks[pos], "expect '(' this after print")])
                <==> !Check(toks, pos, LeftParen))
            && (r.out.Ok? ==> toks[pos].kind == LeftParen && pos < r.pos && toks[r.pos - 1].kind == RightParen)
  {
  }

  // ---------------------------------------------------------------------------------------
  // The whole program

  /** The loop of `parse` only appends to what it was given: statements gathered before `more`
      stay in front of whatever the loop adds. */
  lemma {:induction false} ProgramLoopAppends(toks: seq<Token>, done: seq<Option<Stmt>>, more: seq<Option<Stmt>>,
                                              pos: nat, log: seq<Julia.Diagnostic>)
    requires WellFormed(toks) && pos < |toks|
    ensures var r := ProgramLoop(toks, done + more, pos, log);
            var alone := ProgramLoop(toks, more, pos, log);
            r.out.value == done + alone.out.value && r.pos == alone.pos && r.log == alone.log
    decreases |toks| - pos
  {
    if toks[pos].kind != Eof {
      var d := DeclarationAt(toks, pos, log);
      assert done + more + [d.out.value] == done + (more + [d.out.value]);
      ProgramLoopAppends(toks, done, more + [d.out.value], d.pos, d.log);
    }
  }

  /** `parse` is one `declaration` after another, each contributing exactly one entry (possibly
      none-valued), until EOF is next; at EOF it yields nothing. */
  lemma ProgramIsDeclarations(toks: seq<Token>, pos: nat, log: seq<Julia.Diagnostic>)
    requires WellFormed(toks) && pos < |toks|
    ensures toks[pos].kind == Eof ==> ProgramAt(toks, pos, log) == Parsed(Ok([]), pos, log)
    ensures toks[pos].kind != Eof ==>
              var d := DeclarationAt(toks, pos, log);
              var rest := ProgramAt(toks, d.pos, d.log);
              ProgramAt(toks, pos, log) == Parsed(Ok([d.out.value] + rest.out.value), rest.pos, rest.log)
  {
    if toks[pos].kind != Eof {
      var d := DeclarationAt(toks, pos, log);
      ProgramLoopAppends(toks, [d.out.value], [], d.pos, d.log);
      assert [d.out.value] + [] == [d.out.value];
      assert [] + [d.out.value] == [d.out.value];
      assert ProgramAt(toks, pos, log) == ProgramLoop(toks, [d.out.value], d.pos, d.log);
    }
  }
}
