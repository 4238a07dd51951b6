/** The shapes of the trees the parser builds, and proofs that every routine that succeeds
    builds a tree of its own shape.

    A tree of a binary level is a left-leaning chain: either an operand (a tree of the next
    tighter level) or a node of the level whose right child is an operand and whose left child
    is again a chain of the level. So looser operators occur below tighter ones only inside a
    grouping, and the right child of a node is never an ungrouped node of the same level. */
module Shapes {
  import opened Wrappers
  import opened Tokens
  import opened Ast
  import opened Grammar

  // ---------------------------------------------------------------------------------------
  // Expression shapes, one per grammar level

  predicate IsPrimary(e: Expr)
    decreases e, 0
  {
    match e
    case Literal(_) => true
    case Variable(name) => name.kind == Identifier
    case Grouping(inner) => IsAssignment(inner)
    case _ => false
  }

  predicate IsUnary(e: Expr)
    decreases e, 1
  {
    IsPrimary(e) || (e.Unary? && e.operator.kind in [Bang, Minus] && IsUnary(e.right))
  }

  /** An operand of `lv`'s chains: a `unary` below `factor`, else a chain of the next level. */
  predicate IsOperand(lv: Level, e: Expr)
    decreases e, 2 * Rank(lv)
  {
    if lv == FactorLevel then IsUnary(e) else IsChain(Tighter(lv), e)
  }

  /** A node built by `lv`'s loop. */
  predicate IsLevelNode(lv: Level, e: Expr)
  {
    (if IsLogicalLevel(lv) then e.Logical? else e.Binary?) && e.operator.kind in Operators(lv)
  }

  predicate IsChain(lv: Level, e: Expr)
    decreases e, 2 * Rank(lv) + 1
  {
    IsOperand(lv, e) || (IsLevelNode(lv, e) && IsChain(lv, e.left) && IsOperand(lv, e.right))
  }

  predicate IsAssignment(e: Expr)
    decreases e, 14
  {
    IsChain(OrLevel, e) || (e.Assign? && e.name.kind == Identifier && IsAssignment(e.rhs))
  }

  // ---------------------------------------------------------------------------------------
  // Statement shapes. Bodies of `if` and `while` are parsed with `statement`, never with
  // `declaration`, so a `Var` statement only ever appears at the top level.

  predicate IsStatement(s: Stmt)
    decreases s
  {
    match s
    case Print(e) => IsAssignment(e)
    case Println(e) => IsAssignment(e)
    case Expression(e) => IsAssignment(e)
    case Var(_, _) => false
    case If(c, t, e) => IsAssignment(c) && AllStatements(t) && AllStatements(e)
    case While(c, b) => IsAssignment(c) && AllStatements(b)
  }

  /** A body entry: Java's `null` (from `if (`), or a statement. */
  predicate IsStatementEntry(o: Option<Stmt>)
    decreases o
  {
    match o
    case None => true
    case Some(s) => IsStatement(s)
  }

  predicate AllStatements(ss: seq<Option<Stmt>>)
    decreases ss
  {
    forall i :: 0 <= i < |ss| ==> IsStatementEntry(ss[i])
  }

  predicate IsDeclaration(s: Stmt)
  {
    IsStatement(s) || (s.Var? && s.name.kind == Identifier && IsAssignment(s.initializer))
  }

  predicate AllDeclarations(ss: seq<Option<Stmt>>)
  {
    forall i :: 0 <= i < |ss| ==> ss[i].Some? ==> IsDeclaration(ss[i].value)
  }

  // ---------------------------------------------------------------------------------------
  // Facts about the shapes

  /** No operator belongs to two levels. */
  lemma OperatorsDisjoint(a: Level, b: Level, k: TokenType)
    requires a != b && k in Operators(a)
    ensures k !in Operators(b)
  {
  }

  /** A node of a looser level is no tree of a tighter level. */
  lemma {:induction false} LooserNodeOutside(lv: Level, t: Level, e: Expr)
    requires Rank(t) < Rank(lv) && IsLevelNode(lv, e)
    ensures !IsOperand(t, e) && !IsChain(t, e)
    decreases Rank(t)
  {
    OperatorsDisjoint(lv, t, e.operator.kind);
    assert !IsLevelNode(t, e);
    if t == FactorLevel {
      assert !IsPrimary(e);
      assert !IsUnary(e);
    } else {
      LooserNodeOutside(lv, Tighter(t), e);
    }
  }

  /** A unary or primary tree is no node of a binary level. */
  lemma UnaryIsNoNode(lv: Level, e: Expr)
    requires IsUnary(e)
    ensures !IsLevelNode(lv, e)
  {
    assert IsPrimary(e) || e.Unary?;
  }

  /** Left associativity: in a chain of `lv`, a node's right child is not an ungrouped node of
      `lv` (so `a - b - c` can only have been grouped as `(a - b) - c`), and its left child is
      again a chain of `lv`. */
  lemma RightChildNotSameLevel(lv: Level, e: Expr)
    requires IsChain(lv, e) && IsLevelNode(lv, e)
    ensures IsChain(lv, e.left) && IsOperand(lv, e.right) && !IsLevelNode(lv, e.right)
  {
    if lv == FactorLevel {
      assert !IsPrimary(e) && !IsUnary(e);
      assert IsOperand(lv, e.right);
      assert IsUnary(e.right);
      UnaryIsNoNode(lv, e.right);
    } else {
      LooserNodeOutside(lv, Tighter(lv), e);
      if IsLevelNode(lv, e.right) {
        LooserNodeOutside(lv, Tighter(lv), e.right);
      }
    }
  }

  /** A variable on its own, at any level, is a primary; so its name is an identifier. */
  lemma {:induction false} VariableInChain(lv: Level, e: Expr)
    requires e.Variable? && IsChain(lv, e)
    ensures e.name.kind == Identifier
    decreases Rank(lv)
  {
    assert IsOperand(lv, e);
    if lv == FactorLevel {
      assert IsUnary(e);
      assert IsPrimary(e);
    } else {
      VariableInChain(Tighter(lv), e);
    }
  }

  /** An assignment is no chain: `or` never yields an `Assign`. */
  lemma {:induction false} AssignNotInChain(lv: Level, e: Expr)
    requires e.Assign?
    ensures !IsChain(lv, e)
    decreases Rank(lv)
  {
    if lv == FactorLevel {
      assert !IsPrimary(e);
      assert !IsUnary(e);
    } else {
      AssignNotInChain(Tighter(lv), e);
    }
  }

  lemma AppendStatement(ss: seq<Option<Stmt>>, o: Option<Stmt>)
    requires AllStatements(ss) && IsStatementEntry(o)
    ensures AllStatements(ss + [o])
  {
    assert forall i :: 0 <= i < |ss| ==> (ss + [o])[i] == ss[i];
  }

  lemma AppendDeclaration(ss: seq<Option<Stmt>>, o: Option<Stmt>)
    requires AllDeclarations(ss) && (o.Some? ==> IsDeclaration(o.value))
    ensures AllDeclarations(ss + [o])
  {
    assert forall i :: 0 <= i < |ss| ==> (ss + [o])[i] == ss[i];
  }

  // ---------------------------------------------------------------------------------------
  // Each expression routine that succeeds yields a tree of its level's shape

  lemma {:induction false} PrimaryShape(toks: seq<Token>, pos: nat, log: seq<Julia.Diagnostic>)
    requires WellFormed(toks) && pos < |toks|
    ensures var r := PrimaryAt(toks, pos, log); r.out.Ok? ==> IsPrimary(r.out.value)
    decreases |toks| - pos, 0
  {
    if !Matches(toks, pos, [False]) && !Matches(toks, pos, [True]) && !Matches(toks, pos, [Nil])
       && !Matches(toks, pos, [Number, String]) && !Matches(toks, pos, [Identifier])
       && Matches(toks, pos, [LeftParen])
    {
      ExpressionShape(toks, pos + 1, log);
    }
  }

  lemma {:induction false} UnaryShape(toks: seq<Token>, pos: nat, log: seq<Julia.Diagnostic>)
    requires WellFormed(toks) && pos < |toks|
    ensures var r := UnaryAt(toks, pos, log); r.out.Ok? ==> IsUnary(r.out.value)
    decreases |toks| - pos, 1
  {
    if Matches(toks, pos, [Bang, Minus]) {
      UnaryShape(toks, pos + 1, log);
    } else {
      PrimaryShape(toks, pos, log);
    }
  }

  lemma {:induction false} OperandShape(lv: Level, toks: seq<Token>, pos: nat, log: seq<Julia.Diagnostic>)
    requires WellFormed(toks) && pos < |toks|
    ensures var r := OperandAt(lv, toks, pos, log); r.out.Ok? ==> IsOperand(lv, r.out.value)
    decreases |toks| - pos, 2 * Rank(lv)
  {
    if lv == FactorLevel {
      UnaryShape(toks, pos, log);
    } else {
      ChainShape(Tighter(lv), toks, pos, log);
    }
  }

  lemma {:induction false} ChainShape(lv: Level, toks: seq<Token>, pos: nat, log: seq<Julia.Diagnostic>)
    requires WellFormed(toks) && pos < |toks|
    ensures var r := ChainAt(lv, toks, pos, log); r.out.Ok? ==> IsChain(lv, r.out.value)
    decreases |toks| - pos, 2 * Rank(lv) + 1
  {
    var first := OperandAt(lv, toks, pos, log);
    OperandShape(lv, toks, pos, log);
    if first.out.Ok? {
      ChainRestShape(lv, toks, first.out.value, first.pos, first.log);
    }
  }

  lemma {:induction false} ChainRestShape(lv: Level, toks: seq<Token>, left: Expr, pos: nat, log: seq<Julia.Diagnostic>)
    requires WellFormed(toks) && pos < |toks| && IsChain(lv, left)
    ensures var r := ChainRest(lv, toks, left, pos, log); r.out.Ok? ==> IsChain(lv, r.out.value)
    decreases |toks| - pos, 2 * Rank(lv) + 1
  {
    if Matches(toks, pos, Operators(lv)) {
      var right := OperandAt(lv, toks, pos + 1, log);
      OperandShape(lv, toks, pos + 1, log);
      if right.out.Ok? {
        var node := Node(lv, left, toks[pos], right.out.value);
        assert IsLevelNode(lv, node);
        ChainRestShape(lv, toks, node, right.pos, right.log);
      }
    }
  }

  lemma {:induction false} AssignmentShape(toks: seq<Token>, pos: nat, log: seq<Julia.Diagnostic>)
    requires WellFormed(toks) && pos < |toks|
    ensures var r := AssignmentAt(toks, pos, log); r.out.Ok? ==> IsAssignment(r.out.value)
    decreases |toks| - pos, 14
  {
    var left := ChainAt(OrLevel, toks, pos, log);
    ChainShape(OrLevel, toks, pos, log);
    if left.out.Ok? && Matches(toks, left.pos, [Equal]) {
      AssignmentShape(toks, left.pos + 1, left.log);
      if left.out.value.Variable? {
        VariableInChain(OrLevel, left.out.value);
      }
    }
  }

  lemma {:induction false} ExpressionShape(toks: seq<Token>, pos: nat, log: seq<Julia.Diagnostic>)
    requires WellFormed(toks) && pos < |toks|
    ensures var r := ExpressionAt(toks, pos, log); r.out.Ok? ==> IsAssignment(r.out.value)
    decreases |toks| - pos, 15
  {
    AssignmentShape(toks, pos, log);
  }

  // ---------------------------------------------------------------------------------------
  // Each statement routine that succeeds yields a statement of the right shape

  lemma PrintShape(toks: seq<Token>, pos: nat, log: seq<Julia.Diagnostic>)
    requires WellFormed(toks) && pos < |toks|
    ensures var r := PrintAt(toks, pos, log); r.out.Ok? ==> r.out.value.Print? && IsStatement(r.out.value)
  {
    var open := ConsumeAt(toks, pos, LeftParen, "expect '(' this after print", log);
    if open.out.Ok? {
      ExpressionShape(toks, open.pos, open.log);
    }
  }

  lemma PrintlnShape(toks: seq<Token>, pos: nat, log: seq<Julia.Diagnostic>)
    requires WellFormed(toks) && pos < |toks|
    ensures var r := PrintlnAt(toks, pos, log); r.out.Ok? ==> r.out.value.Println? && IsStatement(r.out.value)
  {
    var open := ConsumeAt(toks, pos, LeftParen, "expect '(' this after print", log);
    if open.out.Ok? {
      ExpressionShape(toks, open.pos, open.log);
    }
  }

  lemma {:induction false} StatementShape(toks: seq<Token>, pos: nat, log: seq<Julia.Diagnostic>)
    requires WellFormed(toks) && pos < |toks|
    ensures var r := StatementAt(toks, pos, log); r.out.Ok? ==> IsStatementEntry(r.out.value)
    decreases |toks| - pos, 0
  {
    if Matches(toks, pos, [TokenType.If]) {
      IfShape(toks, pos + 1, log);
    } else if Matches(toks, pos, [TokenType.While]) {
      WhileShape(toks, pos + 1, log);
    } else if Matches(toks, pos, [TokenType.Print]) {
      PrintShape(toks, pos + 1, log);
    } else if Matches(toks, pos, [TokenType.Println]) {
      PrintlnShape(toks, pos + 1, log);
    } else {
      ExpressionShape(toks, pos, log);
    }
  }

  lemma {:induction false} IfShape(toks: seq<Token>, pos: nat, log: seq<Julia.Diagnostic>)
    requires WellFormed(toks) && pos < |toks|
    ensures var r := IfAt(toks, pos, log);
            r.out.Ok? ==> IsStatementEntry(r.out.value) && (r.out.value.Some? ==> r.out.value.value.If?)
    decreases |toks| - pos, 1
  {
    if !Matches(toks, pos, [LeftParen]) {
      var condition := ExpressionAt(toks, pos, log);
      ExpressionShape(toks, pos, log);
      if condition.out.Ok? {
        IfBodyShape(toks, condition.out.value, [], condition.pos, condition.log);
      }
    }
  }

  lemma {:induction false} IfBodyShape(toks: seq<Token>, condition: Expr, thenBranch: seq<Option<Stmt>>,
                                       pos: nat, log: seq<Julia.Diagnostic>)
    requires WellFormed(toks) && pos < |toks|
    requires IsAssignment(condition) && AllStatements(thenBranch)
    ensures var r := IfBody(toks, condition, thenBranch, pos, log);
            r.out.Ok? ==> IsStatementEntry(r.out.value) && (r.out.value.Some? ==> r.out.value.value.If?)
    decreases |toks| - pos, 1
  {
    if Matches(toks, pos, [End]) {
      assert AllStatements([]);
    } else if Matches(toks, pos, [Elseif]) {
      IfShape(toks, pos + 1, log);
    } else if Matches(toks, pos, [Else]) {
      ElseBodyShape(toks, condition, thenBranch, [], pos + 1, log);
    } else {
      var s := StatementAt(toks, pos, log);
      StatementShape(toks, pos, log);
      if s.out.Ok? {
        AppendStatement(thenBranch, s.out.value);
        IfBodyShape(toks, condition, thenBranch + [s.out.value], s.pos, s.log);
      }
    }
  }

  lemma {:induction false} ElseBodyShape(toks: seq<Token>, condition: Expr, thenBranch: seq<Option<Stmt>>,
                                         elseBranch: seq<Option<Stmt>>, pos: nat, log: seq<Julia.Diagnostic>)
    requires WellFormed(toks) && pos < |toks|
    requires IsAssignment(condition) && AllStatements(thenBranch) && AllStatements(elseBranch)
    ensures var r := ElseBody(toks, condition, thenBranch, elseBranch, pos, log);
            r.out.Ok? ==> r.out.value.Some? && r.out.value.value.If? && IsStatementEntry(r.out.value)
    decreases |toks| - pos, 1
  {
    if !Matches(toks, pos, [End]) {
      var s := StatementAt(toks, pos, log);
      StatementShape(toks, pos, log);
      if s.out.Ok? {
        AppendStatement(elseBranch, s.out.value);
        ElseBodyShape(toks, condition, thenBranch, elseBranch + [s.out.value], s.pos, s.log);
      }
    }
  }

  lemma {:induction false} WhileShape(toks: seq<Token>, pos: nat, log: seq<Julia.Diagnostic>)
    requires WellFormed(toks) && pos < |toks|
    ensures var r := WhileAt(toks, pos, log); r.out.Ok? ==> r.out.value.While? && IsStatement(r.out.value)
    decreases |toks| - pos, 1
  {
    var condition := ExpressionAt(toks, pos, log);
    ExpressionShape(toks, pos, log);
    if condition.out.Ok? {
      WhileBodyShape(toks, condition.out.value, [], condition.pos, condition.log);
    }
  }

  lemma {:induction false} WhileBodyShape(toks: seq<Token>, condition: Expr, body: seq<Option<Stmt>>,
                                          pos: nat, log: seq<Julia.Diagnostic>)
    requires WellFormed(toks) && pos < |toks|
    requires IsAssignment(condition) && AllStatements(body)
    ensures var r := WhileBody(toks, condition, body, pos, log);
            r.out.Ok? ==> r.out.value.While? && IsStatement(r.out.value)
    decreases |toks| - pos, 1
  {
    if !Matches(toks, pos, [End]) {
      var s := StatementAt(toks, pos, log);
      StatementShape(toks, pos, log);
      if s.out.Ok? {
        AppendStatement(body, s.out.value);
        WhileBodyShape(toks, condition, body + [s.out.value], s.pos, s.log);
      }
    }
  }

  // ---------------------------------------------------------------------------------------
  // Declarations and the whole program

  lemma DeclarationShape(toks: seq<Token>, pos: nat, log: seq<Julia.Diagnostic>)
    requires WellFormed(toks) && pos < |toks|
    ensures var r := DeclarationAt(toks, pos, log); r.out.value.Some? ==> IsDeclaration(r.out.value.value)
  {
    if Matches(toks, pos, [Identifier]) {
      if Matches(toks, pos + 1, [Equal]) {
        ExpressionShape(toks, pos + 2, log);
      }
    } else {
      StatementShape(toks, pos, log);
    }
  }

  lemma {:induction false} ProgramLoopShape(toks: seq<Token>, statements: seq<Option<Stmt>>, pos: nat,
                                            log: seq<Julia.Diagnostic>)
    requires WellFormed(toks) && pos < |toks| && AllDeclarations(statements)
    ensures AllDeclarations(ProgramLoop(toks, statements, pos, log).out.value)
    decreases |toks| - pos
  {
    if toks[pos].kind != Eof {
      var d := DeclarationAt(toks, pos, log);
      DeclarationShape(toks, pos, log);
      AppendDeclaration(statements, d.out.value);
      ProgramLoopShape(toks, statements + [d.out.value], d.pos, d.log);
    }
  }

  /** `parse` yields only declarations: statements anywhere, `Var` only at the top level. */
  lemma ProgramShape(toks: seq<Token>, pos: nat, log: seq<Julia.Diagnostic>)
    requires WellFormed(toks) && pos < |toks|
    ensures AllDeclarations(ProgramAt(toks, pos, log).out.value)
  {
    ProgramLoopShape(toks, [], pos, log);
  }
}
