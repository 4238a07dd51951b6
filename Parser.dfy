/** The recursive-descent parser: a cursor over a token list, one method per grammar routine.

    Every routine that can raise Java's `ParseError` returns an `Outcome` instead, and a `Fail`
    propagates out of all callers (loops included) up to `Declaration`, the only routine that
    recovers. Each method is proved to compute exactly what the function of `Grammar` for its
    routine says, started at the method's cursor with the collector's diagnostics so far: the
    same outcome, the same final cursor and the same diagnostics. The collector's error flag
    is raised exactly when something was reported, and the runtime-error flag is untouched. */
module Parser {
  import opened Wrappers
  import opened Tokens
  import opened Ast
  import Julia
  import G = Grammar

  class Parser {
    const tokens: seq<Token>
    var current: nat
    /** The error reporting the parser calls into (Java's static `Julia.error`). */
    const diag: Julia.Diagnostics

    /** The cursor is on a token of a well-formed list, so an EOF lies at or ahead of it. */
    ghost predicate Valid()
      reads this
    {
      G.WellFormed(tokens) && current < |tokens|
    }

    constructor (tokens: seq<Token>, diag: Julia.Diagnostics)
      ensures this.tokens == tokens && this.diag == diag && current == 0
      ensures Valid() <==> G.WellFormed(tokens)
    {
      this.tokens := tokens;
      this.diag := diag;
      current := 0;
    }

    // -------------------------------------------------------------------------------------
    // Cursor helpers

    function IsAtEnd(): bool
      requires Valid()
      reads this
    {
      Peek().kind == Eof
    }

    function Peek(): Token
      requires Valid()
      reads this
    {
      tokens[current]
    }

    /** Java would index -1 here when nothing was consumed yet. */
    function Previous(): Token
      requires Valid() && current > 0
      reads this
    {
      tokens[current - 1]
    }

    /** `check`: never true at EOF, whatever the kind asked for. */
    function Check(kind: TokenType): (b: bool)
      requires Valid()
      reads this
      ensures b <==> G.Check(tokens, current, kind)
      ensures tokens[current].kind == Eof ==> !b
      ensures b ==> tokens[current].kind == kind
    {
      if IsAtEnd() then false else Peek().kind == kind
    }

    /** `advance`: moves one token forward unless at EOF, and returns the token before the
        cursor. */
    method Advance() returns (t: Token)
      requires Valid() && (current > 0 || tokens[current].kind != Eof)
      modifies this
      ensures Valid()
      ensures current == if tokens[old(current)].kind == Eof then old(current) else old(current) + 1
      ensures t == tokens[current - 1]
    {
      if !IsAtEnd() {
        current := current + 1;
      }
      t := Previous();
    }

    /** `match`: advances by exactly one token when the next one is not EOF and has one of the
        kinds; otherwise leaves the cursor where it is. */
    method Match(kinds: seq<TokenType>) returns (matched: bool)
      requires Valid()
      modifies this
      ensures Valid()
      ensures matched <==> G.Matches(tokens, old(current), kinds)
      ensures current == if matched then old(current) + 1 else old(current)
    {
      for i := 0 to |kinds|
        invariant current == old(current)
        invariant forall j :: 0 <= j < i ==> !Check(kinds[j])
      {
        if Check(kinds[i]) {
          var _ := Advance();
          return true;
        }
      }
      return false;
    }

    /** `consume`: on the expected kind, steps over it and returns it; otherwise reports
        `message` at the next token and fails without moving. */
    method Consume(kind: TokenType, message: string) returns (r: Outcome<Token>)
      requires Valid()
      modifies this, diag
      ensures Valid()
      ensures var s := G.ConsumeAt(tokens, old(current), kind, message, old(diag.log));
              r == s.out && current == s.pos && diag.log == s.log
      ensures diag.hadError == (old(diag.hadError) || |old(diag.log)| < |diag.log|)
      ensures diag.hadRuntimeError == old(diag.hadRuntimeError)
      ensures r.Ok? <==> G.Check(tokens, old(current), kind)
      ensures r.Ok? ==> r.value == tokens[old(current)] && current == old(current) + 1
      ensures r.Fail? ==> current == old(current)
                          && diag.log == old(diag.log) + [Julia.TokenError(tokens[current], message)]
    {
      if Check(kind) {
        var t := Advance();
        return Ok(t);
      }
      Error(Peek(), message);
      return Fail;
    }

    /** `error`: report at `token`; the caller then fails (Java throws the returned ParseError). */
    method Error(token: Token, message: string)
      modifies diag
      ensures diag.log == old(diag.log) + [Julia.TokenError(token, message)]
      ensures diag.hadError && diag.hadRuntimeError == old(diag.hadRuntimeError)
    {
      diag.ErrorAtToken(token, message);
    }

    // -------------------------------------------------------------------------------------
    // Expressions

    method Expression() returns (r: Outcome<Expr>)
      requires Valid()
      modifies this, diag
      decreases |tokens| - current, 15
      ensures Valid()
      ensures var s := G.ExpressionAt(tokens, old(current), old(diag.log));
              r == s.out && current == s.pos && diag.log == s.log
      ensures diag.hadError == (old(diag.hadError) || |old(diag.log)| < |diag.log|)
      ensures diag.hadRuntimeError == old(diag.hadRuntimeError)
    {
      r := Assignment();
    }

    /** `assignment`: right-recursive; only a variable may be assigned to, and any other target
        is reported without failing, the left-hand expression being kept. */
    method Assignment() returns (r: Outcome<Expr>)
      requires Valid()
      modifies this, diag
      decreases |tokens| - current, 14
      ensures Valid()
      ensures var s := G.AssignmentAt(tokens, old(current), old(diag.log));
              r == s.out && current == s.pos && diag.log == s.log
      ensures diag.hadError == (old(diag.hadError) || |old(diag.log)| < |diag.log|)
      ensures diag.hadRuntimeError == old(diag.hadRuntimeError)
    {
      var expr :- Or();
      var assigns := Match([Equal]);
      if assigns {
        var equals := Previous();
        var value :- Assignment();
        if expr.Variable? {
          return Ok(Assign(expr.name, value));
        }
        Error(equals, "Invalid assignment target.");
      }
      return Ok(expr);
    }

    /** `or`: `and` operands joined by OR, grouped to the left. */
    method Or() returns (r: Outcome<Expr>)
      requires Valid()
      modifies this, diag
      decreases |tokens| - current, 13
      ensures Valid()
      ensures var s := G.ChainAt(G.OrLevel, tokens, old(current), old(diag.log));
              r == s.out && current == s.pos && diag.log == s.log
      ensures diag.hadError == (old(diag.hadError) || |old(diag.log)| < |diag.log|)
      ensures diag.hadRuntimeError == old(diag.hadRuntimeError)
    {
      ghost var start := current;
      var expr :- And();
      while true
        invariant Valid() && start < current
        invariant |old(diag.log)| <= |diag.log|
        invariant diag.hadError == (old(diag.hadError) || |old(diag.log)| < |diag.log|)
        invariant diag.hadRuntimeError == old(diag.hadRuntimeError)
        invariant G.ChainRest(G.OrLevel, tokens, expr, current, diag.log) == G.ChainAt(G.OrLevel, tokens, start, old(diag.log))
        decreases |tokens| - current
      {
        var matched := Match([TokenType.Or]);
        if !matched {
          break;
        }
        var operator := Previous();
        var right :- And();
        expr := Logical(expr, operator, right);
      }
      return Ok(expr);
    }

    /** `and`: `equality` operands joined by AND, grouped to the left. */
    method And() returns (r: Outcome<Expr>)
      requires Valid()
      modifies this, diag
      decreases |tokens| - current, 11
      ensures Valid()
      ensures var s := G.ChainAt(G.AndLevel, tokens, old(current), old(diag.log));
              r == s.out && current == s.pos && diag.log == s.log
      ensures diag.hadError == (old(diag.hadError) || |old(diag.log)| < |diag.log|)
      ensures diag.hadRuntimeError == old(diag.hadRuntimeError)
    {
      ghost var start := current;
      var expr :- Equality();
      while true
        invariant Valid() && start < current
        invariant |old(diag.log)| <= |diag.log|
        invariant diag.hadError == (old(diag.hadError) || |old(diag.log)| < |diag.log|)
        invariant diag.hadRuntimeError == old(diag.hadRuntimeError)
        invariant G.ChainRest(G.AndLevel, tokens, expr, current, diag.log) == G.ChainAt(G.AndLevel, tokens, start, old(diag.log))
        decreases |tokens| - current
      {
        var matched := Match([TokenType.And]);
        if !matched {
          break;
        }
        var operator := Previous();
        var right :- Equality();
        expr := Logical(expr, operator, right);
      }
      return Ok(expr);
    }

    /** `equality`: `comparison` operands joined by `!=` or `==`, grouped to the left. */
    method Equality() returns (r: Outcome<Expr>)
      requires Valid()
      modifies this, diag
      decreases |tokens| - current, 9
      ensures Valid()
      ensures var s := G.ChainAt(G.EqualityLevel, tokens, old(current), old(diag.log));
              r == s.out && current == s.pos && diag.log == s.log
      ensures diag.hadError == (old(diag.hadError) || |old(diag.log)| < |diag.log|)
      ensures diag.hadRuntimeError == old(diag.hadRuntimeError)
    {
      ghost var start := current;
      var expr :- Comparison();
      while true
        invariant Valid() && start < current
        invariant |old(diag.log)| <= |diag.log|
        invariant diag.hadError == (old(diag.hadError) || |old(diag.log)| < |diag.log|)
        invariant diag.hadRuntimeError == old(diag.hadRuntimeError)
        invariant G.ChainRest(G.EqualityLevel, tokens, expr, current, diag.log) == G.ChainAt(G.EqualityLevel, tokens, start, old(diag.log))
        decreases |tokens| - current
      {
        var matched := Match([BangEqual, EqualEqual]);
        if !matched {
          break;
        }
        var operator := Previous();
        var right :- Comparison();
        expr := Binary(expr, operator, right);
      }
      return Ok(expr);
    }

    /** `comparison`: `term` operands joined by `>`, `>=`, `<` or `<=`, grouped to the left. */
    method Comparison() returns (r: Outcome<Expr>)
      requires Valid()
      modifies this, diag
      decreases |tokens| - current, 7
      ensures Valid()
      ensures var s := G.ChainAt(G.ComparisonLevel, tokens, old(current), old(diag.log));
              r == s.out && current == s.pos && diag.log == s.log
      ensures diag.hadError == (old(diag.hadError) || |old(diag.log)| < |diag.log|)
      ensures diag.hadRuntimeError == old(diag.hadRuntimeError)
    {
      ghost var start := current;
      var expr :- Term();
      while true
        invariant Valid() && start < current
        invariant |old(diag.log)| <= |diag.log|
        invariant diag.hadError == (old(diag.hadError) || |old(diag.log)| < |diag.log|)
        invariant diag.hadRuntimeError == old(diag.hadRuntimeError)
        invariant G.ChainRest(G.ComparisonLevel, tokens, expr, current, diag.log) == G.ChainAt(G.ComparisonLevel, tokens, start, old(diag.log))
        decreases |tokens| - current
      {
        var matched := Match([Greater, GreaterEqual, Less, LessEqual]);
        if !matched {
          break;
        }
        var operator := Previous();
        var right :- Term();
        expr := Binary(expr, operator, right);
      }
      return Ok(expr);
    }

    /** `term`: `factor` operands joined by `-` or `+`, grouped to the left. */
    method Term() returns (r: Outcome<Expr>)
      requires Valid()
      modifies this, diag
      decreases |tokens| - current, 5
      ensures Valid()
      ensures var s := G.ChainAt(G.TermLevel, tokens, old(current), old(diag.log));
              r == s.out && current == s.pos && diag.log == s.log
      ensures diag.hadError == (old(diag.hadError) || |old(diag.log)| < |diag.log|)
      ensures diag.hadRuntimeError == old(diag.hadRuntimeError)
    {
      ghost var start := current;
      var expr :- Factor();
      while true
        invariant Valid() && start < current
        invariant |old(diag.log)| <= |diag.log|
        invariant diag.hadError == (old(diag.hadError) || |old(diag.log)| < |diag.log|)
        invariant diag.hadRuntimeError == old(diag.hadRuntimeError)
        invariant G.ChainRest(G.TermLevel, tokens, expr, current, diag.log) == G.ChainAt(G.TermLevel, tokens, start, old(diag.log))
        decreases |tokens| - current
      {
        var matched := Match([Minus, Plus]);
        if !matched {
          break;
        }
        var operator := Previous();
        var right :- Factor();
        expr := Binary(expr, operator, right);
      }
      return Ok(expr);
    }

    /** `factor`: `unary` operands joined by `/` or `*`, grouped to the left. */
    method Factor() returns (r: Outcome<Expr>)
      requires Valid()
      modifies this, diag
      decreases |tokens| - current, 3
      ensures Valid()
      ensures var s := G.ChainAt(G.FactorLevel, tokens, old(current), old(diag.log));
              r == s.out && current == s.pos && diag.log == s.log
      ensures diag.hadError == (old(diag.hadError) || |old(diag.log)| < |diag.log|)
      ensures diag.hadRuntimeError == old(diag.hadRuntimeError)
    {
      ghost var start := current;
      var expr :- Unary();
      while true
        invariant Valid() && start < current
        invariant |old(diag.log)| <= |diag.log|
        invariant diag.hadError == (old(diag.hadError) || |old(diag.log)| < |diag.log|)
        invariant diag.hadRuntimeError == old(diag.hadRuntimeError)
        invariant G.ChainRest(G.FactorLevel, tokens, expr, current, diag.log) == G.ChainAt(G.FactorLevel, tokens, start, old(diag.log))
        decreases |tokens| - current
      {
        var matched := Match([Slash, Star]);
        if !matched {
          break;
        }
        var operator := Previous();
        var right :- Unary();
        expr := Binary(expr, operator, right);
      }
      return Ok(expr);
    }

    /** `unary`: prefix `!` or `-` applied to a unary, otherwise a primary. */
    method Unary() returns (r: Outcome<Expr>)
      requires Valid()
      modifies this, diag
      decreases |tokens| - current, 1
      ensures Valid()
      ensures var s := G.UnaryAt(tokens, old(current), old(diag.log));
              r == s.out && current == s.pos && diag.log == s.log
      ensures diag.hadError == (old(diag.hadError) || |old(diag.log)| < |diag.log|)
      ensures diag.hadRuntimeError == old(diag.hadRuntimeError)
    {
      var prefixed := Match([Bang, Minus]);
      if prefixed {
        var operator := Previous();
        var right :- Unary();
        return Ok(Expr.Unary(operator, right));
      }
      r := Primary();
    }

    /** `primary`: a literal, a variable or a parenthesised expression; anything else is the
        syntax error "Expect expression." at the next token. */
    method Primary() returns (r: Outcome<Expr>)
      requires Valid()
      modifies this, diag
      decreases |tokens| - current, 0
      ensures Valid()
      ensures var s := G.PrimaryAt(tokens, old(current), old(diag.log));
              r == s.out && current == s.pos && diag.log == s.log
      ensures diag.hadError == (old(diag.hadError) || |old(diag.log)| < |diag.log|)
      ensures diag.hadRuntimeError == old(diag.hadRuntimeError)
    {
      var matched := Match([False]);
      if matched {
        return Ok(Literal(BoolValue(false)));
      }
      matched := Match([True]);
      if matched {
        return Ok(Literal(BoolValue(true)));
      }
      matched := Match([Nil]);
      if matched {
        return Ok(Literal(NullValue));
      }
      matched := Match([Number, String]);
      if matched {
        return Ok(Literal(Previous().literal));
      }
      matched := Match([Identifier]);
      if matched {
        return Ok(Variable(Previous()));
      }
      matched := Match([LeftParen]);
      if matched {
        var expr :- Expression();
        var closing :- Consume(RightParen, "Expect ')' after expression.");
        return Ok(Grouping(expr));
      }
      Error(Peek(), "Expect expression.");
      return Fail;
    }

    // -------------------------------------------------------------------------------------
    // Statements

    method Statement() returns (r: Outcome<Option<Stmt>>)
      requires Valid()
      modifies this, diag
      decreases |tokens| - current, 0
      ensures Valid()
      ensures var s := G.StatementAt(tokens, old(current), old(diag.log));
              r == s.out && current == s.pos && diag.log == s.log
      ensures diag.hadError == (old(diag.hadError) || |old(diag.log)| < |diag.log|)
      ensures diag.hadRuntimeError == old(diag.hadRuntimeError)
    {
      var matched := Match([TokenType.If]);
      if matched {
        r := IfStatement();
        return;
      }
      matched := Match([TokenType.While]);
      if matched {
        var s := WhileStatement();
        return G.Lift(s);
      }
      matched := Match([TokenType.Print]);
      if matched {
        var s := PrintStatement();
        return G.Lift(s);
      }
      matched := Match([TokenType.Println]);
      if matched {
        var s := PrintlnStatement();
        return G.Lift(s);
      }
      var s := ExpressionStatement();
      return G.Lift(s);
    }

    method PrintStatement() returns (r: Outcome<Stmt>)
      requires Valid()
      modifies this, diag
      ensures Valid()
      ensures var s := G.PrintAt(tokens, old(current), old(diag.log));
              r == s.out && current == s.pos && diag.log == s.log
      ensures diag.hadError == (old(diag.hadError) || |old(diag.log)| < |diag.log|)
      ensures diag.hadRuntimeError == old(diag.hadRuntimeError)
    {
      var open :- Consume(LeftParen, "expect '(' this after print");
      var value :- Expression();
      var close :- Consume(RightParen, "expect ')' this after print");
      return Ok(Stmt.Print(value));
    }

    method PrintlnStatement() returns (r: Outcome<Stmt>)
      requires Valid()
      modifies this, diag
      ensures Valid()
      ensures var s := G.PrintlnAt(tokens, old(current), old(diag.log));
              r == s.out && current == s.pos && diag.log == s.log
      ensures diag.hadError == (old(diag.hadError) || |old(diag.log)| < |diag.log|)
      ensures diag.hadRuntimeError == old(diag.hadRuntimeError)
    {
      var open :- Consume(LeftParen, "expect '(' this after print");
      var value :- Expression();
      var close :- Consume(RightParen, "expect ')' this after print");
      return Ok(Stmt.Println(value));
    }

    method ExpressionStatement() returns (r: Outcome<Stmt>)
      requires Valid()
      modifies this, diag
      ensures Valid()
      ensures var s := G.ExpressionStatementAt(tokens, old(current), old(diag.log));
              r == s.out && current == s.pos && diag.log == s.log
      ensures diag.hadError == (old(diag.hadError) || |old(diag.log)| < |diag.log|)
      ensures diag.hadRuntimeError == old(diag.hadRuntimeError)
    {
      var expr :- Expression();
      return Ok(Stmt.Expression(expr));
    }

    /** `ifStatement`, after the `if` keyword. */
    method IfStatement() returns (r: Outcome<Option<Stmt>>)
      requires Valid()
      modifies this, diag
      decreases |tokens| - current, 1
      ensures Valid()
      ensures var s := G.IfAt(tokens, old(current), old(diag.log));
              r == s.out && current == s.pos && diag.log == s.log
      ensures diag.hadError == (old(diag.hadError) || |old(diag.log)| < |diag.log|)
      ensures diag.hadRuntimeError == old(diag.hadRuntimeError)
    {
      ghost var start := current;
      var paren := Match([LeftParen]);
      if paren {
        return Ok(None);
      }
      var condition :- Expression();
      var thenBranch: seq<Option<Stmt>> := [];
      var elseBranch: seq<Option<Stmt>> := [];
      while true
        invariant Valid() && start < current
        invariant |old(diag.log)| <= |diag.log|
        invariant diag.hadError == (old(diag.hadError) || |old(diag.log)| < |diag.log|)
        invariant diag.hadRuntimeError == old(diag.hadRuntimeError)
        invariant elseBranch == []
        invariant G.IfBody(tokens, condition, thenBranch, current, diag.log) == G.IfAt(tokens, start, old(diag.log))
        decreases |tokens| - current
      {
        var ended := Match([End]);
        if ended {
          break;
        }
        var elseif := Match([Elseif]);
        if elseif {
          r := IfStatement();
          return;
        }
        var otherwise := Match([Else]);
        if otherwise {
          while true
            invariant Valid() && start < current
            invariant |old(diag.log)| <= |diag.log|
            invariant diag.hadError == (old(diag.hadError) || |old(diag.log)| < |diag.log|)
            invariant diag.hadRuntimeError == old(diag.hadRuntimeError)
            invariant G.ElseBody(tokens, condition, thenBranch, elseBranch, current, diag.log) == G.IfAt(tokens, start, old(diag.log))
            decreases |tokens| - current
          {
            var closed := Match([End]);
            if closed {
              break;
            }
            var s :- Statement();
            elseBranch := elseBranch + [s];
          }
          break;
        }
        var s :- Statement();
        thenBranch := thenBranch + [s];
      }
      return Ok(Some(Stmt.If(condition, thenBranch, elseBranch)));
    }

    /** `whileStatement`, after the `while` keyword. */
    method WhileStatement() returns (r: Outcome<Stmt>)
      requires Valid()
      modifies this, diag
      decreases |tokens| - current, 1
      ensures Valid()
      ensures var s := G.WhileAt(tokens, old(current), old(diag.log));
              r == s.out && current == s.pos && diag.log == s.log
      ensures diag.hadError == (old(diag.hadError) || |old(diag.log)| < |diag.log|)
      ensures diag.hadRuntimeError == old(diag.hadRuntimeError)
    {
      ghost var start := current;
      var condition :- Expression();
      var body: seq<Option<Stmt>> := [];
      while true
        invariant Valid() && start < current
        invariant |old(diag.log)| <= |diag.log|
        invariant diag.hadError == (old(diag.hadError) || |old(diag.log)| < |diag.log|)
        invariant diag.hadRuntimeError == old(diag.hadRuntimeError)
        invariant G.WhileBody(tokens, condition, body, current, diag.log) == G.WhileAt(tokens, start, old(diag.log))
        decreases |tokens| - current
      {
        var ended := Match([End]);
        if ended {
          break;
        }
        var s :- Statement();
        body := body + [s];
      }
      return Ok(Stmt.While(condition, body));
    }

    // -------------------------------------------------------------------------------------
    // Declarations, recovery, the program

    /** `varDeclaration`, after the identifier. */
    method VarDeclaration() returns (r: Outcome<Option<Stmt>>)
      requires Valid() && current > 0
      modifies this, diag
      ensures Valid()
      ensures var s := G.VarDeclarationAt(tokens, old(current), old(diag.log));
              r == s.out && current == s.pos && diag.log == s.log
      ensures diag.hadError == (old(diag.hadError) || |old(diag.log)| < |diag.log|)
      ensures diag.hadRuntimeError == old(diag.hadRuntimeError)
    {
      var name := Previous();
      var initialized := Match([Equal]);
      if initialized {
        var initializer :- Expression();
        return Ok(Some(Stmt.Var(name, initializer)));
      }
      return Ok(None);
    }

    /** `declaration`: the only routine that catches a syntax error; it then synchronizes and
        yields no statement. */
    method Declaration() returns (d: Option<Stmt>)
      requires Valid() && (current > 0 || tokens[current].kind != Eof)
      modifies this, diag
      ensures Valid()
      ensures var s := G.DeclarationAt(tokens, old(current), old(diag.log));
              Ok(d) == s.out && current == s.pos && diag.log == s.log
      ensures diag.hadError == (old(diag.hadError) || |old(diag.log)| < |diag.log|)
      ensures diag.hadRuntimeError == old(diag.hadRuntimeError)
    {
      var attempt: Outcome<Option<Stmt>>;
      var identifier := Match([Identifier]);
      if identifier {
        attempt := VarDeclaration();
      } else {
        attempt := Statement();
      }
      if attempt.Ok? {
        return attempt.value;
      }
      Synchronize();
      return None;
    }

    /** `synchronize`: steps over the offending token (unless at EOF), then skips to EOF or to the
        first CLASS, FOR, IF, WHILE, PRINT or RETURN. */
    method Synchronize()
      requires Valid() && (current > 0 || tokens[current].kind != Eof)
      modifies this
      ensures Valid()
      ensures current == G.SynchronizeFrom(tokens, old(current))
      ensures tokens[old(current)].kind != Eof ==> old(current) < current
      ensures tokens[current].kind == Eof || tokens[current].kind in G.SyncKinds
      ensures forall i :: old(current) < i < current ==> tokens[i].kind != Eof && tokens[i].kind !in G.SyncKinds
    {
      var _ := Advance();
      ghost var first := current;
      while !IsAtEnd()
        invariant Valid() && first <= current
        invariant G.SkipFrom(tokens, current) == G.SkipFrom(tokens, first)
        invariant forall i :: first <= i < current ==> tokens[i].kind != Eof && tokens[i].kind !in G.SyncKinds
        decreases |tokens| - current
      {
        if Peek().kind in G.SyncKinds {
          return;
        }
        var _ := Advance();
      }
    }

    /** `parse`: one `declaration` per round, each consuming at least one token, until EOF is
        next; one entry (possibly `None`) per round. */
    method Parse() returns (statements: seq<Option<Stmt>>)
      requires Valid()
      modifies this, diag
      ensures Valid()
      ensures var s := G.ProgramAt(tokens, old(current), old(diag.log));
              Ok(statements) == s.out && current == s.pos && diag.log == s.log
      ensures diag.hadError == (old(diag.hadError) || |old(diag.log)| < |diag.log|)
      ensures diag.hadRuntimeError == old(diag.hadRuntimeError)
      ensures tokens[current].kind == Eof && |statements| <= current - old(current)
    {
      statements := [];
      while !IsAtEnd()
        invariant Valid() && old(current) <= current
        invariant |old(diag.log)| <= |diag.log|
        invariant diag.hadError == (old(diag.hadError) || |old(diag.log)| < |diag.log|)
        invariant diag.hadRuntimeError == old(diag.hadRuntimeError)
        invariant G.ProgramLoop(tokens, statements, current, diag.log) == G.ProgramAt(tokens, old(current), old(diag.log))
        decreases |tokens| - current
      {
        var d := Declaration();
        statements := statements + [d];
      }
    }
  }
}
