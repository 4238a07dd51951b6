/** The syntax trees the parser builds. Only the shapes are modelled: the node classes' own code
    (evaluation, printing) is not part of this model. */
module Ast {
  import opened Wrappers
  import opened Tokens

  /** Expression nodes; each owns its sub-expressions (a tree, no sharing). */
  datatype Expr =
    | Literal(value: Value)
    | Grouping(expression: Expr)
    | Unary(operator: Token, right: Expr)
    | Binary(left: Expr, operator: Token, right: Expr)
    | Logical(left: Expr, operator: Token, right: Expr)
    | Variable(name: Token)
    | Assign(name: Token, rhs: Expr)

  /** Statement nodes. A branch or body is a list whose entries may be Java `null` (`None`):
      a nested `if (` contributes such an entry. */
  datatype Stmt =
    | Print(expression: Expr)
    | Println(expression: Expr)
    | Var(name: Token, initializer: Expr)
    | Expression(expression: Expr)
    | If(condition: Expr, thenBranch: seq<Option<Stmt>>, elseBranch: seq<Option<Stmt>>)
    | While(condition: Expr, body: seq<Option<Stmt>>)
}
