/** The statement and top-level nodes of the abstract syntax tree. */
module Statements {
  import opened Ast

  datatype AssignOp = Regular | MulAssign | DivAssign | ModAssign | AddAssign | SubAssign

  datatype Stmt =
    | Let(name: string, init: Option<Expr>)
    | Var(name: string, init: Option<Expr>)
    | Assign(aop: AssignOp, target: Expr, value: Expr)
    | Increment(place: Expr)
    | Decrement(place: Expr)
    | ExprStmt(expr: Expr)
    | Return(result: Option<Expr>)
    | If(first: Option<Stmt>, cond: Expr, onTrue: seq<Stmt>, onFalse: Alternative)
    | Loop(first: Option<Stmt>, test: Option<Expr>, post: Option<Stmt>, body: seq<Stmt>)
    | Break
    | Continue
    | Defer(deferred: seq<Stmt>)

  datatype Alternative = NoElse | Else(code: seq<Stmt>)

  /** What stands at the top level of a source file. */
  datatype Item =
    | Function(fname: string, params: seq<string>, code: seq<Stmt>)
    | FunctionDecl(fname: string)
    | GlobalDecl(gname: string)
}
