/** The expression nodes of the abstract syntax tree.

    One constructor stands for each family of node classes: `Prefix` covers the
    nodes for `&`, `*`, unary `+`/`-` and `!`; `Infix` covers Arithmetic, And, Or
    and Comparison. No node records parentheses, newlines or positions. */
module Ast {

  datatype Option<+T> = None | Some(value: T) {
    predicate IsFailure() { None? }

    function PropagateFailure<U>(): Option<U>
      requires None?
    {
      None
    }

    function Extract(): T
      requires Some?
    {
      value
    }
  }

  datatype Literal =
    | IntLit(n: nat)
    | FloatLit(digits: string)
    | CharLit(c: char)
    | StringLit(text: string)
    | BoolLit(b: bool)

  datatype PrefixOp = AddressOf | Dereference | Positive | Negative | Not

  datatype InfixOp =
    | Multiply | Divide | Modulo
    | Add | Subtract
    | And | Or
    | LessThan | LessThanEqual | Equal | NotEqual | GreaterThan | GreaterThanEqual

  datatype Expr =
    | Literal(lit: Literal)
    | ArrayExpr(elems: seq<Expr>)
    | Identifier(id: string)
    | FunctionCall(callee: string, args: seq<Expr>)
    | Prefix(pop: PrefixOp, operand: Expr)
    | Infix(op: InfixOp, left: Expr, right: Expr)
    | MemberAccess(object: Expr, member: Expr)
    | Subscript(base: Expr, index: Expr)
}
