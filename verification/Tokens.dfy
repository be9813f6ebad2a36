/** Tokens, and the token-level view of operators. Keywords that never take part
    in an expression are all `Other`. */
module Tokens {
  import opened Ast

  datatype Token =
    | Name(id: string)
    | Lit(lit: Literal)
    | Asterisk | Slash | PercentSign | Plus | Minus
    | AndSign | OrSign | NotSign | Ampersand
    | Less | LessEq | EqEq | NotEq | Greater | GreaterEq
    | ParenOpen | ParenClose
    | BracketOpen | BracketClose
    | Dot | Comma | Newline | Iota
    | Other(kind: nat)

  function PrefixToken(op: PrefixOp): Token {
    match op
    case AddressOf => Ampersand
    case Dereference => Asterisk
    case Positive => Plus
    case Negative => Minus
    case Not => NotSign
  }

  function PrefixOpOf(t: Token): Option<PrefixOp> {
    match t
    case Ampersand => Some(AddressOf)
    case Asterisk => Some(Dereference)
    case Plus => Some(Positive)
    case Minus => Some(Negative)
    case NotSign => Some(Not)
    case _ => None
  }

  function InfixToken(op: InfixOp): Token {
    match op
    case Multiply => Asterisk
    case Divide => Slash
    case Modulo => PercentSign
    case Add => Plus
    case Subtract => Minus
    case And => AndSign
    case Or => OrSign
    case LessThan => Less
    case LessThanEqual => LessEq
    case Equal => EqEq
    case NotEqual => NotEq
    case GreaterThan => Greater
    case GreaterThanEqual => GreaterEq
  }

  function InfixOpOf(t: Token): Option<InfixOp> {
    match t
    case Asterisk => Some(Multiply)
    case Slash => Some(Divide)
    case PercentSign => Some(Modulo)
    case Plus => Some(Add)
    case Minus => Some(Subtract)
    case AndSign => Some(And)
    case OrSign => Some(Or)
    case Less => Some(LessThan)
    case LessEq => Some(LessThanEqual)
    case EqEq => Some(Equal)
    case NotEq => Some(NotEqual)
    case Greater => Some(GreaterThan)
    case GreaterEq => Some(GreaterThanEqual)
    case _ => None
  }

  /** The two views of an infix operator agree. */
  lemma InfixTokenInverse(t: Token, op: InfixOp)
    ensures t == InfixToken(op) <==> InfixOpOf(t) == Some(op)
  {
  }

  /** Tokens at which the operator loop may consume something. */
  predicate IsOperator(t: Token) {
    InfixOpOf(t).Some? || t == Dot || t == BracketOpen
  }

  /** Tokens that end every operator loop right where they stand. */
  predicate EndsOperators(t: Token) {
    t != ParenOpen && t != Newline && !IsOperator(t)
  }

  /** Tokens that close a bracketed piece or separate list elements. */
  predicate IsCloser(t: Token) {
    t == ParenClose || t == BracketClose || t == Comma
  }
}
