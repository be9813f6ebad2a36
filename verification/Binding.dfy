/** Binding powers. The parser model takes the table as a parameter; ACRIS is the
    language's own table. */
module Binding {
  import opened Ast

  datatype Power = Power(lbp: int, rbp: int)

  datatype BindingTable = BindingTable(
    prefix: PrefixOp -> Power,
    infix: InfixOp -> Power,
    dot: Power,
    bracket: Power)

  function AcrisPrefix(op: PrefixOp): Power {
    match op
    case AddressOf => Power(100, 99)
    case Dereference => Power(100, 99)
    case Positive => Power(90, 90)
    case Negative => Power(90, 90)
    case Not => Power(90, 90)
  }

  function AcrisInfix(op: InfixOp): Power {
    match op
    case Multiply => Power(69, 70)
    case Divide => Power(69, 70)
    case Modulo => Power(69, 70)
    case Add => Power(59, 60)
    case Subtract => Power(59, 60)
    case LessThan => Power(50, 50)
    case LessThanEqual => Power(50, 50)
    case Equal => Power(50, 50)
    case NotEqual => Power(50, 50)
    case GreaterThan => Power(50, 50)
    case GreaterThanEqual => Power(50, 50)
    case And => Power(39, 40)
    case Or => Power(29, 30)
  }

  const ACRIS: BindingTable :=
    BindingTable(AcrisPrefix, AcrisInfix, Power(110, 109), Power(120, 119))

  // ---- The same said by families, without powers -----------------------------------------

  predicate IsComparison(op: InfixOp) {
    op.LessThan? || op.LessThanEqual? || op.Equal? || op.NotEqual? || op.GreaterThan? || op.GreaterThanEqual?
  }

  /** Factors above terms above comparisons above `&&` above `||`. */
  function Tier(op: InfixOp): nat {
    if op.Or? then 0
    else if op.And? then 1
    else if IsComparison(op) then 2
    else if op.Add? || op.Subtract? then 3
    else 4
  }

  /** Of two operators around an operand, the right one takes it: its family stands above the
      left one's, or both are comparisons. */
  predicate Draws(x: InfixOp, y: InfixOp) {
    Tier(x) < Tier(y) || (IsComparison(x) && IsComparison(y))
  }

  /** No operator binds weaker than the power 0 at which whole expressions are read. */
  ghost predicate NonNegative(tab: BindingTable) {
    (forall op :: tab.infix(op).lbp >= 0) && tab.dot.lbp >= 0 && tab.bracket.lbp >= 0
  }
}
