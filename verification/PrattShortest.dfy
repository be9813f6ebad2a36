/** The printed text is a shortest one: no text that the parser reads as the same tree, under
    the language's own table, has fewer tokens. */
module PrattShortest {
  import opened Ast
  import opened Tokens
  import opened Binding
  import opened PrattGrammar
  import opened PrattSpec
  import opened PrattSound
  import opened PrattTheorems
  import opened PrattPrinter

  lemma AcrisNonNegative()
    ensures NonNegative(ACRIS)
  {}

  /** A higher power costs one pair of parentheses at most. */
  lemma {:induction false} PowerCosts(t: Expr, m: int)
    ensures Width(Minimal(ACRIS, t, m)) <= Width(Minimal(ACRIS, t, 0)) + 2
    ensures Fits(ACRIS, t, m) ==> Width(Bare(ACRIS, t, m)) <= Width(Bare(ACRIS, t, 0)) + 2
    decreases t, 0
  {
    hide Edge;
    match t
    case Infix(op, l, _) => OperandCosts(l, m, InfixToken(op));
    case MemberAccess(l, _) => OperandCosts(l, m, Dot);
    case Subscript(l, _) => OperandCosts(l, m, BracketOpen);
    case _ =>
  }

  lemma {:induction false} OperandCosts(l: Expr, m: int, t: Token)
    ensures Width(LeftOperand(ACRIS, l, m, t)) <= Width(LeftOperand(ACRIS, l, 0, t)) + 2
    decreases l, 1
  {
    hide Bare, Edge;
    PowerCosts(l, m);
    assert Fits(ACRIS, l, 0);
  }

  // ---- Where parentheses help -------------------------------------------------------------

  lemma {:induction false} EdgeGap(c: Cst, g: nat, t: Token)
    requires t != ParenOpen && Edge(ACRIS, c, LookOp(g, t))
    ensures Edge(ACRIS, c, LookOp(0, t))
    decreases c
  {
    match c
    case Hollow(_, p) => EdgeGap(p, g, t);
    case Unary(_, e) => EdgeGap(e, g, t);
    case Binary(_, _, _, r) => EdgeGap(r, g, t);
    case Member(_, _, r) => EdgeGap(r, g, t);
    case _ =>
  }

  /** When some text of a right operand stops before the operator, the minimal one does. */
  lemma {:induction false} MinimalStops(c: Cst, m: int, t: Token)
    requires IsOperator(t) && m <= 109 && Ok(ACRIS, c, m) && Stop(ACRIS, c, m, LookOp(0, t))
    ensures Stop(ACRIS, Minimal(ACRIS, Erase(c), m), m, LookOp(0, t))
    decreases c
  {
    AcrisNonNegative();
    if InfixOpOf(t).Some? {
      hide Minimal, Ok, Stop, Erase;
      MinimalOk(ACRIS, Erase(c), m);
      assert AcrisInfix(InfixOpOf(t).value).lbp < m by { InfixLeft(c, m, t); }
      AcrisStop(Minimal(ACRIS, Erase(c), m), m, LookOp(0, t));
    } else {
      assert PostfixRooted(c);
      if c.Member? { MinimalStops(c.right, ACRIS.dot.rbp, t); }
    }
  }

  lemma InfixLeft(c: Cst, m: int, t: Token)
    requires Stop(ACRIS, c, m, LookOp(0, t)) && InfixOpOf(t).Some?
    ensures AcrisInfix(InfixOpOf(t).value).lbp < m
  {
    hide Edge;
  }

  /** The operator `t` may follow the left operand `c`. */
  predicate Before(c: Cst, t: Token) {
    Edge(ACRIS, c, LookOp(0, t)) && (InfixOpOf(t).Some? || !PostfixRooted(c))
  }

  /** Where the minimal text of a left operand needs its own parentheses, every text has them. */
  lemma {:induction false} GroupNeeded(c: Cst, m: int, t: Token)
    requires IsOperator(t) && Ok(ACRIS, c, m) && Before(c, t) && !Before(Minimal(ACRIS, Erase(c), m), t)
    ensures c.Group?
    decreases c
  {
    AcrisNonNegative();
    match c
    case Hollow(_, p) => GroupNeeded(p, m, t);
    case Unary(op, e) => MinimalStops(e, ACRIS.prefix(op).rbp, t);
    case Binary(_, _, op, r) => MinimalStops(r, ACRIS.infix(op).rbp, t);
    case Member(_, _, r) => MinimalStops(r, ACRIS.dot.rbp, t);
    case _ =>
  }

  // ---- No text is shorter -----------------------------------------------------------------

  lemma {:induction false} MinimalShortest(c: Cst, m: int)
    requires Ok(ACRIS, c, m)
    ensures Width(Minimal(ACRIS, Erase(c), m)) <= Width(c)
    decreases c, 1
  {
    AcrisNonNegative();
    hide Edge, LeftOperand;
    match c
    case Leaf(_) =>
    case Ref(_) =>
    case Group(inner) =>
      MinimalShortest(inner, 0);
      PowerCosts(Erase(inner), m);
    case Hollow(_, p) => MinimalShortest(p, m);
    case Array(es) => ItemsShortest(es);
    case Call(_, es) => ItemsShortest(es);
    case Unary(op, e) => MinimalShortest(e, ACRIS.prefix(op).rbp);
    case _ => OperationShortest(c, m);
  }

  lemma {:induction false} OperationShortest(c: Cst, m: int)
    requires Ok(ACRIS, c, m) && (c.Binary? || PostfixRooted(c))
    ensures Width(Minimal(ACRIS, Erase(c), m)) <= Width(c)
    decreases c, 0
  {
    hide Edge, LeftOperand;
    match c
    case Binary(l, g, op, r) =>
      OperandShortest(l, m, g, InfixToken(op));
      MinimalShortest(r, ACRIS.infix(op).rbp);
    case Member(l, g, r) =>
      OperandShortest(l, m, g, Dot);
      MinimalShortest(r, ACRIS.dot.rbp);
    case Index(l, g, i) =>
      OperandShortest(l, m, g, BracketOpen);
      MinimalShortest(i, ACRIS.bracket.rbp);
  }

  lemma {:induction false} OperandShortest(c: Cst, m: int, g: nat, t: Token)
    requires IsOperator(t) && Ok(ACRIS, c, m) && Edge(ACRIS, c, LookOp(g, t)) && (InfixOpOf(t).Some? || !PostfixRooted(c))
    ensures Width(LeftOperand(ACRIS, Erase(c), m, t)) <= Width(c)
    decreases c, 2
  {
    hide Edge, Bare;
    MinimalShortest(c, m);
    EdgeGap(c, g, t);
    if !Before(Minimal(ACRIS, Erase(c), m), t) {
      GroupNeeded(c, m, t);
      MinimalShortest(c.inner, 0);
      AcrisNonNegative();
    }
  }

  lemma {:induction false} ItemsShortest(es: Items)
    requires OkItems(ACRIS, es)
    ensures WidthItems(MinimalItems(ACRIS, EraseItems(es))) <= WidthItems(es)
    decreases es, 0
  {
    hide Minimal, Ok;
    match es
    case Absent(_, t) =>
      TailShortest(t);
      assert WidthItems(MinimalItems(ACRIS, EraseTail(t))) <= WidthTail(MinimalTail(ACRIS, EraseTail(t)));
    case Present(h, t) =>
      MinimalShortest(h, 0);
      TailShortest(t);
  }

  lemma {:induction false} TailShortest(t: Tail)
    requires OkTail(ACRIS, t)
    ensures WidthTail(MinimalTail(ACRIS, EraseTail(t))) <= WidthTail(t)
    decreases t, 0
  {
    hide Minimal, Ok;
    if t.More? {
      MinimalShortest(t.head, 0);
      TailShortest(t.tail);
    }
  }

  /** Whatever text the parser reads as the tree, the printed text is not longer. */
  lemma PrintShortest(s: seq<Token>, p: nat, m: int)
    requires p <= |s| && ParseExpr(ACRIS, s, p, m).Got?
    ensures var r := ParseExpr(ACRIS, s, p, m);
      p < r.end && |Print(ACRIS, Erase(r.tree), m)| <= r.end - p
  {
    hide Ok, Stop, Spells, Minimal, Yield, Width;
    var r := ParseExpr(ACRIS, s, p, m);
    SoundExpr(ACRIS, s, p, m);
    MinimalShortest(r.tree, m);
    YieldWidth(Minimal(ACRIS, Erase(r.tree), m));
    CursorBehindTree(ACRIS, s, p, m);
  }
}
