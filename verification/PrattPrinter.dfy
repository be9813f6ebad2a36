/** A printer that adds parentheses only where the binding powers ask for them, and the
    round trip through the parser, for every binding table. */
module PrattPrinter {
  import opened Ast
  import opened Tokens
  import opened Binding
  import opened PrattGrammar
  import opened PrattSpec
  import opened PrattSound
  import opened PrattComplete
  import opened PrattTheorems

  /** The root operator of `t` may stand at minimum power `m` without parentheses. */
  predicate Fits(tab: BindingTable, t: Expr, m: int) {
    match t
    case Infix(op, _, _) => m <= tab.infix(op).lbp
    case MemberAccess(_, _) => m <= tab.dot.lbp
    case Subscript(_, _) => m <= tab.bracket.lbp
    case _ => true
  }

  function Minimal(tab: BindingTable, t: Expr, m: int): Cst
    decreases t, 2
  {
    if Fits(tab, t, m) then Bare(tab, t, m) else Group(Bare(tab, t, 0))
  }

  /** `t` without parentheses of its own. */
  function Bare(tab: BindingTable, t: Expr, m: int): Cst
    decreases t, 0
  {
    match t
    case Literal(lit) => Leaf(lit)
    case ArrayExpr(es) => Array(MinimalItems(tab, es))
    case Identifier(id) => Ref(id)
    case FunctionCall(f, args) => Call(f, MinimalItems(tab, args))
    case Prefix(op, e) => Unary(op, Minimal(tab, e, tab.prefix(op).rbp))
    case Infix(op, l, r) =>
      Binary(LeftOperand(tab, l, m, InfixToken(op)), 0, op, Minimal(tab, r, tab.infix(op).rbp))
    case MemberAccess(l, r) =>
      Member(LeftOperand(tab, l, m, Dot), 0, Minimal(tab, r, tab.dot.rbp))
    case Subscript(l, i) =>
      Index(LeftOperand(tab, l, m, BracketOpen), 0, Minimal(tab, i, tab.bracket.rbp))
  }

  /** The left operand `l` of the operator `t`: parenthesised exactly when the operator
      would otherwise be drawn into it, or is a second postfix operator in a row. */
  function LeftOperand(tab: BindingTable, l: Expr, m: int, t: Token): Cst
    decreases l, 3
  {
    var c := Minimal(tab, l, m);
    if Edge(tab, c, LookOp(0, t)) && (InfixOpOf(t).Some? || !PostfixRooted(c)) then c
    else Group(Bare(tab, l, 0))
  }

  function MinimalItems(tab: BindingTable, es: seq<Expr>): Items
    decreases es, 1
  {
    if es == [] then Absent(0, End) else Present(Minimal(tab, es[0], 0), MinimalTail(tab, es[1..]))
  }

  function MinimalTail(tab: BindingTable, es: seq<Expr>): Tail
    decreases es, 0
  {
    if es == [] then End else More(0, Minimal(tab, es[0], 0), MinimalTail(tab, es[1..]))
  }

  lemma {:induction false} MinimalOk(tab: BindingTable, t: Expr, m: int)
    requires NonNegative(tab)
    ensures Ok(tab, Minimal(tab, t, m), m) && Erase(Minimal(tab, t, m)) == t
    decreases t, 2
  {
    hide Bare;
    if Fits(tab, t, m) { BareOk(tab, t, m); } else { BareOk(tab, t, 0); }
  }

  lemma {:induction false} BareOk(tab: BindingTable, t: Expr, m: int)
    requires NonNegative(tab) && Fits(tab, t, m)
    ensures Ok(tab, Bare(tab, t, m), m) && Erase(Bare(tab, t, m)) == t
    decreases t, 0
  {
    hide Minimal, LeftOperand, MinimalItems, Edge;
    match t
    case Literal(_) =>
    case Identifier(_) =>
    case ArrayExpr(es) => ItemsOk(tab, es);
    case FunctionCall(_, es) => ItemsOk(tab, es);
    case Prefix(op, e) => MinimalOk(tab, e, tab.prefix(op).rbp);
    case Infix(op, l, r) =>
      LeftOperandOk(tab, l, m, InfixToken(op));
      MinimalOk(tab, r, tab.infix(op).rbp);
    case MemberAccess(l, r) =>
      LeftOperandOk(tab, l, m, Dot);
      MinimalOk(tab, r, tab.dot.rbp);
    case Subscript(l, i) =>
      LeftOperandOk(tab, l, m, BracketOpen);
      MinimalOk(tab, i, tab.bracket.rbp);
  }

  lemma {:induction false} LeftOperandOk(tab: BindingTable, l: Expr, m: int, t: Token)
    requires NonNegative(tab)
    ensures var c := LeftOperand(tab, l, m, t);
      && Ok(tab, c, m) && Edge(tab, c, LookOp(0, t)) && Erase(c) == l
      && (InfixOpOf(t).Some? || !PostfixRooted(c))
    decreases l, 3
  {
    hide Minimal, Bare;
    MinimalOk(tab, l, m);
    FitsZero(tab, l);
    BareOk(tab, l, 0);
  }

  lemma FitsZero(tab: BindingTable, t: Expr)
    requires NonNegative(tab)
    ensures Fits(tab, t, 0)
  {
  }

  lemma {:induction false} ItemsOk(tab: BindingTable, es: seq<Expr>)
    requires NonNegative(tab)
    ensures OkItems(tab, MinimalItems(tab, es)) && EraseItems(MinimalItems(tab, es)) == es
    decreases es, 1
  {
    hide Minimal, Ok;
    if es != [] {
      MinimalOk(tab, es[0], 0);
      TailOk(tab, es[1..]);
    }
  }

  lemma {:induction false} TailOk(tab: BindingTable, es: seq<Expr>)
    requires NonNegative(tab)
    ensures OkTail(tab, MinimalTail(tab, es)) && EraseTail(MinimalTail(tab, es)) == es
    decreases es, 0
  {
    hide Minimal, Ok;
    if es != [] {
      MinimalOk(tab, es[0], 0);
      TailOk(tab, es[1..]);
    }
  }

  /** The text of a tree. */
  function Print(tab: BindingTable, t: Expr, m: int): seq<Token> {
    Yield(Minimal(tab, t, m))
  }

  lemma LookAtRest(x: seq<Token>, rest: seq<Token>)
    ensures LookAt(x + rest, |x|) == LookAt(rest, 0)
  {
    var s := x + rest;
    var f := Skip(rest, 0);
    forall i | |x| <= i < |x| + f ensures s[i] == Newline { assert s[i] == rest[i - |x|]; }
    SkipIs(s, |x|, |x| + f);
  }

  /** Printing and then parsing at the same power gives the tree back and stops at `rest`,
      up to skipped newlines, for every tree, every table without negative powers and every
      `rest` that cannot be drawn into the text. */
  lemma PrintParse(tab: BindingTable, t: Expr, m: int, rest: seq<Token>)
    requires NonNegative(tab) && Stop(tab, Minimal(tab, t, m), m, LookAt(rest, 0))
    ensures var r := ParseExpr(tab, Print(tab, t, m) + rest, 0, m);
      && r.Got? && Erase(r.tree) == t
      && r.end == |Print(tab, t, m)|
      && (forall i :: r.end <= i < r.cur ==> (Print(tab, t, m) + rest)[i] == Newline)
  {
    hide Ok, Stop, Minimal, Spells;
    var c := Minimal(tab, t, m);
    MinimalOk(tab, t, m);
    LookAtRest(Yield(c), rest);
    ParserDecidesGrammar(tab, Yield(c) + rest, 0, m, c, |Yield(c)|);
    CursorBehindTree(tab, Yield(c) + rest, 0, m);
  }

  /** `rest` starts, behind any newlines, with a token that is not an operator. */
  predicate CannotContinue(rest: seq<Token>) {
    rest != [] && rest[0] != ParenOpen
    && (Skip(rest, 0) < |rest| ==> !IsOperator(rest[Skip(rest, 0)]))
  }

  /** In front of anything that cannot continue an expression, the cursor stops exactly
      behind the text. */
  lemma RoundTrip(tab: BindingTable, t: Expr, m: int, rest: seq<Token>)
    requires NonNegative(tab) && CannotContinue(rest)
    ensures var s := Print(tab, t, m) + rest;
      var r := ParseExpr(tab, s, 0, m);
      r.Got? && Erase(r.tree) == t && r.end == r.cur == |Print(tab, t, m)|
  {
    hide Ok, Stop, Minimal, Spells;
    var c := Minimal(tab, t, m);
    var s := Print(tab, t, m) + rest;
    StopAtClosed(tab, c, m, LookAt(rest, 0));
    PrintParse(tab, t, m, rest);
    LookAtRest(Yield(c), rest);
    var r := ParseExpr(tab, s, 0, m);
    CursorBehindTree(tab, s, 0, m);
    if r.end < r.cur {
      SkipIs(s, r.end, r.cur);
    }
  }

  /** A tree whose root operator is too weak for power `m` is parenthesised in every text
      that the grammar has for it at that power. */
  lemma ParensNeeded(tab: BindingTable, t: Expr, m: int, c: Cst)
    requires !Fits(tab, t, m) && Ok(tab, c, m) && Erase(c) == t
    ensures c.Group?
  {
  }

  /** In the language's own table it is enough that the next infix operator binds weaker
      than the power at which the text is read. */
  lemma {:induction false} AcrisStop(c: Cst, m: int, look: Look)
    requires look.imm.Some? && look.imm.value != ParenOpen
    requires look.first.Some? && InfixOpOf(look.first.value).Some?
    requires Ok(ACRIS, c, m)
    requires AcrisInfix(InfixOpOf(look.first.value).value).lbp < m
    ensures Stop(ACRIS, c, m, look)
    decreases c
  {
    match c
    case Hollow(_, e) => AcrisStop(e, m, look);
    case Unary(op, e) => AcrisStop(e, ACRIS.prefix(op).rbp, look);
    case Binary(_, _, op, r) => AcrisStop(r, ACRIS.infix(op).rbp, look);
    case Member(_, _, r) => AcrisStop(r, ACRIS.dot.rbp, look);
    case _ =>
  }

  /** After a postfix operator no second one is tried, so the second subscript of `a + b[i][j]`
      applies to the sum. */
  lemma SecondSubscript(a: string, b: string, i: string, j: string, rest: seq<Token>)
    requires CannotContinue(rest)
    ensures var s := [Name(a), InfixToken(Add), Name(b), BracketOpen, Name(i), BracketClose, BracketOpen, Name(j), BracketClose];
      var r := ParseExpr(ACRIS, s + rest, 0, 0);
      r.Got? && r.cur == |s|
      && Erase(r.tree) == Subscript(Infix(Add, Identifier(a), Subscript(Identifier(b), Identifier(i))), Identifier(j))
  {
    SecondSubscriptText(a, b, i, j);
    hide Yield, Erase, Ok, ParseExpr;
    ClosedText(Index(Binary(Ref(a), 0, Add, Index(Ref(b), 0, Ref(i))), 0, Ref(j)), rest);
  }

  lemma SecondSubscriptText(a: string, b: string, i: string, j: string)
    ensures var c := Index(Binary(Ref(a), 0, Add, Index(Ref(b), 0, Ref(i))), 0, Ref(j));
      && Ok(ACRIS, c, 0)
      && Yield(c) == [Name(a), InfixToken(Add), Name(b), BracketOpen, Name(i), BracketClose, BracketOpen, Name(j), BracketClose]
      && Erase(c) == Subscript(Infix(Add, Identifier(a), Subscript(Identifier(b), Identifier(i))), Identifier(j))
  {
    var inner := Index(Ref(b), 0, Ref(i));
    var sum := Binary(Ref(a), 0, Add, inner);
    var c := Index(sum, 0, Ref(j));
    assert Newlines(0) == [];
    assert Yield(inner) == [Name(b), BracketOpen, Name(i), BracketClose];
    assert Yield(sum) == [Name(a), InfixToken(Add)] + Yield(inner);
    assert Erase(inner) == Subscript(Identifier(b), Identifier(i));
    assert Erase(sum) == Infix(Add, Identifier(a), Erase(inner));
    hide Yield, Erase;
    SecondSubscriptOk(a, b, i, j);
  }

  lemma SecondSubscriptOk(a: string, b: string, i: string, j: string)
    ensures Ok(ACRIS, Index(Binary(Ref(a), 0, Add, Index(Ref(b), 0, Ref(i))), 0, Ref(j)), 0)
  {
    var inner, look := Index(Ref(b), 0, Ref(i)), LookOp(0, BracketOpen);
    var sum := Binary(Ref(a), 0, Add, inner);
    assert ACRIS.infix(Add) == Power(59, 60);
    assert Ok(ACRIS, Ref(b), 60) && Edge(ACRIS, Ref(b), look) && Ok(ACRIS, Ref(i), 119);
    assert Ok(ACRIS, inner, 60);
    assert Edge(ACRIS, inner, look) && Stop(ACRIS, inner, 60, look);
    assert Ok(ACRIS, Ref(a), 0) && Edge(ACRIS, Ref(a), LookOp(0, InfixToken(Add)));
    assert Ok(ACRIS, sum, 0);
    assert Edge(ACRIS, sum, look);
    assert Ok(ACRIS, Ref(j), 119);
    hide Stop;
  }

  /** The root was built by a postfix operator, parentheses around it or not. */
  predicate IsPostfix(e: Expr) {
    e.MemberAccess? || e.Subscript?
  }

  function PostfixOperand(e: Expr): Expr
    requires IsPostfix(e)
  {
    match e
    case MemberAccess(o, _) => o
    case Subscript(b, _) => b
  }

  /** The tree without the parentheses around it. */
  function Core(c: Cst): (r: Cst)
    ensures Erase(r) == Erase(c) && !r.Group? && !r.Hollow?
  {
    match c
    case Group(inner) => Core(inner)
    case Hollow(_, p) => Core(p)
    case _ => c
  }

  lemma {:induction false} CoreOk(tab: BindingTable, c: Cst, m: int) returns (n: int)
    requires Ok(tab, c, m)
    ensures Ok(tab, Core(c), n)
  {
    match c
    case Group(inner) => n := CoreOk(tab, inner, 0);
    case Hollow(_, p) => n := CoreOk(tab, p, m);
    case _ => n := m;
  }

  /** In every text of the grammar, a postfix operator directly under another one is
      parenthesised, whatever the binding powers. */
  lemma PostfixGrouped(tab: BindingTable, c: Cst, m: int)
    requires Ok(tab, c, m) && IsPostfix(Erase(c)) && IsPostfix(PostfixOperand(Erase(c)))
    ensures var core := Core(c); PostfixRooted(core) && core.left.Group? && PostfixRooted(Core(core.left))
  {
    var n := CoreOk(tab, c, m);
    var core := Core(c);
    assert PostfixRooted(core);
    assert Erase(core.left) == PostfixOperand(Erase(c)) && Ok(tab, core.left, n) && !PostfixRooted(core.left);
    if core.left.Hollow? {
      Unpostfixed(core.left.primary);
    } else if !core.left.Group? {
      Unpostfixed(core.left);
    }
  }

  lemma Unpostfixed(c: Cst)
    requires IsPrimary(c) || c.Binary?
    ensures !IsPostfix(Erase(c))
  {}

  /** So it is in every text that is parsed to such a tree. */
  lemma PostfixNeedsParens(tab: BindingTable, s: seq<Token>, p: nat, m: int)
    requires p <= |s| && ParseExpr(tab, s, p, m).Got?
    requires var e := Erase(ParseExpr(tab, s, p, m).tree); IsPostfix(e) && IsPostfix(PostfixOperand(e))
    ensures var core := Core(ParseExpr(tab, s, p, m).tree); PostfixRooted(core) && core.left.Group?
  {
    var r := ParseExpr(tab, s, p, m);
    hide ParseExpr, Erase, Ok, Stop, Yield, IsPostfix;
    ParserDecidesGrammar(tab, s, p, m, r.tree, r.end);
    PostfixGrouped(tab, r.tree, m);
  }

  /** A tree of the grammar in front of something that cannot continue it. */
  lemma ClosedText(c: Cst, rest: seq<Token>)
    requires Ok(ACRIS, c, 0) && CannotContinue(rest)
    ensures var r := ParseExpr(ACRIS, Yield(c) + rest, 0, 0);
      r.Got? && r.tree == c && r.end == r.cur == |Yield(c)|
  {
    hide Ok, Stop, Spells, Yield;
    var s := Yield(c) + rest;
    StopAtClosed(ACRIS, c, 0, LookAt(rest, 0));
    LookAtRest(Yield(c), rest);
    ParserDecidesGrammar(ACRIS, s, 0, 0, c, |Yield(c)|);
    CursorBehindTree(ACRIS, s, 0, 0);
    var r := ParseExpr(ACRIS, s, 0, 0);
    if r.end < r.cur { SkipIs(s, r.end, r.cur); }
  }
}
