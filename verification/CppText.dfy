/** The C++ text of expressions, token by token, and what it means to a reader with any
    binding table. Operands of infix operators are always parenthesised; the operand of a
    unary `+`, `-` or `!` is not, and that decides when the text says what the tree says. */
module CppText {
  import opened Ast
  import opened Tokens
  import opened Binding
  import opened PrattGrammar
  import opened PrattSpec
  import opened PrattSound
  import opened PrattComplete
  import opened PrattTheorems

  /** The trees whose text is modelled: operators over names, calls and literals. */
  predicate CppTree(t: Expr) {
    match t
    case Literal(lit) => !lit.CharLit?
    case Identifier(_) => true
    case FunctionCall(_, args) => forall e <- args :: CppTree(e)
    case Prefix(_, e) => CppTree(e)
    case Infix(_, l, r) => CppTree(l) && CppTree(r)
    case _ => false
  }

  function Text(t: Expr): seq<Token>
    requires CppTree(t)
  {
    match t
    case Literal(lit) => [Lit(lit)]
    case Identifier(id) => [Name(id)]
    case FunctionCall(f, args) => [Name(f), ParenOpen] + TextList(args) + [ParenClose]
    case Infix(op, l, r) =>
      [ParenOpen] + Text(l) + [ParenClose] + [InfixToken(op)] + [ParenOpen] + Text(r) + [ParenClose]
    case Prefix(op, e) =>
      if op == AddressOf || op == Dereference then
        [PrefixToken(op)] + [ParenOpen] + Text(e) + [ParenClose]
      else
        [ParenOpen] + [PrefixToken(op)] + Text(e) + [ParenClose]
  }

  function TextList(es: seq<Expr>): seq<Token>
    requires forall e <- es :: CppTree(e)
  {
    if es == [] then [] else Text(es[0]) + TextTail(es[1..])
  }

  function TextTail(es: seq<Expr>): seq<Token>
    requires forall e <- es :: CppTree(e)
  {
    if es == [] then [] else [Comma] + Text(es[0]) + TextTail(es[1..])
  }

  /** The unary operator `op` is drawn into the infix expression it stands in front of. */
  predicate Captures(tab: BindingTable, op: PrefixOp, e: Expr) {
    op != AddressOf && op != Dereference && e.Infix? && tab.infix(e.op).lbp < tab.prefix(op).rbp
  }

  /** The concrete tree that the text of `t` spells to a reader with table `tab`. */
  function Heard(tab: BindingTable, t: Expr): Cst
    requires CppTree(t)
  {
    match t
    case Literal(lit) => Leaf(lit)
    case Identifier(id) => Ref(id)
    case FunctionCall(f, args) => Call(f, HeardList(tab, args))
    case Infix(op, l, r) => Binary(Group(Heard(tab, l)), 0, op, Group(Heard(tab, r)))
    case Prefix(op, e) =>
      if op == AddressOf || op == Dereference then Unary(op, Group(Heard(tab, e)))
      else if Captures(tab, op, e) then
        Group(Binary(Unary(op, Group(Heard(tab, e.left))), 0, e.op, Group(Heard(tab, e.right))))
      else Group(Unary(op, Heard(tab, e)))
  }

  function HeardList(tab: BindingTable, es: seq<Expr>): Items
    requires forall e <- es :: CppTree(e)
  {
    if es == [] then Absent(0, End) else Present(Heard(tab, es[0]), HeardTail(tab, es[1..]))
  }

  function HeardTail(tab: BindingTable, es: seq<Expr>): Tail
    requires forall e <- es :: CppTree(e)
  {
    if es == [] then End else More(0, Heard(tab, es[0]), HeardTail(tab, es[1..]))
  }

  /** No unary operator is drawn into an infix operand anywhere in `t`. */
  predicate NoCapture(tab: BindingTable, t: Expr) {
    match t
    case FunctionCall(_, args) => forall e <- args :: NoCapture(tab, e)
    case Prefix(op, e) => !Captures(tab, op, e) && NoCapture(tab, e)
    case Infix(_, l, r) => NoCapture(tab, l) && NoCapture(tab, r)
    case _ => true
  }

  // ---- The heard tree has the text as its yield, and is in the grammar --------------------

  lemma {:induction false} HeardYield(tab: BindingTable, t: Expr)
    requires CppTree(t)
    ensures Yield(Heard(tab, t)) == Text(t)
    decreases t
  {
    match t
    case Literal(_) =>
    case Identifier(_) =>
    case FunctionCall(_, args) => HeardListYield(tab, args);
    case Infix(op, l, r) =>
      HeardYield(tab, l);
      HeardYield(tab, r);
      InfixYield(tab, t);
    case Prefix(op, e) =>
      HeardYield(tab, e);
      if Captures(tab, op, e) {
        HeardYield(tab, e.left);
        HeardYield(tab, e.right);
        CapturedYield(tab, op, e);
      } else {
        PrefixYield(tab, op, e);
      }
  }

  lemma InfixYield(tab: BindingTable, t: Expr)
    requires t.Infix? && CppTree(t)
    requires Yield(Heard(tab, t.left)) == Text(t.left) && Yield(Heard(tab, t.right)) == Text(t.right)
    ensures Yield(Heard(tab, t)) == Text(t)
  {
    GroupedYield(Heard(tab, t.left), t.op, Heard(tab, t.right));
  }

  lemma GroupedYield(l: Cst, op: InfixOp, r: Cst)
    ensures Yield(Binary(Group(l), 0, op, Group(r))) ==
      [ParenOpen] + Yield(l) + [ParenClose] + [InfixToken(op)] + [ParenOpen] + Yield(r) + [ParenClose]
  {
    var x, y := [ParenOpen] + Yield(l) + [ParenClose], [ParenOpen] + Yield(r) + [ParenClose];
    assert Yield(Group(l)) == x && Yield(Group(r)) == y && Newlines(0) == [];
    assert Yield(Binary(Group(l), 0, op, Group(r))) == x + [] + [InfixToken(op)] + y;
    hide Yield;
    assert x + [] == x;
    assert x + [InfixToken(op)] + y == x + [InfixToken(op)] + [ParenOpen] + Yield(r) + [ParenClose];
  }

  lemma PrefixYield(tab: BindingTable, op: PrefixOp, e: Expr)
    requires CppTree(e) && Yield(Heard(tab, e)) == Text(e) && !Captures(tab, op, e)
    ensures Yield(Heard(tab, Prefix(op, e))) == Text(Prefix(op, e))
  {
    if op == AddressOf || op == Dereference {
      assert Yield(Group(Heard(tab, e))) == [ParenOpen] + Text(e) + [ParenClose];
      assert Text(Prefix(op, e)) == [PrefixToken(op)] + ([ParenOpen] + Text(e) + [ParenClose]);
    } else {
      assert Yield(Unary(op, Heard(tab, e))) == [PrefixToken(op)] + Text(e);
      assert Text(Prefix(op, e)) == [ParenOpen] + ([PrefixToken(op)] + Text(e)) + [ParenClose];
    }
  }

  lemma CapturedYield(tab: BindingTable, op: PrefixOp, e: Expr)
    requires CppTree(e) && Captures(tab, op, e)
    requires Yield(Heard(tab, e)) == Text(e)
    ensures Yield(Heard(tab, Prefix(op, e))) == Text(Prefix(op, e))
  {
    var l, r := Group(Heard(tab, e.left)), Group(Heard(tab, e.right));
    var u := Unary(op, l);
    var b := Binary(u, 0, e.op, r);
    assert Newlines(0) == [];
    assert Yield(b) == [PrefixToken(op)] + Yield(Binary(l, 0, e.op, r));
    assert Text(Prefix(op, e)) == [ParenOpen] + ([PrefixToken(op)] + Text(e)) + [ParenClose];
  }

  lemma {:induction false} HeardListYield(tab: BindingTable, es: seq<Expr>)
    requires forall e <- es :: CppTree(e)
    ensures YieldItems(HeardList(tab, es)) == TextList(es)
    decreases es
  {
    if es == [] {
      assert HollowParens(0) == [];
    } else {
      HeardYield(tab, es[0]);
      HeardTailYield(tab, es[1..]);
    }
  }

  lemma {:induction false} HeardTailYield(tab: BindingTable, es: seq<Expr>)
    requires forall e <- es :: CppTree(e)
    ensures YieldTail(HeardTail(tab, es)) == TextTail(es)
    decreases es
  {
    if es != [] {
      HeardYield(tab, es[0]);
      HeardTailYield(tab, es[1..]);
      assert Newlines(0) == [];
      assert [Comma] + Newlines(0) == [Comma];
    }
  }

  lemma {:induction false} HeardOk(tab: BindingTable, t: Expr, m: int)
    requires CppTree(t) && NonNegative(tab)
    requires t.Infix? ==> m <= tab.infix(t.op).lbp
    ensures Ok(tab, Heard(tab, t), m)
    decreases t
  {
    match t
    case Literal(_) =>
    case Identifier(_) =>
    case FunctionCall(_, args) => HeardListOk(tab, args);
    case Infix(op, l, r) =>
      HeardOk(tab, l, 0);
      HeardOk(tab, r, 0);
    case Prefix(op, e) =>
      if op == AddressOf || op == Dereference {
        HeardOk(tab, e, 0);
      } else if Captures(tab, op, e) {
        HeardOk(tab, e.left, 0);
        HeardOk(tab, e.right, 0);
        CapturedOk(tab, op, e);
      } else {
        HeardOk(tab, e, tab.prefix(op).rbp);
      }
  }

  lemma CapturedOk(tab: BindingTable, op: PrefixOp, e: Expr)
    requires CppTree(e) && NonNegative(tab) && Captures(tab, op, e)
    requires Ok(tab, Heard(tab, e.left), 0) && Ok(tab, Heard(tab, e.right), 0)
    ensures Ok(tab, Heard(tab, Prefix(op, e)), 0)
    ensures forall m :: Ok(tab, Heard(tab, Prefix(op, e)), m)
  {
    var l, r := Group(Heard(tab, e.left)), Group(Heard(tab, e.right));
    var u := Unary(op, l);
    assert InfixOpOf(InfixToken(e.op)) == Some(e.op);
    assert Stop(tab, l, tab.prefix(op).rbp, LookOp(0, InfixToken(e.op)));
    assert Edge(tab, u, LookOp(0, InfixToken(e.op)));
    assert Ok(tab, r, tab.infix(e.op).rbp);
    assert Ok(tab, u, 0);
    assert Ok(tab, Binary(u, 0, e.op, r), 0);
  }

  lemma {:induction false} HeardListOk(tab: BindingTable, es: seq<Expr>)
    requires NonNegative(tab) && forall e <- es :: CppTree(e)
    ensures OkItems(tab, HeardList(tab, es))
    decreases es
  {
    if es != [] {
      HeardOk(tab, es[0], 0);
      HeardTailOk(tab, es[1..]);
    }
  }

  lemma {:induction false} HeardTailOk(tab: BindingTable, es: seq<Expr>)
    requires NonNegative(tab) && forall e <- es :: CppTree(e)
    ensures OkTail(tab, HeardTail(tab, es))
    decreases es
  {
    if es != [] {
      HeardOk(tab, es[0], 0);
      HeardTailOk(tab, es[1..]);
    }
  }

  /** The heard tree means the original tree exactly when no unary operator captures. */
  lemma {:induction false} HeardMeans(tab: BindingTable, t: Expr)
    requires CppTree(t)
    ensures Erase(Heard(tab, t)) == t <==> NoCapture(tab, t)
    decreases t
  {
    match t
    case Literal(_) =>
    case Identifier(_) =>
    case FunctionCall(_, args) => HeardListMeans(tab, args);
    case Infix(op, l, r) =>
      HeardMeans(tab, l);
      HeardMeans(tab, r);
    case Prefix(op, e) =>
      HeardMeans(tab, e);
  }

  lemma {:induction false} HeardListMeans(tab: BindingTable, es: seq<Expr>)
    requires forall e <- es :: CppTree(e)
    ensures EraseItems(HeardList(tab, es)) == es <==> forall e <- es :: NoCapture(tab, e)
    decreases es
  {
    if es != [] {
      HeardMeans(tab, es[0]);
      HeardTailMeans(tab, es[1..]);
      SplitFirst(tab, es, EraseTail(HeardTail(tab, es[1..])), Erase(Heard(tab, es[0])));
    }
  }

  lemma {:induction false} HeardTailMeans(tab: BindingTable, es: seq<Expr>)
    requires forall e <- es :: CppTree(e)
    ensures EraseTail(HeardTail(tab, es)) == es <==> forall e <- es :: NoCapture(tab, e)
    decreases es
  {
    if es != [] {
      HeardMeans(tab, es[0]);
      HeardTailMeans(tab, es[1..]);
      SplitFirst(tab, es, EraseTail(HeardTail(tab, es[1..])), Erase(Heard(tab, es[0])));
    }
  }

  lemma SplitFirst(tab: BindingTable, es: seq<Expr>, rest: seq<Expr>, x: Expr)
    requires es != []
    ensures [x] + rest == es <==> x == es[0] && rest == es[1..]
    ensures (forall e <- es :: NoCapture(tab, e)) <==>
      NoCapture(tab, es[0]) && forall e <- es[1..] :: NoCapture(tab, e)
  {
    if [x] + rest == es {
      assert es[1..] == rest;
      assert x == es[0];
    }
    assert es == [es[0]] + es[1..];
  }

  // ---- The text, read back ----------------------------------------------------------------

  predicate EndsExpression(rest: seq<Token>) {
    rest != [] && EndsOperators(rest[0])
  }

  /** Read with any table without negative powers, the text of any tree is one complete
      expression, and it is the original tree exactly when no unary operator captures. */
  lemma TextReadBack(tab: BindingTable, t: Expr, rest: seq<Token>)
    requires CppTree(t) && NonNegative(tab) && EndsExpression(rest)
    ensures var r := ParseExpr(tab, Text(t) + rest, 0, 0);
      && r.Got? && r.end == r.cur == |Text(t)|
      && (Erase(r.tree) == t <==> NoCapture(tab, t))
  {
    hide Ok, Spells, Erase, NoCapture, Text;
    var c := Heard(tab, t);
    var s := Text(t) + rest;
    HeardYield(tab, t);
    HeardOk(tab, t, 0);
    HeardMeans(tab, t);
    SpellsSlice(s, 0, c);
    CompleteClosed(tab, s, 0, c, 0);
  }

  /** Unary operators stand only on atoms, calls and other prefix expressions. */
  predicate PrefixOnOperands(t: Expr) {
    match t
    case FunctionCall(_, args) => forall e <- args :: PrefixOnOperands(e)
    case Prefix(op, e) => (op == AddressOf || op == Dereference || !e.Infix?) && PrefixOnOperands(e)
    case Infix(_, l, r) => PrefixOnOperands(l) && PrefixOnOperands(r)
    case _ => true
  }

  lemma {:induction false} OperandsNeverCapture(tab: BindingTable, t: Expr)
    requires PrefixOnOperands(t)
    ensures NoCapture(tab, t)
    decreases t
  {
    match t
    case FunctionCall(_, args) =>
      forall e | e in args ensures NoCapture(tab, e) { OperandsNeverCapture(tab, e); }
    case Prefix(_, e) => OperandsNeverCapture(tab, e);
    case Infix(_, l, r) => OperandsNeverCapture(tab, l); OperandsNeverCapture(tab, r);
    case _ =>
  }

  /** A table in which every unary operator binds tighter than every infix operator, as in C++. */
  const UNARY_FIRST: BindingTable :=
    BindingTable(op => Power(1, 1), op => Power(0, 0), Power(2, 2), Power(2, 2))

  lemma {:induction false} OthersCapture(t: Expr)
    requires !PrefixOnOperands(t)
    ensures !NoCapture(UNARY_FIRST, t)
    decreases t
  {
    match t
    case FunctionCall(_, args) =>
      var e :| e in args && !PrefixOnOperands(e);
      OthersCapture(e);
    case Prefix(op, e) =>
      if !PrefixOnOperands(e) { OthersCapture(e); }
    case Infix(_, l, r) =>
      if !PrefixOnOperands(l) { OthersCapture(l); } else { OthersCapture(r); }
    case _ =>
  }

  ghost predicate ReadsBack(tab: BindingTable, t: Expr, rest: seq<Token>)
    requires CppTree(t)
  {
    var r := ParseExpr(tab, Text(t) + rest, 0, 0);
    r.Got? && r.cur == |Text(t)| && Erase(r.tree) == t
  }

  /** The C++ text fixes the grouping under every precedence exactly for the trees whose
      unary operators stand on operands. */
  lemma GroupingIsFixed(t: Expr, rest: seq<Token>)
    requires CppTree(t) && EndsExpression(rest)
    ensures PrefixOnOperands(t) <==> forall tab | NonNegative(tab) :: ReadsBack(tab, t, rest)
  {
    hide Text, Erase, NoCapture, PrefixOnOperands, CppTree;
    if PrefixOnOperands(t) {
      forall tab | NonNegative(tab) ensures ReadsBack(tab, t, rest) {
        TextReadBack(tab, t, rest);
        OperandsNeverCapture(tab, t);
      }
    } else {
      assert NonNegative(UNARY_FIRST);
      TextReadBack(UNARY_FIRST, t, rest);
      OthersCapture(t);
    }
  }

  lemma CapturedErase(tab: BindingTable, op: PrefixOp, e: Expr)
    requires CppTree(e) && Captures(tab, op, e)
    requires NoCapture(tab, e.left) && NoCapture(tab, e.right)
    ensures Erase(Heard(tab, Prefix(op, e))) == Infix(e.op, Prefix(op, e.left), e.right)
  {
    HeardMeans(tab, e.left);
    HeardMeans(tab, e.right);
    var u := Unary(op, Group(Heard(tab, e.left)));
    assert Erase(u) == Prefix(op, e.left);
    assert Erase(Binary(u, 0, e.op, Group(Heard(tab, e.right)))) == Infix(e.op, Prefix(op, e.left), e.right);
  }

  /** A captured operand is read as the left operand of the infix operator. */
  lemma CapturedIsMisread(tab: BindingTable, op: PrefixOp, e: Expr, rest: seq<Token>)
    requires CppTree(e) && NonNegative(tab) && EndsExpression(rest)
    requires Captures(tab, op, e) && NoCapture(tab, e.left) && NoCapture(tab, e.right)
    ensures var r := ParseExpr(tab, Text(Prefix(op, e)) + rest, 0, 0);
      r.Got? && r.cur == |Text(Prefix(op, e))|
      && Erase(r.tree) == Infix(e.op, Prefix(op, e.left), e.right)
  {
    var t := Prefix(op, e);
    var c := Heard(tab, t);
    assert CppTree(t);
    hide Ok, Spells, Yield, Text, ParseExpr, CppTree, NoCapture, Heard, Erase;
    CapturedErase(tab, op, e);
    HeardYield(tab, t);
    HeardOk(tab, t, 0);
    SpellsSlice(Text(t) + rest, 0, c);
    CompleteClosed(tab, Text(t) + rest, 0, c, 0);
  }

  function NegatedSum(a: string, b: string): (t: Expr)
    ensures CppTree(t)
  {
    var sum := Infix(Add, Identifier(a), Identifier(b));
    assert CppTree(sum);
    Prefix(Negative, sum)
  }

  /** `-(a + b)`: the text is `(-(a) + (b))`, which the language's own table, like C++, reads
      as `(-a) + b`. */
  lemma NegatedSumIsMisread(a: string, b: string, rest: seq<Token>)
    requires EndsExpression(rest)
    ensures var r := ParseExpr(ACRIS, Text(NegatedSum(a, b)) + rest, 0, 0);
      r.Got? && Erase(r.tree) == Infix(Add, Prefix(Negative, Identifier(a)), Identifier(b))
  {
    hide Text, ParseExpr;
    CapturedIsMisread(ACRIS, Negative, NegatedSum(a, b).operand, rest);
  }
}
