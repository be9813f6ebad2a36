/** What the language's own table means, said by families of operators and not by powers: how the
    trees of the grammar nest, and how every chain of operands and infix operators is read. */
module PrattTiers {
  import opened Ast
  import opened Tokens
  import opened Binding
  import opened PrattGrammar
  import opened PrattSpec
  import opened PrattTheorems
  import opened PrattPrinter
  import Meaning
  import Words

  lemma AcrisDraws(x: InfixOp, y: InfixOp)
    ensures ACRIS.infix(x).rbp <= ACRIS.infix(y).lbp <==> Draws(x, y)
  {}

  // ---- The shape of a tree ----------------------------------------------------------------

  /** A dot or a bracket follows a sum or a signed operand only where that ends in a postfix
      operator, after which no second one is tried; it never follows one directly. */
  predicate TakesPostfix(l: Cst) {
    !PostfixRooted(l) && (l.Binary? ==> PostfixRooted(l.right)) && (l.Unary? ==> PostfixRooted(l.operand))
  }

  /** How a node of the tree and its ungrouped neighbours are nested. */
  predicate NodeNested(c: Cst) {
    match c
    case Binary(l, _, op, r) => (r.Binary? ==> Draws(op, r.op)) && (l.Binary? ==> !Draws(l.op, op))
    case Unary(_, e) => !e.Binary?
    case Member(l, _, r) => TakesPostfix(l) && !r.Binary?
    case Index(l, _, i) => TakesPostfix(l) && !i.Binary? && !i.Member?
    case _ => true
  }

  predicate Nested(c: Cst) {
    match c
    case Leaf(_) => true
    case Ref(_) => true
    case Group(inner) => Nested(inner)
    case Hollow(_, p) => Nested(p)
    case Array(es) => NestedItems(es)
    case Call(_, es) => NestedItems(es)
    case Unary(_, e) => NodeNested(c) && Nested(e)
    case Binary(l, _, _, r) => NodeNested(c) && Nested(l) && Nested(r)
    case Member(l, _, r) => NodeNested(c) && Nested(l) && Nested(r)
    case Index(l, _, i) => NodeNested(c) && Nested(l) && Nested(i)
  }

  predicate NestedItems(es: Items) {
    match es
    case Absent(_, t) => NestedTail(t)
    case Present(h, t) => Nested(h) && NestedTail(t)
  }

  predicate NestedTail(t: Tail) {
    match t
    case End => true
    case More(_, h, rest) => Nested(h) && NestedTail(rest)
  }

  /** Every node of every tree of the grammar: an infix operator right of another stands in a
      higher family, or both are comparisons; one left of another does not; no infix operator is
      the bare operand of a prefix operator, a dot or a bracket. */
  lemma {:induction false} AcrisNesting(c: Cst, m: int)
    requires Ok(ACRIS, c, m)
    ensures Nested(c)
    decreases c
  {
    hide Edge;
    AcrisNode(c, m);
    match c
    case Leaf(_) =>
    case Ref(_) =>
    case Group(inner) => AcrisNesting(inner, 0);
    case Hollow(_, p) => AcrisNesting(p, m);
    case Array(es) => ItemsNesting(es);
    case Call(_, es) => ItemsNesting(es);
    case Unary(op, e) => AcrisNesting(e, ACRIS.prefix(op).rbp);
    case Binary(l, _, op, r) => AcrisNesting(l, m); AcrisNesting(r, ACRIS.infix(op).rbp);
    case Member(l, _, r) => AcrisNesting(l, m); AcrisNesting(r, ACRIS.dot.rbp);
    case Index(l, _, i) => AcrisNesting(l, m); AcrisNesting(i, ACRIS.bracket.rbp);
  }

  lemma AcrisNode(c: Cst, m: int)
    requires Ok(ACRIS, c, m)
    ensures NodeNested(c)
  {
    match c
    case Binary(l, g, op, r) =>
      if l.Binary? {
        InfixTokenInverse(InfixToken(op), op);
        var look := LookOp(g, InfixToken(op));
        assert Edge(ACRIS, l, look);
        RightOperandEnds(l.right, l.op, look);
      }
      if r.Binary? { AcrisDraws(op, r.op); }
    case Member(l, g, r) => PostfixFollows(l, m, LookOp(g, Dot));
    case Index(l, g, r) => PostfixFollows(l, m, LookOp(g, BracketOpen));
    case _ =>
  }

  lemma PostfixFollows(l: Cst, m: int, look: Look)
    requires Ok(ACRIS, l, m) && Edge(ACRIS, l, look) && !PostfixRooted(l)
    requires look.imm.Some? && (look.first == Some(Dot) || look.first == Some(BracketOpen))
    ensures TakesPostfix(l)
  {}

  lemma {:induction false} ItemsNesting(es: Items)
    requires OkItems(ACRIS, es)
    ensures NestedItems(es)
    decreases es
  {
    hide Ok, Nested;
    match es
    case Absent(_, t) => TailNesting(t);
    case Present(h, t) => AcrisNesting(h, 0); TailNesting(t);
  }

  lemma {:induction false} TailNesting(t: Tail)
    requires OkTail(ACRIS, t)
    ensures NestedTail(t)
    decreases t
  {
    hide Ok, Nested;
    if t.More? {
      AcrisNesting(t.head, 0);
      TailNesting(t.tail);
    }
  }

  /** What may stand on the right of `op` ends in front of a second infix operator exactly when
      that one does not draw it away. */
  lemma RightOperandEnds(c: Cst, op: InfixOp, look: Look)
    requires Ok(ACRIS, c, ACRIS.infix(op).rbp)
    requires look.imm.Some? && look.imm.value != ParenOpen
    requires look.first.Some? && InfixOpOf(look.first.value).Some?
    ensures Stop(ACRIS, c, ACRIS.infix(op).rbp, look) <==> !Draws(op, InfixOpOf(look.first.value).value)
  {
    var m, next := ACRIS.infix(op).rbp, InfixOpOf(look.first.value).value;
    AcrisDraws(op, next);
    if AcrisInfix(next).lbp < m { AcrisStop(c, m, look); }
  }

  // ---- How a chain is read ----------------------------------------------------------------

  /** An infix operator with the newlines in front of it. */
  datatype Link = Link(gap: nat, op: InfixOp)

  /** The operator of the lowest family; the last one of these, but the first one of comparisons. */
  function Root(ls: seq<Link>): (k: nat)
    requires ls != []
    ensures k < |ls|
    ensures forall j :: 0 <= j < |ls| ==> Tier(ls[k].op) <= Tier(ls[j].op)
    ensures forall j :: 0 <= j < |ls| && Tier(ls[j].op) == Tier(ls[k].op) ==>
      if IsComparison(ls[k].op) then k <= j else j <= k
  {
    var n := |ls| - 1;
    if n == 0 then 0
    else
      var k := Root(ls[..n]);
      if Draws(ls[k].op, ls[n].op) then k else n
  }

  /** The tree of a chain: split at the root operator, then on either side. */
  function Grouped(es: seq<Expr>, ls: seq<Link>): Expr
    requires |es| == |ls| + 1
    decreases |ls|
  {
    if ls == [] then es[0]
    else
      var k := Root(ls);
      Infix(ls[k].op, Grouped(es[..k + 1], ls[..k]), Grouped(es[k + 1..], ls[k + 1..]))
  }

  /** The tokens of a chain. */
  function Flat(cs: seq<Cst>, ls: seq<Link>): seq<Token>
    requires |cs| == |ls| + 1
    decreases |ls|
  {
    if ls == [] then Yield(cs[0])
    else Yield(cs[0]) + Newlines(ls[0].gap) + [InfixToken(ls[0].op)] + Flat(cs[1..], ls[1..])
  }

  function Erased(cs: seq<Cst>): (es: seq<Expr>)
    ensures |es| == |cs| && forall i :: 0 <= i < |cs| ==> es[i] == Erase(cs[i])
  {
    if cs == [] then [] else [Erase(cs[0])] + Erased(cs[1..])
  }

  /** What may stand behind a sign: operands with prefix and postfix operators of their own. */
  predicate IsOperand(c: Cst) {
    Ok(ACRIS, c, AcrisPrefix(Negative).rbp)
  }

  ghost predicate Operands(cs: seq<Cst>) {
    forall i :: 0 <= i < |cs| ==> IsOperand(cs[i])
  }

  /** The tree of a chain with its layout. */
  function Tree(cs: seq<Cst>, ls: seq<Link>): Cst
    requires |cs| == |ls| + 1
    decreases |ls|
  {
    if ls == [] then cs[0]
    else
      var k := Root(ls);
      Binary(Tree(cs[..k + 1], ls[..k]), ls[k].gap, ls[k].op, Tree(cs[k + 1..], ls[k + 1..]))
  }

  lemma {:induction false} TreeErase(cs: seq<Cst>, ls: seq<Link>)
    requires |cs| == |ls| + 1
    ensures Erase(Tree(cs, ls)) == Grouped(Erased(cs), ls)
    decreases |ls|
  {
    if ls != [] {
      var k := Root(ls);
      TreeErase(cs[..k + 1], ls[..k]);
      TreeErase(cs[k + 1..], ls[k + 1..]);
      assert Erased(cs)[..k + 1] == Erased(cs[..k + 1]) && Erased(cs)[k + 1..] == Erased(cs[k + 1..]);
    }
  }

  lemma {:induction false} FlatSplit(cs: seq<Cst>, ls: seq<Link>, k: nat)
    requires |cs| == |ls| + 1 && k < |ls|
    ensures Flat(cs, ls) ==
      Flat(cs[..k + 1], ls[..k]) + Newlines(ls[k].gap) + [InfixToken(ls[k].op)] + Flat(cs[k + 1..], ls[k + 1..])
    decreases k
  {
    hide Yield, Newlines;
    if k == 0 {
      assert Flat(cs[..1], ls[..0]) == Yield(cs[0]);
    } else {
      FlatSplit(cs[1..], ls[1..], k - 1);
      assert cs[1..][..k] == cs[..k + 1][1..] && ls[1..][..k - 1] == ls[..k][1..];
      assert cs[1..][k..] == cs[k + 1..] && ls[1..][k..] == ls[k + 1..];
      var head := Yield(cs[0]) + Newlines(ls[0].gap) + [InfixToken(ls[0].op)];
      assert Flat(cs[..k + 1], ls[..k]) == head + Flat(cs[..k + 1][1..], ls[..k][1..]);
    }
  }

  lemma {:induction false} TreeYield(cs: seq<Cst>, ls: seq<Link>)
    requires |cs| == |ls| + 1
    ensures Yield(Tree(cs, ls)) == Flat(cs, ls)
    decreases |ls|
  {
    if ls != [] {
      var k := Root(ls);
      FlatSplit(cs, ls, k);
      TreeYield(cs[..k + 1], ls[..k]);
      TreeYield(cs[k + 1..], ls[k + 1..]);
      hide Newlines, Flat;
    }
  }

  lemma {:induction false} OkLower(c: Cst, m: int, n: int)
    requires Ok(ACRIS, c, m) && n <= m
    ensures Ok(ACRIS, c, n)
    decreases c
  {
    hide Edge;
    match c
    case Hollow(_, p) => OkLower(p, m, n);
    case Binary(l, _, _, _) => OkLower(l, m, n);
    case Member(l, _, _) => OkLower(l, m, n);
    case Index(l, _, _) => OkLower(l, m, n);
    case _ =>
  }

  ghost predicate AtLeast(ls: seq<Link>, m: int) {
    forall j :: 0 <= j < |ls| ==> m <= AcrisInfix(ls[j].op).lbp
  }

  lemma {:induction false} TreeOk(cs: seq<Cst>, ls: seq<Link>, m: int)
    requires |cs| == |ls| + 1 && Operands(cs) && AtLeast(ls, m) && m <= AcrisPrefix(Negative).rbp
    ensures Ok(ACRIS, Tree(cs, ls), m)
    decreases |ls|
  {
    hide Edge, Ok, AcrisInfix, AcrisPrefix, Draws, Root;
    if ls == [] {
      OkLower(cs[0], AcrisPrefix(Negative).rbp, m);
    } else {
      var k := Root(ls);
      RightAtLeast(ls);
      TreeOk(cs[..k + 1], ls[..k], m);
      TreeOk(cs[k + 1..], ls[k + 1..], AcrisInfix(ls[k].op).rbp);
      LeftEnds(cs[..k + 1], ls[..k], m, ls[k]);
      OkBinary(Tree(cs[..k + 1], ls[..k]), ls[k], Tree(cs[k + 1..], ls[k + 1..]), m);
    }
  }

  /** The root draws every operator on its right, and no operator on its left draws the root. */
  lemma RightAtLeast(ls: seq<Link>)
    requires ls != []
    ensures var k := Root(ls);
      && AtLeast(ls[k + 1..], AcrisInfix(ls[k].op).rbp) && AcrisInfix(ls[k].op).rbp <= AcrisPrefix(Negative).rbp
      && forall j :: 0 <= j < k ==> !Draws(ls[j].op, ls[k].op)
  {
    var k := Root(ls);
    forall j | k < j < |ls| ensures AcrisInfix(ls[k].op).rbp <= AcrisInfix(ls[j].op).lbp { AcrisDraws(ls[k].op, ls[j].op); }
  }

  lemma OkBinary(l: Cst, link: Link, r: Cst, m: int)
    requires m <= ACRIS.infix(link.op).lbp && Ok(ACRIS, l, m) && Ok(ACRIS, r, ACRIS.infix(link.op).rbp)
    requires Edge(ACRIS, l, LookOp(link.gap, InfixToken(link.op)))
    ensures Ok(ACRIS, Binary(l, link.gap, link.op, r), m)
  {
    hide Edge;
  }

  /** No operator of a left side draws in front of the root. */
  lemma LeftEnds(cs: seq<Cst>, ls: seq<Link>, m: int, link: Link)
    requires |cs| == |ls| + 1 && Operands(cs) && Ok(ACRIS, Tree(cs, ls), m)
    requires forall j :: 0 <= j < |ls| ==> !Draws(ls[j].op, link.op)
    ensures Edge(ACRIS, Tree(cs, ls), LookOp(link.gap, InfixToken(link.op)))
  {
    var look := LookOp(link.gap, InfixToken(link.op));
    InfixTokenInverse(InfixToken(link.op), link.op);
    if ls == [] {
      AcrisStop(cs[0], AcrisPrefix(Negative).rbp, look);
    } else {
      var k := Root(ls);
      var r := Tree(cs[k + 1..], ls[k + 1..]);
      assert Ok(ACRIS, r, ACRIS.infix(ls[k].op).rbp);
      RightOperandEnds(r, ls[k].op, look);
    }
  }

  /** Every chain of operands and infix operators, newlines in front of operators included, is
      read as the tree of the families: split at the last operator of the lowest family, or the
      first if these are comparisons. */
  lemma ChainReading(cs: seq<Cst>, ls: seq<Link>, rest: seq<Token>)
    requires |cs| == |ls| + 1 && Operands(cs) && CannotContinue(rest)
    ensures var r := ParseExpr(ACRIS, Flat(cs, ls) + rest, 0, 0);
      r.Got? && r.end == r.cur == |Flat(cs, ls)| && Erase(r.tree) == Grouped(Erased(cs), ls)
  {
    assert AtLeast(ls, 0);
    TreeOk(cs, ls, 0);
    TreeYield(cs, ls);
    TreeErase(cs, ls);
    hide *;
    ClosedText(Tree(cs, ls), rest);
  }

  // ---- Short texts ------------------------------------------------------------------------

  lemma OneOperator(a: Cst, x: InfixOp, b: Cst, rest: seq<Token>)
    requires IsOperand(a) && IsOperand(b) && CannotContinue(rest)
    ensures var s := Yield(a) + [InfixToken(x)] + Yield(b);
      var r := ParseExpr(ACRIS, s + rest, 0, 0);
      r.Got? && r.cur == |s| && Erase(r.tree) == Infix(x, Erase(a), Erase(b))
  {
    var cs, ls := [a, b], [Link(0, x)];
    assert cs[1..] == [b] && cs[..1] == [a] && ls[1..] == [] && ls[..0] == [];
    assert Flat(cs, ls) == Yield(a) + [InfixToken(x)] + Yield(b);
    assert Erased(cs) == [Erase(a), Erase(b)];
    assert Erased(cs)[..1] == [Erase(a)] && Erased(cs)[1..] == [Erase(b)];
    hide ParseExpr, Ok, Yield, Erase;
    ChainReading(cs, ls, rest);
  }

  lemma TwoOperators(a: Cst, x: InfixOp, b: Cst, y: InfixOp, c: Cst, rest: seq<Token>)
    requires IsOperand(a) && IsOperand(b) && IsOperand(c) && CannotContinue(rest)
    ensures var s := Yield(a) + [InfixToken(x)] + (Yield(b) + [InfixToken(y)] + Yield(c));
      var r := ParseExpr(ACRIS, s + rest, 0, 0);
      r.Got? && r.cur == |s| && Erase(r.tree) ==
        if Draws(x, y) then Infix(x, Erase(a), Infix(y, Erase(b), Erase(c))) else Infix(y, Infix(x, Erase(a), Erase(b)), Erase(c))
  {
    var cs, ls := [a, b, c], [Link(0, x), Link(0, y)];
    TwoFlat(cs, ls);
    TwoGrouped(Erased(cs), ls);
    hide ParseExpr, Ok, Yield, Erase, Flat, Grouped, Draws;
    ChainReading(cs, ls, rest);
  }

  lemma TwoFlat(cs: seq<Cst>, ls: seq<Link>)
    requires |cs| == 3 && |ls| == 2 && ls[0].gap == ls[1].gap == 0
    ensures Flat(cs, ls) == Yield(cs[0]) + [InfixToken(ls[0].op)] + (Yield(cs[1]) + [InfixToken(ls[1].op)] + Yield(cs[2]))
  {
    hide Yield;
    assert Flat(cs[1..][1..], ls[1..][1..]) == Yield(cs[2]);
    assert Newlines(0) == [];
    assert Flat(cs[1..], ls[1..]) == Yield(cs[1]) + [InfixToken(ls[1].op)] + Yield(cs[2]);
  }

  lemma TwoGrouped(es: seq<Expr>, ls: seq<Link>)
    requires |es| == 3 && |ls| == 2
    ensures Grouped(es, ls) ==
      if Draws(ls[0].op, ls[1].op) then Infix(ls[0].op, es[0], Infix(ls[1].op, es[1], es[2]))
      else Infix(ls[1].op, Infix(ls[0].op, es[0], es[1]), es[2])
  {
    assert ls[..1] == [ls[0]];
    assert Root(ls) == if Draws(ls[0].op, ls[1].op) then 0 else 1;
    OneGrouped(es[..2], ls[..1]);
    OneGrouped(es[1..], ls[1..]);
    hide Draws, Root;
  }

  lemma OneGrouped(es: seq<Expr>, ls: seq<Link>)
    requires |es| == 2 && |ls| == 1
    ensures Grouped(es, ls) == Infix(ls[0].op, es[0], es[1])
  {}

  /** `a x b y c` is read as `a x (b y c)` exactly when `y` stands in a higher family than `x`, or
      both are comparisons; otherwise as `(a x b) y c`. */
  lemma PairReading(a: string, x: InfixOp, b: string, y: InfixOp, c: string, rest: seq<Token>)
    requires CannotContinue(rest)
    ensures var s := [Name(a), InfixToken(x), Name(b), InfixToken(y), Name(c)];
      var r := ParseExpr(ACRIS, s + rest, 0, 0);
      && r.Got? && r.cur == |s|
      && (Erase(r.tree) == Infix(x, Identifier(a), Infix(y, Identifier(b), Identifier(c))) <==>
            Tier(x) < Tier(y) || (IsComparison(x) && IsComparison(y)))
      && (Erase(r.tree) == Infix(y, Infix(x, Identifier(a), Identifier(b)), Identifier(c)) <==>
            !(Tier(x) < Tier(y) || (IsComparison(x) && IsComparison(y))))
  {
    var s := [Name(a), InfixToken(x), Name(b), InfixToken(y), Name(c)];
    assert s == Yield(Ref(a)) + [InfixToken(x)] + (Yield(Ref(b)) + [InfixToken(y)] + Yield(Ref(c)));
    Different(Identifier(a), x, Identifier(b), y, Identifier(c));
    assert IsOperand(Ref(a)) && IsOperand(Ref(b)) && IsOperand(Ref(c));
    hide ParseExpr, Ok, Yield, InfixToken, IsOperand;
    TwoOperators(Ref(a), x, Ref(b), y, Ref(c), rest);
  }

  lemma Different(a: Expr, x: InfixOp, b: Expr, y: InfixOp, c: Expr)
    requires a.Identifier?
    ensures Infix(x, a, Infix(y, b, c)) != Infix(y, Infix(x, a, b), c)
  {}

  /** A prefix operator binds tighter than every infix operator, and a dot or a bracket tighter
      than either: `p a.b x q c[i]` is read as `(p (a.b)) x (q (c[i]))`. */
  lemma SignReading(p: PrefixOp, a: string, b: string, x: InfixOp, q: PrefixOp, c: string, i: string, rest: seq<Token>)
    requires CannotContinue(rest)
    ensures var s := [PrefixToken(p), Name(a), Dot, Name(b), InfixToken(x), PrefixToken(q), Name(c), BracketOpen, Name(i), BracketClose];
      var r := ParseExpr(ACRIS, s + rest, 0, 0);
      r.Got? && r.cur == |s| && Erase(r.tree) ==
        Infix(x, Prefix(p, MemberAccess(Identifier(a), Identifier(b))), Prefix(q, Subscript(Identifier(c), Identifier(i))))
  {
    var s := [PrefixToken(p), Name(a), Dot, Name(b), InfixToken(x), PrefixToken(q), Name(c), BracketOpen, Name(i), BracketClose];
    SignedMember(p, a, b);
    SignedIndex(q, c, i);
    var l, r := Unary(p, Member(Ref(a), 0, Ref(b))), Unary(q, Index(Ref(c), 0, Ref(i)));
    assert s == Yield(l) + [InfixToken(x)] + Yield(r);
    hide ParseExpr, Ok, Yield, Erase, InfixToken, PrefixToken, IsOperand;
    OneOperator(l, x, r, rest);
  }

  lemma SignedMember(p: PrefixOp, a: string, b: string)
    ensures var c := Unary(p, Member(Ref(a), 0, Ref(b)));
      && IsOperand(c) && Yield(c) == [PrefixToken(p), Name(a), Dot, Name(b)]
      && Erase(c) == Prefix(p, MemberAccess(Identifier(a), Identifier(b)))
  {
    var e := Member(Ref(a), 0, Ref(b));
    assert Ok(ACRIS, Ref(a), ACRIS.prefix(p).rbp) && Edge(ACRIS, Ref(a), LookOp(0, Dot));
    assert Ok(ACRIS, e, ACRIS.prefix(p).rbp);
    assert Newlines(0) == [];
    assert Yield(e) == [Name(a), Dot, Name(b)];
    assert Erase(e) == MemberAccess(Identifier(a), Identifier(b));
  }

  lemma SignedIndex(p: PrefixOp, a: string, i: string)
    ensures var c := Unary(p, Index(Ref(a), 0, Ref(i)));
      && IsOperand(c) && Yield(c) == [PrefixToken(p), Name(a), BracketOpen, Name(i), BracketClose]
      && Erase(c) == Prefix(p, Subscript(Identifier(a), Identifier(i)))
  {
    var e := Index(Ref(a), 0, Ref(i));
    assert Ok(ACRIS, Ref(a), ACRIS.prefix(p).rbp) && Edge(ACRIS, Ref(a), LookOp(0, BracketOpen));
    assert Ok(ACRIS, e, ACRIS.prefix(p).rbp);
    assert Newlines(0) == [];
    assert Yield(e) == [Name(a), BracketOpen, Name(i), BracketClose];
    assert Erase(e) == Subscript(Identifier(a), Identifier(i));
  }

  /** Behind a dot another dot or a bracket is drawn into the member: `a.b.c[i]` is read as
      `a.(b.(c[i]))`. */
  lemma DotReading(a: string, b: string, c: string, i: string, rest: seq<Token>)
    requires CannotContinue(rest)
    ensures var s := [Name(a), Dot, Name(b), Dot, Name(c), BracketOpen, Name(i), BracketClose];
      var r := ParseExpr(ACRIS, s + rest, 0, 0);
      r.Got? && r.cur == |s| && Erase(r.tree) ==
        MemberAccess(Identifier(a), MemberAccess(Identifier(b), Subscript(Identifier(c), Identifier(i))))
  {
    var s := [Name(a), Dot, Name(b), Dot, Name(c), BracketOpen, Name(i), BracketClose];
    var x := Index(Ref(c), 0, Ref(i));
    var y := Member(Ref(b), 0, x);
    var z := Member(Ref(a), 0, y);
    DotsOk(a, b, c, i);
    assert Newlines(0) == [];
    assert Yield(x) == [Name(c), BracketOpen, Name(i), BracketClose];
    assert Yield(y) == [Name(b), Dot] + Yield(x);
    assert Yield(z) == [Name(a), Dot] + Yield(y);
    assert s == Yield(z);
    assert Erase(x) == Subscript(Identifier(c), Identifier(i));
    assert Erase(y) == MemberAccess(Identifier(b), Erase(x));
    assert Erase(z) == MemberAccess(Identifier(a), Erase(y));
    hide ParseExpr, Ok, Yield, Erase;
    ClosedText(z, rest);
  }

  lemma DotsOk(a: string, b: string, c: string, i: string)
    ensures Ok(ACRIS, Member(Ref(a), 0, Member(Ref(b), 0, Index(Ref(c), 0, Ref(i)))), 0)
  {
    assert Edge(ACRIS, Ref(c), LookOp(0, BracketOpen)) && Edge(ACRIS, Ref(a), LookOp(0, Dot)) && Edge(ACRIS, Ref(b), LookOp(0, Dot));
    assert Ok(ACRIS, Index(Ref(c), 0, Ref(i)), 109);
    assert Ok(ACRIS, Member(Ref(b), 0, Index(Ref(c), 0, Ref(i))), 109);
  }

  /** Inside brackets nothing but a bracket binds tightly enough: `a[b x c]` and `a[b.c]` are no
      expressions. */
  lemma NoSumInBrackets(a: string, b: string, t: Token, c: string, rest: seq<Token>)
    requires InfixOpOf(t).Some? || t == Dot
    ensures ParseExpr(ACRIS, [Name(a), BracketOpen, Name(b), t, Name(c), BracketClose] + rest, 0, 0).Err?
  {
    var s := [Name(a), BracketOpen, Name(b), t, Name(c), BracketClose] + rest;
    BareName(s, 2, b, ACRIS.bracket.rbp);
    assert ParsePrefix(ACRIS, s, 0) == Got(Ref(a), 1, 1);
    assert Skip(s, 1) == 1;
    assert ParsePostfix(ACRIS, s, Ref(a), 1, 1, 0) == Failed(SyntaxError);
  }

  /** In front of an operator that is too weak a name is read alone. */
  lemma BareName(s: seq<Token>, p: nat, x: string, m: int)
    requires p + 1 < |s| && s[p] == Name(x) && (InfixOpOf(s[p + 1]).Some? || s[p + 1] == Dot) && m == ACRIS.bracket.rbp
    ensures ParseExpr(ACRIS, s, p, m) == Got(Ref(x), p + 1, p + 1)
  {
    assert ParsePrefix(ACRIS, s, p) == Got(Ref(x), p + 1, p + 1);
    assert Skip(s, p + 1) == p + 1;
    assert ParsePostfix(ACRIS, s, Ref(x), p + 1, p + 1, m) == Declined(p + 1);
    assert LoopInfix(ACRIS, s, Ref(x), p + 1, p + 1, m) == Got(Ref(x), p + 1, p + 1);
  }

  // ---- What the signs mean ----------------------------------------------------------------

  /** The value of two numbers with a sign between them. */
  function SignValue(t: Token, x: int, y: int): Option<Meaning.Value> {
    match t
    case Plus => Some(Meaning.IntV(Words.Wrap32(x + y)))
    case Minus => Some(Meaning.IntV(Words.Wrap32(x - y)))
    case Asterisk => Some(Meaning.IntV(Words.Wrap32(x * y)))
    case Slash => if y == 0 then None else Some(Meaning.IntV(Words.Wrap32(Meaning.TruncDiv(x, y))))
    case PercentSign => if y == 0 then None else Some(Meaning.IntV(Meaning.TruncMod(x, y)))
    case Less => Some(Meaning.BoolV(x < y))
    case LessEq => Some(Meaning.BoolV(x <= y))
    case Greater => Some(Meaning.BoolV(x > y))
    case GreaterEq => Some(Meaning.BoolV(x >= y))
    case EqEq => Some(Meaning.BoolV(x == y))
    case NotEq => Some(Meaning.BoolV(x != y))
    case _ => None
  }

  /** Between two numbers, every arithmetic sign and every comparison is read as the operator with
      its meaning, and a minus in front of the first one negates it before. */
  lemma SignMeaning(read: Meaning.Reading, x: nat, t: Token, y: nat, rest: seq<Token>)
    requires CannotContinue(rest) && InfixOpOf(t).Some? && t != AndSign && t != OrSign
    ensures var s := [Lit(IntLit(x)), t, Lit(IntLit(y))];
      var r := ParseExpr(ACRIS, s + rest, 0, 0);
      r.Got? && r.cur == |s| && Meaning.Simple(Erase(r.tree))
      && Meaning.Eval(read, map[], Erase(r.tree)) == SignValue(t, read(x), read(y))
    ensures var s := [Minus, Lit(IntLit(x)), t, Lit(IntLit(y))];
      var r := ParseExpr(ACRIS, s + rest, 0, 0);
      r.Got? && r.cur == |s| && Meaning.Simple(Erase(r.tree))
      && Meaning.Eval(read, map[], Erase(r.tree)) == SignValue(t, Words.Wrap32(-read(x)), read(y))
  {
    var op := InfixOpOf(t).value;
    InfixTokenInverse(t, op);
    var a, b := Leaf(IntLit(x)), Leaf(IntLit(y));
    var n := Unary(Negative, a);
    assert IsOperand(a) && IsOperand(b) && IsOperand(n);
    assert [Lit(IntLit(x)), t, Lit(IntLit(y))] == Yield(a) + [t] + Yield(b);
    assert [Minus, Lit(IntLit(x)), t, Lit(IntLit(y))] == Yield(n) + [t] + Yield(b);
    SignEval(read, Literal(IntLit(x)), read(x), t, y);
    SignEval(read, Prefix(Negative, Literal(IntLit(x))), Words.Wrap32(-read(x)), t, y);
    assert Erase(a) == Literal(IntLit(x)) && Erase(b) == Literal(IntLit(y)) && Erase(n) == Prefix(Negative, Literal(IntLit(x)));
    hide *;
    OneOperator(a, op, b, rest);
    OneOperator(n, op, b, rest);
  }

  lemma SignEval(read: Meaning.Reading, e: Expr, x: int, t: Token, y: nat)
    requires InfixOpOf(t).Some? && t != AndSign && t != OrSign
    requires Meaning.Simple(e) && Meaning.Eval(read, map[], e) == Some(Meaning.IntV(x))
    ensures var tree := Infix(InfixOpOf(t).value, e, Literal(IntLit(y)));
      Meaning.Simple(tree) && Meaning.Eval(read, map[], tree) == SignValue(t, x, read(y))
  {
    hide Words.Wrap32, Meaning.TruncDiv, Meaning.TruncMod;
  }
}
