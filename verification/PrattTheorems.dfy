/** What the parser accepts, stated over token sequences: it decides the precedence grammar
    exactly, for every binding table; the grammar is unambiguous; only parentheses, newlines
    and commas are lost between the tokens and the abstract tree. */
module PrattTheorems {
  import opened Ast
  import opened Tokens
  import opened Binding
  import opened PrattGrammar
  import opened PrattSpec
  import opened PrattSound
  import opened PrattComplete

  // ---- Spelling and yield agree ---------------------------------------------------------

  lemma {:induction false} YieldWidth(c: Cst)
    ensures |Yield(c)| == Width(c)
    decreases c
  {
    match c
    case Leaf(_) =>
    case Ref(_) =>
    case Group(i) => YieldWidth(i);
    case Hollow(_, e) => YieldWidth(e);
    case Array(es) => ItemsWidth(es);
    case Call(_, es) => ItemsWidth(es);
    case Unary(_, e) => YieldWidth(e);
    case Binary(l, _, _, r) => YieldWidth(l); YieldWidth(r);
    case Member(l, _, r) => YieldWidth(l); YieldWidth(r);
    case Index(l, _, i) => YieldWidth(l); YieldWidth(i);
  }

  lemma {:induction false} ItemsWidth(es: Items)
    ensures |YieldItems(es)| == WidthItems(es)
    decreases es
  {
    match es
    case Absent(_, t) => TailWidth(t);
    case Present(h, t) => YieldWidth(h); TailWidth(t);
  }

  lemma {:induction false} TailWidth(t: Tail)
    ensures |YieldTail(t)| == WidthTail(t)
    decreases t
  {
    if t.More? {
      YieldWidth(t.head);
      TailWidth(t.tail);
    }
  }

  /** `y` stands at position `p`. */
  ghost predicate At(s: seq<Token>, p: nat, y: seq<Token>) {
    p + |y| <= |s| && forall i :: 0 <= i < |y| ==> s[p + i] == y[i]
  }

  lemma AtCat(s: seq<Token>, p: nat, x: seq<Token>, y: seq<Token>)
    ensures At(s, p, x + y) <==> At(s, p, x) && At(s, p + |x|, y)
  {
    if At(s, p, x + y) {
      forall i | 0 <= i < |x| ensures s[p + i] == x[i] { assert (x + y)[i] == x[i]; }
      forall i | 0 <= i < |y| ensures s[p + |x| + i] == y[i] {
        assert (x + y)[|x| + i] == y[i];
        assert s[p + (|x| + i)] == (x + y)[|x| + i];
      }
    }
    if At(s, p, x) && At(s, p + |x|, y) {
      forall i | 0 <= i < |x + y| ensures s[p + i] == (x + y)[i] {
        if i >= |x| {
          assert s[p + |x| + (i - |x|)] == y[i - |x|];
        }
      }
    }
  }

  lemma AtOne(s: seq<Token>, p: nat, t: Token)
    ensures At(s, p, [t]) <==> TokenAt(s, p, t)
  {
    if At(s, p, [t]) { assert s[p + 0] == [t][0]; }
  }

  lemma AtNewlines(s: seq<Token>, p: nat, n: nat)
    ensures At(s, p, Newlines(n)) <==> NewlinesAt(s, p, n)
  {
    if At(s, p, Newlines(n)) {
      forall i | p <= i < p + n ensures s[i] == Newline { assert s[p + (i - p)] == Newlines(n)[i - p]; }
    }
  }

  lemma AtHollow(s: seq<Token>, p: nat, k: nat)
    ensures At(s, p, HollowParens(k)) <==> HollowAt(s, p, k)
  {
    var y := HollowParens(k);
    if At(s, p, y) {
      forall i | p <= i < p + 2 * k
        ensures s[i] == if i < p + k then ParenOpen else ParenClose
      {
        assert s[p + (i - p)] == y[i - p];
      }
    }
    if HollowAt(s, p, k) {
      forall i | 0 <= i < |y| ensures s[p + i] == y[i] { }
    }
  }

  lemma {:induction false} SpellsYield(s: seq<Token>, p: nat, c: Cst)
    ensures Spells(s, p, c) <==> At(s, p, Yield(c))
    decreases c
  {
    hide At, TokenAt, NewlinesAt, HollowAt, SpellsItems, YieldItems, WidthItems;
    YieldWidth(c);
    match c
    case Leaf(lit) => AtOne(s, p, Lit(lit));
    case Ref(id) => AtOne(s, p, Name(id));
    case Group(inner) =>
      YieldWidth(inner);
      AtOne(s, p, ParenOpen);
      SpellsYield(s, p + 1, inner);
      AtOne(s, p + 1 + Width(inner), ParenClose);
      AtCat(s, p, [ParenOpen], Yield(inner));
      AtCat(s, p, [ParenOpen] + Yield(inner), [ParenClose]);
    case Hollow(k, e) =>
      AtHollow(s, p, k);
      SpellsYield(s, p + 2 * k, e);
      AtCat(s, p, HollowParens(k), Yield(e));
    case Array(es) =>
      ItemsWidth(es);
      AtOne(s, p, BracketOpen);
      SpellsYieldItems(s, p + 1, es);
      AtOne(s, p + 1 + WidthItems(es), BracketClose);
      AtCat(s, p, [BracketOpen], YieldItems(es));
      AtCat(s, p, [BracketOpen] + YieldItems(es), [BracketClose]);
    case Call(f, es) =>
      ItemsWidth(es);
      AtOne(s, p, Name(f));
      AtOne(s, p + 1, ParenOpen);
      SpellsYieldItems(s, p + 2, es);
      AtOne(s, p + 2 + WidthItems(es), ParenClose);
      assert [Name(f), ParenOpen] == [Name(f)] + [ParenOpen];
      AtCat(s, p, [Name(f)], [ParenOpen]);
      AtCat(s, p, [Name(f), ParenOpen], YieldItems(es));
      AtCat(s, p, [Name(f), ParenOpen] + YieldItems(es), [ParenClose]);
    case Unary(op, e) =>
      AtOne(s, p, PrefixToken(op));
      SpellsYield(s, p + 1, e);
      AtCat(s, p, [PrefixToken(op)], Yield(e));
    case Binary(_, _, _, _) => SpellsOperation(s, p, c);
    case Member(_, _, _) => SpellsOperation(s, p, c);
    case Index(_, _, _) => SpellsOperation(s, p, c);
  }

  lemma {:induction false} SpellsOperation(s: seq<Token>, p: nat, c: Cst)
    requires c.Binary? || c.Member? || c.Index?
    ensures Spells(s, p, c) <==> At(s, p, Yield(c))
    decreases c, 0
  {
    hide At, TokenAt, NewlinesAt, HollowAt, SpellsItems, YieldItems, WidthItems, Newlines;
    match c
    case Binary(l, g, op, r) =>
      SpellsYield(s, p, l);
      SpellsYield(s, p + Width(l) + g + 1, r);
      AtOperation(s, p, l, g, InfixToken(op), Yield(r));
    case Member(l, g, r) =>
      SpellsYield(s, p, l);
      SpellsYield(s, p + Width(l) + g + 1, r);
      AtOperation(s, p, l, g, Dot, Yield(r));
    case Index(l, g, i) =>
      YieldWidth(i);
      SpellsYield(s, p, l);
      SpellsYield(s, p + Width(l) + g + 1, i);
      AtOne(s, p + Width(l) + g + 1 + Width(i), BracketClose);
      AtCat(s, p + Width(l) + g + 1, Yield(i), [BracketClose]);
      AtOperation(s, p, l, g, BracketOpen, Yield(i) + [BracketClose]);
      assert Yield(c) == Yield(l) + Newlines(g) + [BracketOpen] + (Yield(i) + [BracketClose]);
  }

  lemma AtOperation(s: seq<Token>, p: nat, l: Cst, g: nat, t: Token, y: seq<Token>)
    ensures At(s, p, Yield(l) + Newlines(g) + [t] + y) <==>
      var q := p + Width(l);
      At(s, p, Yield(l)) && NewlinesAt(s, q, g) && TokenAt(s, q + g, t) && At(s, q + g + 1, y)
  {
    hide At, TokenAt, NewlinesAt;
    YieldWidth(l);
    AtNewlines(s, p + Width(l), g);
    AtOne(s, p + Width(l) + g, t);
    AtCat(s, p, Yield(l), Newlines(g));
    AtCat(s, p, Yield(l) + Newlines(g), [t]);
    AtCat(s, p, Yield(l) + Newlines(g) + [t], y);
  }

  lemma {:induction false} SpellsYieldItems(s: seq<Token>, p: nat, es: Items)
    ensures SpellsItems(s, p, es) <==> At(s, p, YieldItems(es))
    decreases es
  {
    hide TokenAt, NewlinesAt, HollowAt;
    match es
    case Absent(k, t) =>
      AtHollow(s, p, k);
      SpellsYieldTail(s, p + 2 * k, t);
      AtCat(s, p, HollowParens(k), YieldTail(t));
    case Present(h, t) =>
      YieldWidth(h);
      SpellsYield(s, p, h);
      SpellsYieldTail(s, p + Width(h), t);
      AtCat(s, p, Yield(h), YieldTail(t));
  }

  lemma {:induction false} SpellsYieldTail(s: seq<Token>, p: nat, t: Tail)
    ensures SpellsTail(s, p, t) <==> At(s, p, YieldTail(t))
    decreases t
  {
    hide Spells, Yield, Width;
    match t
    case End =>
    case More(g, h, rest) =>
      hide At, NewlinesAt, TokenAt;
      SpellsYield(s, p + 1 + g, h);
      SpellsYieldTail(s, p + 1 + g + Width(h), rest);
      AtMore(s, p, g, h, YieldTail(rest));
  }

  lemma AtMore(s: seq<Token>, p: nat, g: nat, h: Cst, y: seq<Token>)
    ensures At(s, p, [Comma] + Newlines(g) + Yield(h) + y) <==>
      TokenAt(s, p, Comma) && NewlinesAt(s, p + 1, g)
      && At(s, p + 1 + g, Yield(h)) && At(s, p + 1 + g + Width(h), y)
  {
    hide At, TokenAt, NewlinesAt;
    YieldWidth(h);
    AtOne(s, p, Comma);
    AtNewlines(s, p + 1, g);
    AtCat(s, p, [Comma], Newlines(g));
    AtCat(s, p, [Comma] + Newlines(g), Yield(h));
    AtCat(s, p, [Comma] + Newlines(g) + Yield(h), y);
  }

  /** `c` is spelled from `p` on exactly when the next `|Yield(c)|` tokens are its yield. */
  lemma SpellsSlice(s: seq<Token>, p: nat, c: Cst)
    ensures |Yield(c)| == Width(c)
    ensures Spells(s, p, c) <==> p + |Yield(c)| <= |s| && s[p..p + |Yield(c)|] == Yield(c)
  {
    YieldWidth(c);
    SpellsYield(s, p, c);
  }

  // ---- The parser decides the grammar ---------------------------------------------------

  /** `c` is in the grammar at power `m`, its yield stands at `p..end`, and nothing that
      follows can be drawn into it. */
  ghost predicate InGrammar(tab: BindingTable, s: seq<Token>, p: nat, m: int, c: Cst, end: nat) {
    && p <= end <= |s| && s[p..end] == Yield(c)
    && Ok(tab, c, m) && Stop(tab, c, m, LookAt(s, end))
  }

  lemma ParserDecidesGrammar(tab: BindingTable, s: seq<Token>, p: nat, m: int, c: Cst, end: nat)
    requires p <= |s|
    ensures InGrammar(tab, s, p, m, c, end) <==>
      var r := ParseExpr(tab, s, p, m); r.Got? && r.tree == c && r.end == end
  {
    hide Ok, Stop, Spells, Yield;
    SpellsSlice(s, p, c);
    if InGrammar(tab, s, p, m, c, end) {
      assert end == p + Width(c);
      var _ := Complete(tab, s, p, c, m);
    }
    if ParseExpr(tab, s, p, m).Got? {
      SoundExpr(tab, s, p, m);
    }
  }

  /** The cursor stops right behind the tree, or, past newlines, at an operator it rejected. */
  lemma CursorBehindTree(tab: BindingTable, s: seq<Token>, p: nat, m: int)
    requires p <= |s| && ParseExpr(tab, s, p, m).Got?
    ensures var r := ParseExpr(tab, s, p, m);
      && p < r.end <= r.cur <= |s|
      && (forall i :: r.end <= i < r.cur ==> s[i] == Newline)
      && (r.end < r.cur ==> r.cur < |s| && IsOperator(s[r.cur]))
  {
    hide Ok, Stop, Spells;
    SoundExpr(tab, s, p, m);
  }

  /** Two trees of the grammar with the same tokens are the same tree, layout included. */
  lemma Unambiguous(tab: BindingTable, m: int, c1: Cst, c2: Cst)
    requires Ok(tab, c1, m) && Ok(tab, c2, m) && Yield(c1) == Yield(c2)
    ensures c1 == c2
  {
    hide Ok, Spells, Yield;
    var s := Yield(c1) + [ParenClose];
    SpellsSlice(s, 0, c1);
    SpellsSlice(s, 0, c2);
    CompleteClosed(tab, s, 0, c1, m);
    CompleteClosed(tab, s, 0, c2, m);
  }

  // ---- Token conservation ---------------------------------------------------------------

  predicate IsLayout(t: Token) {
    t == ParenOpen || t == ParenClose || t == Newline || t == Comma
  }

  /** The tokens that are not parentheses, newlines or commas, in order. */
  function Strip(s: seq<Token>): seq<Token> {
    if s == [] then [] else (if IsLayout(s[0]) then [] else [s[0]]) + Strip(s[1..])
  }

  /** The in-order tokens of an abstract tree. */
  function InOrder(e: Expr): seq<Token> {
    match e
    case Literal(lit) => [Lit(lit)]
    case ArrayExpr(es) => [BracketOpen] + InOrderAll(es) + [BracketClose]
    case Identifier(id) => [Name(id)]
    case FunctionCall(f, args) => [Name(f)] + InOrderAll(args)
    case Prefix(op, x) => [PrefixToken(op)] + InOrder(x)
    case Infix(op, l, r) => InOrder(l) + [InfixToken(op)] + InOrder(r)
    case MemberAccess(l, r) => InOrder(l) + [Dot] + InOrder(r)
    case Subscript(l, i) => InOrder(l) + [BracketOpen] + InOrder(i) + [BracketClose]
  }

  function InOrderAll(es: seq<Expr>): seq<Token> {
    if es == [] then [] else InOrder(es[0]) + InOrderAll(es[1..])
  }

  lemma {:induction false} StripCat(x: seq<Token>, y: seq<Token>)
    ensures Strip(x + y) == Strip(x) + Strip(y)
  {
    if x == [] {
      assert x + y == y;
    } else {
      var h := if IsLayout(x[0]) then [] else [x[0]];
      assert (x + y)[0] == x[0] && (x + y)[1..] == x[1..] + y;
      assert Strip(x + y) == h + Strip(x[1..] + y) && Strip(x) == h + Strip(x[1..]);
      hide Strip, IsLayout;
      StripCat(x[1..], y);
      assert h + (Strip(x[1..]) + Strip(y)) == h + Strip(x[1..]) + Strip(y);
    }
  }

  lemma {:induction false} StripLayout(x: seq<Token>)
    requires forall i :: 0 <= i < |x| ==> IsLayout(x[i])
    ensures Strip(x) == []
  {
    if x != [] { StripLayout(x[1..]); }
  }

  lemma StripOne(t: Token)
    ensures Strip([t]) == if IsLayout(t) then [] else [t]
  {
    assert [t][1..] == [];
  }

  lemma StripOperation(x: seq<Token>, g: nat, t: Token, y: seq<Token>)
    requires !IsLayout(t)
    ensures Strip(x + Newlines(g) + [t] + y) == Strip(x) + [t] + Strip(y)
  {
    StripLayout(Newlines(g));
    StripOne(t);
    hide Strip, Newlines;
    StripCat(x, Newlines(g));
    StripCat(x + Newlines(g), [t]);
    StripCat(x + Newlines(g) + [t], y);
  }

  lemma StripAround(t: Token, x: seq<Token>, u: Token)
    ensures Strip([t] + x + [u]) == Strip([t]) + Strip(x) + Strip([u])
  {
    StripCat([t], x);
    StripCat([t] + x, [u]);
  }

  /** Between the tokens of a tree of the grammar and its abstract tree only parentheses,
      newlines and commas are lost, and the order is kept. */
  lemma {:induction false} TokensConserved(c: Cst)
    ensures Strip(Yield(c)) == InOrder(Erase(c))
    decreases c
  {
    hide Strip, InOrderAll, YieldItems, EraseItems;
    match c
    case Leaf(lit) => StripOne(Lit(lit));
    case Ref(id) => StripOne(Name(id));
    case Group(inner) =>
      TokensConserved(inner);
      StripAround(ParenOpen, Yield(inner), ParenClose);
      StripOne(ParenOpen);
      StripOne(ParenClose);
    case Hollow(k, e) =>
      TokensConserved(e);
      StripCat(HollowParens(k), Yield(e));
      StripLayout(HollowParens(k));
    case Array(es) =>
      ItemsConserved(es);
      StripAround(BracketOpen, YieldItems(es), BracketClose);
      StripOne(BracketOpen);
      StripOne(BracketClose);
    case Call(f, es) =>
      ItemsConserved(es);
      StripCall(f, YieldItems(es));
    case Unary(op, e) =>
      TokensConserved(e);
      StripCat([PrefixToken(op)], Yield(e));
      StripOne(PrefixToken(op));
    case Binary(_, _, _, _) => OperationConserved(c);
    case Member(_, _, _) => OperationConserved(c);
    case Index(_, _, _) => OperationConserved(c);
  }

  lemma {:induction false} OperationConserved(c: Cst)
    requires c.Binary? || c.Member? || c.Index?
    ensures Strip(Yield(c)) == InOrder(Erase(c))
    decreases c, 0
  {
    hide Strip, InOrderAll, YieldItems, EraseItems, Newlines;
    match c
    case Binary(l, g, op, r) =>
      TokensConserved(l);
      TokensConserved(r);
      StripOperation(Yield(l), g, InfixToken(op), Yield(r));
    case Member(l, g, r) =>
      TokensConserved(l);
      TokensConserved(r);
      StripOperation(Yield(l), g, Dot, Yield(r));
    case Index(l, g, i) =>
      TokensConserved(l);
      TokensConserved(i);
      StripOperation(Yield(l), g, BracketOpen, Yield(i));
      StripCat(Yield(l) + Newlines(g) + [BracketOpen] + Yield(i), [BracketClose]);
      StripOne(BracketClose);
  }

  lemma StripCall(f: string, x: seq<Token>)
    ensures Strip([Name(f), ParenOpen] + x + [ParenClose]) == [Name(f)] + Strip(x)
  {
    hide Strip;
    StripOne(Name(f));
    StripOne(ParenOpen);
    StripOne(ParenClose);
    StripCat([Name(f)], [ParenOpen]);
    assert [Name(f), ParenOpen] == [Name(f)] + [ParenOpen];
    StripCat([Name(f), ParenOpen], x);
    StripCat([Name(f), ParenOpen] + x, [ParenClose]);
  }

  lemma {:induction false} ItemsConserved(es: Items)
    ensures Strip(YieldItems(es)) == InOrderAll(EraseItems(es))
    decreases es
  {
    hide Strip;
    match es
    case Absent(k, t) =>
      TailConserved(t);
      StripCat(HollowParens(k), YieldTail(t));
      StripLayout(HollowParens(k));
    case Present(h, t) =>
      TokensConserved(h);
      TailConserved(t);
      StripCat(Yield(h), YieldTail(t));
  }

  lemma {:induction false} TailConserved(t: Tail)
    ensures Strip(YieldTail(t)) == InOrderAll(EraseTail(t))
    decreases t
  {
    if t.More? {
      TokensConserved(t.head);
      TailConserved(t.tail);
      StripMore(t.gap, Yield(t.head), YieldTail(t.tail));
    }
  }

  lemma StripMore(g: nat, x: seq<Token>, y: seq<Token>)
    ensures Strip([Comma] + Newlines(g) + x + y) == Strip(x) + Strip(y)
  {
    hide Strip;
    StripLayout([Comma] + Newlines(g));
    StripCat([Comma] + Newlines(g), x);
    StripCat([Comma] + Newlines(g) + x, y);
  }

  /** Every successful parse consumes the in-order tokens of the tree it returns, and
      besides them only parentheses, newlines and commas. */
  lemma ParseConservesTokens(tab: BindingTable, s: seq<Token>, p: nat, m: int)
    requires p <= |s| && ParseExpr(tab, s, p, m).Got?
    ensures var r := ParseExpr(tab, s, p, m);
      p < r.end <= |s| && Strip(s[p..r.end]) == InOrder(Erase(r.tree))
  {
    hide Ok, Stop, Spells, Yield, Strip, InOrder;
    var r := ParseExpr(tab, s, p, m);
    SoundExpr(tab, s, p, m);
    SpellsSlice(s, p, r.tree);
    TokensConserved(r.tree);
  }
}
