/** The expression parser as it is written: an object that moves a shared cursor over the
    token stream. Every method is proved to compute the functions of PrattSpec. */
module PrattParser {
  import opened Ast
  import opened Tokens
  import opened Binding
  import opened PrattGrammar
  import opened PrattSpec

  /** The result of a method that may throw. */
  datatype Try<+T> = Value(value: T) | Throw(error: Error) {
    predicate IsFailure() { Throw? }

    function PropagateFailure<U>(): Try<U>
      requires Throw?
    {
      Throw(error)
    }

    function Extract(): T
      requires Value?
    {
      value
    }
  }

  type NodePtr = Option<Expr>

  /** A node pointer and a cursor agree with an outcome of the specification. */
  ghost predicate Agrees(o: Outcome, r: Try<NodePtr>, cur: nat) {
    match o
    case Err(e) => r == Throw(e)
    case Nothing(q) => r == Value(None) && cur == q
    case Got(c, _, q) => r == Value(Some(Erase(c))) && cur == q
  }

  ghost predicate AgreesItems(o: ItemsOutcome, r: Try<seq<Expr>>, cur: nat) {
    match o
    case ItemsErr(e) => r == Throw(e)
    case GotItems(es, q) => r == Value(EraseItems(es)) && cur == q
  }

  const ARITHMETIC: set<InfixOp> := {Multiply, Divide, Modulo, Add, Subtract}
  const LOGICAL: set<InfixOp> := {And, Or}
  const COMPARISON: set<InfixOp> := {LessThan, LessThanEqual, Equal, NotEqual, GreaterThan, GreaterThanEqual}

  lemma OneGroup(op: InfixOp)
    ensures op in ARITHMETIC || op in LOGICAL || op in COMPARISON
    ensures ARITHMETIC !! LOGICAL !! COMPARISON
  {
  }

  /** One element of the tail of a list. */
  lemma TailStep(tab: BindingTable, s: seq<Token>, p: nat)
    requires p <= |s|
    ensures var r := ParseTail(tab, s, p);
      if p == |s| || s[p] != Comma then r == GotTail(End, p)
      else
        var q := Skip(s, p + 1);
        var h := ParseExpr(tab, s, q, 0);
        if h.Err? then r == TailErr(h.error)
        else if h.Nothing? then r == TailErr(SyntaxError)
        else
          var t := ParseTail(tab, s, h.cur);
          r == if t.GotTail? then GotTail(More(q - (p + 1), h.tree, t.tail), t.cur) else t
  {
    hide ParseExpr;
  }

  /** The list begun with `head` is the list `nodes` read so far, followed by `rest`. */
  ghost predicate TailSoFar(head: seq<Expr>, all: TailOutcome, nodes: seq<Expr>, rest: TailOutcome) {
    match rest
    case TailErr(e) => all == TailErr(e)
    case GotTail(t, q) => all.GotTail? && all.cur == q && head + EraseTail(all.tail) == nodes + EraseTail(t)
  }

  lemma TailBegin(head: seq<Expr>, all: TailOutcome)
    ensures TailSoFar(head, all, head, all)
  {}

  lemma TailNext(tab: BindingTable, s: seq<Token>, p: nat, head: seq<Expr>, all: TailOutcome, nodes: seq<Expr>)
    requires p < |s| && s[p] == Comma && TailSoFar(head, all, nodes, ParseTail(tab, s, p))
    ensures var h := ParseExpr(tab, s, Skip(s, p + 1), 0);
      && (h.Err? ==> all == TailErr(h.error))
      && (h.Nothing? ==> all == TailErr(SyntaxError))
      && (h.Got? ==> TailSoFar(head, all, nodes + [Erase(h.tree)], ParseTail(tab, s, h.cur)))
  {
    hide ParseExpr, ParseTail;
    TailStep(tab, s, p);
    var h := ParseExpr(tab, s, Skip(s, p + 1), 0);
    if h.Got? && ParseTail(tab, s, h.cur).GotTail? {
      var t := ParseTail(tab, s, h.cur).tail;
      assert nodes + ([Erase(h.tree)] + EraseTail(t)) == nodes + [Erase(h.tree)] + EraseTail(t);
    }
  }

  lemma TailStop(tab: BindingTable, s: seq<Token>, p: nat, head: seq<Expr>, all: TailOutcome, nodes: seq<Expr>)
    requires p <= |s| && (p == |s| || s[p] != Comma) && TailSoFar(head, all, nodes, ParseTail(tab, s, p))
    ensures all.GotTail? && all.cur == p && nodes == head + EraseTail(all.tail)
  {
    hide ParseExpr, ParseTail;
    TailStep(tab, s, p);
    assert nodes + [] == nodes;
  }

  /** A list is its first element, if any, and a tail. */
  lemma ItemsAre(tab: BindingTable, s: seq<Token>, p: nat)
    requires p <= |s|
    ensures var h := ParseExpr(tab, s, p, 0); var r := ParseItems(tab, s, p);
      && (h.Err? ==> r == ItemsErr(h.error))
      && (!h.Err? ==>
            var t := ParseTail(tab, s, h.cur);
            var head := if h.Got? then [Erase(h.tree)] else [];
            && (t.TailErr? ==> r == ItemsErr(t.error))
            && (t.GotTail? ==> r.GotItems? && r.cur == t.cur && EraseItems(r.items) == head + EraseTail(t.tail)))
  {
    hide ParseExpr, ParseTail;
  }

  class Parser {
    const tab: BindingTable
    const tokens: seq<Token>
    var pos: nat

    constructor (tab: BindingTable, tokens: seq<Token>)
      ensures Valid() && pos == 0 && this.tab == tab && this.tokens == tokens
    {
      this.tab := tab;
      this.tokens := tokens;
      pos := 0;
    }

    ghost predicate Valid()
      reads this
    {
      pos <= |tokens|
    }

    // ---- Cursor ---------------------------------------------------------------------------

    method Check(t: Token) returns (r: Try<bool>)
      requires Valid()
      ensures r == if pos == |tokens| then Throw(EndOfStream) else Value(tokens[pos] == t)
    {
      if pos == |tokens| { return Throw(EndOfStream); }
      r := Value(tokens[pos] == t);
    }

    method Next()
      requires pos < |tokens|
      modifies this
      ensures pos == old(pos) + 1
    {
      pos := pos + 1;
    }

    method Prev()
      requires 0 < pos <= |tokens|
      modifies this
      ensures pos == old(pos) - 1
    {
      pos := pos - 1;
    }

    method NextIf(t: Token) returns (r: Try<bool>)
      requires Valid()
      modifies this
      ensures Valid()
      ensures r == if old(pos) == |tokens| then Throw(EndOfStream) else Value(tokens[old(pos)] == t)
      ensures pos == if r == Value(true) then old(pos) + 1 else old(pos)
    {
      var found :- Check(t);
      if found { Next(); }
      return Value(found);
    }

    method Expect(t: Token) returns (r: Try<()>)
      requires Valid()
      modifies this
      ensures Valid()
      ensures r ==
        if old(pos) == |tokens| then Throw(EndOfStream)
        else if tokens[old(pos)] != t then Throw(SyntaxError)
        else Value(())
      ensures r.Value? ==> pos == old(pos) + 1
    {
      var found :- Check(t);
      if !found { return Throw(SyntaxError); }
      Next();
      return Value(());
    }

    /** Moves to `t` if it is the first token that is not a newline. */
    method AfterNewlines(t: Token) returns (found: bool)
      requires Valid() && t != Newline
      modifies this
      ensures Valid()
      ensures var f := Skip(tokens, old(pos)); found == (f < |tokens| && tokens[f] == t)
      ensures pos == if found then Skip(tokens, old(pos)) else old(pos)
    {
      found := false;
      var iter := pos;
      while iter != |tokens|
        invariant pos <= iter <= |tokens| && Skip(tokens, pos) == Skip(tokens, iter)
        invariant !found
        decreases |tokens| - iter
      {
        if tokens[iter] != Newline {
          if tokens[iter] == t {
            found := true;
            pos := iter;
          }
          break;
        }
        iter := iter + 1;
      }
    }

    method NewlineOpt()
      requires Valid()
      modifies this
      ensures Valid() && pos == Skip(tokens, old(pos))
    {
      while pos != |tokens| && tokens[pos] == Newline
        invariant Valid() && Skip(tokens, pos) == Skip(tokens, old(pos))
        decreases |tokens| - pos
      {
        Next();
      }
    }

    // ---- Operands -------------------------------------------------------------------------

    method PrefixExpr(op: PrefixOp) returns (r: Try<NodePtr>)
      requires Valid()
      modifies this
      ensures Valid()
      ensures Agrees(ParseExpr(tab, tokens, old(pos), tab.prefix(op).rbp), r, pos)
      decreases |tokens| - pos, 5
    {
      r := Expression(tab.prefix(op).rbp);
    }

    method Grouping() returns (r: Try<NodePtr>)
      requires Valid()
      modifies this
      ensures Valid()
      ensures old(pos) < |tokens| && tokens[old(pos)] != ParenOpen ==> r == Value(None) && pos == old(pos)
      ensures old(pos) == |tokens| ==> r == Throw(EndOfStream)
      ensures old(pos) < |tokens| && tokens[old(pos)] == ParenOpen ==>
        match ParseExpr(tab, tokens, old(pos) + 1, 0)
        case Err(e) => r == Throw(e)
        case Got(_, _, q) => Agrees(ParsePrefix(tab, tokens, old(pos)), r, pos)
        case Nothing(q) =>
          if q == |tokens| then r == Throw(EndOfStream)
          else if tokens[q] != ParenClose then r == Throw(SyntaxError)
          else r == Value(None) && pos == q + 1
      decreases |tokens| - pos, 1
    {
      var open :- Check(ParenOpen);
      if !open { return Value(None); }
      Next();
      var node :- Expression(0);
      var _ :- Expect(ParenClose);
      return Value(node);
    }

    /** `&`, `*`, `+`, `-` and `!` differ only in the token and in the node they build. */
    method PrefixOperator(op: PrefixOp) returns (r: Try<NodePtr>)
      requires Valid()
      modifies this
      ensures Valid()
      ensures old(pos) == |tokens| ==> r == Throw(EndOfStream)
      ensures old(pos) < |tokens| && tokens[old(pos)] != PrefixToken(op) ==> r == Value(None) && pos == old(pos)
      ensures old(pos) < |tokens| && tokens[old(pos)] == PrefixToken(op) ==>
        Agrees(ParsePrimary(tab, tokens, old(pos)), r, pos) && r != Value(None)
      decreases |tokens| - pos, 1
    {
      var found :- NextIf(PrefixToken(op));
      if !found { return Value(None); }
      assert PrefixOpOf(PrefixToken(op)) == Some(op);
      var rhs :- PrefixExpr(op);
      if rhs.None? { return Throw(SyntaxError); }
      return Value(Some(Prefix(op, rhs.value)));
    }

    method LiteralNode() returns (r: Try<NodePtr>)
      requires Valid()
      modifies this
      ensures Valid()
      ensures old(pos) == |tokens| ==> r == Throw(EndOfStream)
      ensures old(pos) < |tokens| ==>
        var t := tokens[old(pos)];
        if t.Lit? || t == BracketOpen || t == Iota then
          Agrees(ParsePrimary(tab, tokens, old(pos)), r, pos) && r != Value(None)
        else r == Value(None) && pos == old(pos)
      decreases |tokens| - pos, 1
    {
      if pos == |tokens| { return Throw(EndOfStream); }
      var token := tokens[pos];
      if token.Lit? {
        Next();
        return Value(Some(Expr.Literal(token.lit)));
      }
      if token == BracketOpen {
        Next();
        var list :- ExprListOpt();
        var _ :- Expect(BracketClose);
        return Value(Some(ArrayExpr(list)));
      }
      if token == Iota { return Throw(SyntaxError); }
      return Value(None);
    }

    method FunctionCallNode() returns (r: Try<NodePtr>)
      requires Valid()
      modifies this
      ensures Valid()
      ensures old(pos) == |tokens| ==> r == Throw(EndOfStream)
      ensures old(pos) < |tokens| ==>
        var t := tokens[old(pos)];
        if t.Name? && old(pos) + 1 < |tokens| && tokens[old(pos) + 1] != ParenOpen then
          r == Value(None) && pos == old(pos)
        else if t.Name? then Agrees(ParsePrimary(tab, tokens, old(pos)), r, pos) && r != Value(None)
        else r == Value(None) && pos == old(pos)
      decreases |tokens| - pos, 1
    {
      if pos == |tokens| { return Throw(EndOfStream); }
      var token := tokens[pos];
      if !token.Name? { return Value(None); }
      Next();
      var open :- Check(ParenOpen);
      if !open {
        Prev();
        return Value(None);
      }
      Next();
      var args :- ExprListOpt();
      var _ :- Expect(ParenClose);
      return Value(Some(FunctionCall(token.id, args)));
    }

    method Lvalue() returns (r: Try<NodePtr>)
      requires Valid()
      modifies this
      ensures Valid()
      ensures old(pos) == |tokens| ==> r == Throw(EndOfStream)
      ensures old(pos) < |tokens| ==>
        if tokens[old(pos)].Name? then r == Value(Some(Identifier(tokens[old(pos)].id))) && pos == old(pos) + 1
        else r == Value(None) && pos == old(pos)
    {
      if pos == |tokens| { return Throw(EndOfStream); }
      var token := tokens[pos];
      if !token.Name? { return Value(None); }
      Next();
      return Value(Some(Identifier(token.id)));
    }

    /** Everything an operand can be apart from a parenthesised expression. */
    method PrimaryOperand() returns (r: Try<NodePtr>)
      requires Valid()
      modifies this
      ensures Valid()
      ensures Agrees(ParsePrimary(tab, tokens, old(pos)), r, pos)
      decreases |tokens| - pos, 2, 1
    {
      hide ParseExpr, ParseItems;
      var node :- UnaryOperator();
      if node.Some? { return Value(node); }
      r := PlainOperand();
    }

    method UnaryOperator() returns (r: Try<NodePtr>)
      requires Valid()
      modifies this
      ensures Valid()
      ensures old(pos) == |tokens| ==> r == Throw(EndOfStream)
      ensures old(pos) < |tokens| && PrefixOpOf(tokens[old(pos)]).None? ==> r == Value(None) && pos == old(pos)
      ensures old(pos) < |tokens| && PrefixOpOf(tokens[old(pos)]).Some? ==>
        Agrees(ParsePrimary(tab, tokens, old(pos)), r, pos) && r != Value(None)
      decreases |tokens| - pos, 2, 0
    {
      hide ParsePrimary;
      var node :- PrefixOperator(AddressOf);
      if node.Some? { return Value(node); }
      node :- PrefixOperator(Dereference);
      if node.Some? { return Value(node); }
      node :- PrefixOperator(Positive);
      if node.Some? { return Value(node); }
      node :- PrefixOperator(Negative);
      if node.Some? { return Value(node); }
      node :- PrefixOperator(Not);
      return Value(node);
    }

    /** Everything else that can stand as an operand. */
    method PlainOperand() returns (r: Try<NodePtr>)
      requires Valid() && pos < |tokens| && PrefixOpOf(tokens[pos]).None?
      modifies this
      ensures Valid()
      ensures Agrees(ParsePrimary(tab, tokens, old(pos)), r, pos)
      decreases |tokens| - pos, 2, 0
    {
      hide ParseExpr, ParseItems;
      var node :- LiteralNode();
      if node.Some? { return Value(node); }
      node :- FunctionCallNode();
      if node.Some? { return Value(node); }
      r := Lvalue();
    }

    method PrefixOperand() returns (r: Try<NodePtr>)
      requires Valid()
      modifies this
      ensures Valid()
      ensures Agrees(ParsePrefix(tab, tokens, old(pos)), r, pos)
      decreases |tokens| - pos, 3
    {
      var node :- Grouping();
      if node.Some? { return Value(node); }
      node :- PrimaryOperand();
      return Value(node);
    }

    method ExprListOpt() returns (r: Try<seq<Expr>>)
      requires Valid()
      modifies this
      ensures Valid()
      ensures AgreesItems(ParseItems(tab, tokens, old(pos)), r, pos)
      decreases |tokens| - pos, 5
    {
      hide ParseExpr, ParseTail, ParseItems, TailSoFar;
      ghost var begin := pos;
      var nodes: seq<Expr> := [];
      ItemsAre(tab, tokens, pos);
      var first :- Expression(0);
      if first.Some? { nodes := [first.value]; }
      ghost var start := pos;
      ghost var head := nodes;
      ghost var all := ParseTail(tab, tokens, start);
      TailBegin(head, all);
      while pos != |tokens|
        invariant Valid() && begin <= start <= pos
        invariant TailSoFar(head, all, nodes, ParseTail(tab, tokens, pos))
        decreases |tokens| - pos
      {
        if tokens[pos] != Comma { break; }
        TailNext(tab, tokens, pos, head, all, nodes);
        Next();
        NewlineOpt();
        var node :- Expression(0);
        if node.None? { return Throw(SyntaxError); }
        nodes := nodes + [node.value];
      }
      TailStop(tab, tokens, pos, head, all, nodes);
      return Value(nodes);
    }

    // ---- Operators ------------------------------------------------------------------------

    /** The right-hand side of an operator that was just consumed: when it binds too weakly
        the cursor steps back onto it and there is no node. */
    method RightHandSide(power: Power, m: int) returns (r: Try<NodePtr>)
      requires Valid() && 0 < pos
      modifies this
      ensures Valid()
      ensures power.lbp < m ==> r == Value(None) && pos == old(pos) - 1
      ensures power.lbp >= m ==>
        match ParseExpr(tab, tokens, old(pos), power.rbp)
        case Err(e) => r == Throw(e)
        case Nothing(_) => r == Throw(SyntaxError)
        case Got(c, _, q) => r == Value(Some(Erase(c))) && pos == q
      decreases |tokens| - pos, 6
    {
      if power.lbp < m {
        Prev();
        return Value(None);
      }
      var node :- Expression(power.rbp);
      if node.None? { return Throw(SyntaxError); }
      return Value(node);
    }

    method MemberAccessNode(lhs: Expr, m: int, ghost tree: Cst, ghost end: nat) returns (r: Try<NodePtr>)
      requires Valid() && pos < |tokens| && end <= pos && Erase(tree) == lhs
      modifies this
      ensures Valid()
      ensures var f := Skip(tokens, old(pos));
        if f < |tokens| && tokens[f] == Dot then AgreesStep(tree, end, old(pos), m, r)
        else r == Value(None) && pos == old(pos)
      decreases |tokens| - pos, 0
    {
      hide ParseExpr;
      var found := AfterNewlines(Dot);
      if !found { return Value(None); }
      Next();
      var rhs :- RightHandSide(tab.dot, m);
      if rhs.None? { return Value(None); }
      return Value(Some(MemberAccess(lhs, rhs.value)));
    }

    method SubscriptNode(lhs: Expr, m: int, ghost tree: Cst, ghost end: nat) returns (r: Try<NodePtr>)
      requires Valid() && pos < |tokens| && end <= pos && Erase(tree) == lhs
      modifies this
      ensures Valid()
      ensures var f := Skip(tokens, old(pos));
        if f < |tokens| && tokens[f] == BracketOpen then AgreesStep(tree, end, old(pos), m, r)
        else r == Value(None) && pos == old(pos)
      decreases |tokens| - pos, 0
    {
      hide ParseExpr;
      var found := AfterNewlines(BracketOpen);
      if !found { return Value(None); }
      Next();
      var rhs :- RightHandSide(tab.bracket, m);
      if rhs.None? { return Value(None); }
      var _ :- Expect(BracketClose);
      return Value(Some(Subscript(lhs, rhs.value)));
    }

    ghost predicate AgreesStep(tree: Cst, end: nat, cur: nat, m: int, r: Try<NodePtr>)
      requires end <= cur < |tokens|
      reads this
    {
      match ParsePostfix(tab, tokens, tree, end, cur, m)
      case Took(c, _, q) => r == Value(Some(Erase(c))) && pos == q
      case Declined(q) => r == Value(None) && pos == q
      case Failed(e) => r == Throw(e)
    }

    method Postfix(lhs: Expr, m: int, ghost tree: Cst, ghost end: nat) returns (r: Try<NodePtr>)
      requires Valid() && pos < |tokens| && end <= pos && Erase(tree) == lhs
      modifies this
      ensures Valid() && AgreesStep(tree, end, old(pos), m, r)
      decreases |tokens| - pos, 1
    {
      var node :- MemberAccessNode(lhs, m, tree, end);
      if node.Some? { return Value(node); }
      if pos == |tokens| { return Throw(EndOfStream); }
      node :- SubscriptNode(lhs, m, tree, end);
      return Value(node);
    }

    /** One infix operator: `found` says that it stands next, behind any newlines. */
    method InfixOperator(op: InfixOp, lhs: Expr, m: int) returns (found: bool, r: Try<NodePtr>)
      requires Valid()
      modifies this
      ensures Valid()
      ensures var f := Skip(tokens, old(pos)); found == (f < |tokens| && tokens[f] == InfixToken(op))
      ensures if found then AgreesInfix(Skip(tokens, old(pos)), op, lhs, m, r) else r == Value(None) && pos == old(pos)
      decreases |tokens| - pos, 0
    {
      hide ParseExpr;
      found := AfterNewlines(InfixToken(op));
      if !found { return found, Value(None); }
      Next();
      var rhs := RightHandSide(tab.infix(op), m);
      if rhs.Throw? || rhs.value.None? { return found, rhs; }
      return found, Value(Some(Infix(op, lhs, rhs.value.value)));
    }

    /** What happens at the infix operator `op` found at `f`. */
    ghost predicate AgreesInfix(f: nat, op: InfixOp, lhs: Expr, m: int, r: Try<NodePtr>)
      requires f < |tokens|
      reads this
    {
      if tab.infix(op).lbp < m then r == Value(None) && pos == f
      else
        match ParseExpr(tab, tokens, f + 1, tab.infix(op).rbp)
        case Err(e) => r == Throw(e)
        case Nothing(_) => r == Throw(SyntaxError)
        case Got(c, _, q) => r == Value(Some(Infix(op, lhs, Erase(c)))) && pos == q
    }

    /** The next infix operator, if it is one of `ops`. */
    ghost predicate AgreesGroup(ops: set<InfixOp>, cur: nat, lhs: Expr, m: int, found: bool, r: Try<NodePtr>)
      requires cur < |tokens|
      reads this
    {
      var f := Skip(tokens, cur);
      && found == (f < |tokens| && InfixOpOf(tokens[f]).Some? && InfixOpOf(tokens[f]).value in ops)
      && if found then AgreesInfix(f, InfixOpOf(tokens[f]).value, lhs, m, r) else r == Value(None) && pos == cur
    }

    method ArithmeticNode(lhs: Expr, m: int) returns (ghost found: bool, r: Try<NodePtr>)
      requires Valid() && pos < |tokens|
      modifies this
      ensures Valid() && AgreesGroup(ARITHMETIC, old(pos), lhs, m, found, r)
      decreases |tokens| - pos, 1, 0
    {
      ghost var f := Skip(tokens, pos);
      if f < |tokens| {
        InfixTokenInverse(tokens[f], Multiply);
        InfixTokenInverse(tokens[f], Divide);
        InfixTokenInverse(tokens[f], Modulo);
        InfixTokenInverse(tokens[f], Add);
        InfixTokenInverse(tokens[f], Subtract);
      }
      hide AgreesInfix, ParseExpr, InfixOpOf, InfixToken, Skip;
      var hit;
      hit, r := InfixOperator(Multiply, lhs, m);
      if !hit { hit, r := InfixOperator(Divide, lhs, m); }
      if !hit { hit, r := InfixOperator(Modulo, lhs, m); }
      if !hit { hit, r := InfixOperator(Add, lhs, m); }
      if !hit { hit, r := InfixOperator(Subtract, lhs, m); }
      found := hit;
    }

    method LogicalNode(lhs: Expr, m: int) returns (ghost found: bool, r: Try<NodePtr>)
      requires Valid() && pos < |tokens|
      modifies this
      ensures Valid() && AgreesGroup(LOGICAL, old(pos), lhs, m, found, r)
      decreases |tokens| - pos, 1, 0
    {
      ghost var f := Skip(tokens, pos);
      if f < |tokens| {
        InfixTokenInverse(tokens[f], And);
        InfixTokenInverse(tokens[f], Or);
      }
      hide AgreesInfix, ParseExpr, InfixOpOf, InfixToken, Skip;
      var hit;
      hit, r := InfixOperator(And, lhs, m);
      if !hit { hit, r := InfixOperator(Or, lhs, m); }
      found := hit;
    }

    method ComparisonNode(lhs: Expr, m: int) returns (ghost found: bool, r: Try<NodePtr>)
      requires Valid() && pos < |tokens|
      modifies this
      ensures Valid() && AgreesGroup(COMPARISON, old(pos), lhs, m, found, r)
      decreases |tokens| - pos, 1, 0
    {
      ghost var f := Skip(tokens, pos);
      if f < |tokens| {
        InfixTokenInverse(tokens[f], LessThan);
        InfixTokenInverse(tokens[f], LessThanEqual);
        InfixTokenInverse(tokens[f], Equal);
        InfixTokenInverse(tokens[f], NotEqual);
        InfixTokenInverse(tokens[f], GreaterThan);
        InfixTokenInverse(tokens[f], GreaterThanEqual);
      }
      hide AgreesInfix, ParseExpr, InfixOpOf, InfixToken, Skip;
      var hit;
      hit, r := InfixOperator(LessThan, lhs, m);
      if !hit { hit, r := InfixOperator(LessThanEqual, lhs, m); }
      if !hit { hit, r := InfixOperator(Equal, lhs, m); }
      if !hit { hit, r := InfixOperator(NotEqual, lhs, m); }
      if !hit { hit, r := InfixOperator(GreaterThan, lhs, m); }
      if !hit { hit, r := InfixOperator(GreaterThanEqual, lhs, m); }
      found := hit;
    }

    /** The infix half of a round of the operator loop. When it builds a node, the rest of the
        specified loop goes on from the tree `tree'` that ends at `end'`. */
    method InfixNode(lhs: Expr, m: int, ghost tree: Cst, ghost end: nat)
      returns (r: Try<NodePtr>, ghost tree': Cst, ghost end': nat)
      requires Valid() && end <= pos && Erase(tree) == lhs
      modifies this
      ensures Valid() && (r.Value? ==> end' <= pos && old(pos) <= pos)
      ensures var o := LoopInfix(tab, tokens, tree, end, old(pos), m);
        match r
        case Throw(e) => o == Err(e)
        case Value(None) => o == Got(tree, end, pos) && tree' == tree && end' == end
        case Value(Some(node)) =>
          Erase(tree') == node && old(pos) < pos && o == Loop(tab, tokens, tree', end', pos, m)
      decreases |tokens| - pos, 2
    {
      hide ParseExpr, Loop, InfixOpOf;
      tree', end' := tree, end;
      if pos == |tokens| { return Throw(EndOfStream), tree, end; }
      ghost var f := Skip(tokens, pos);
      r := AnyInfix(lhs, m);
      hide Skip;
      if r.Value? && r.value.Some? {
        ghost var op := InfixOpOf(tokens[f]).value;
        ghost var rhs := ParseExpr(tab, tokens, f + 1, tab.infix(op).rbp);
        tree', end' := Binary(tree, f - end, op, rhs.tree), rhs.end;
      }
    }

    /** Arithmetic, logical and comparison operators, in this order. */
    method AnyInfix(lhs: Expr, m: int) returns (r: Try<NodePtr>)
      requires Valid() && pos < |tokens|
      modifies this
      ensures Valid()
      ensures var f := Skip(tokens, old(pos));
        if f < |tokens| && InfixOpOf(tokens[f]).Some? then AgreesInfix(f, InfixOpOf(tokens[f]).value, lhs, m, r)
        else r == Value(None) && pos == old(pos)
      decreases |tokens| - pos, 1, 1
    {
      hide ParseExpr, InfixOpOf;
      ghost var f := Skip(tokens, pos);
      if f < |tokens| && InfixOpOf(tokens[f]).Some? { OneGroup(InfixOpOf(tokens[f]).value); }
      hide ARITHMETIC, LOGICAL, COMPARISON;
      ghost var found;
      found, r := ArithmeticNode(lhs, m);
      if r == Value(None) { found, r := LogicalNode(lhs, m); }
      if r == Value(None) { found, r := ComparisonNode(lhs, m); }
    }

    // ---- Expressions ----------------------------------------------------------------------

    method Expression(m: int) returns (r: Try<NodePtr>)
      requires Valid()
      modifies this
      ensures Valid()
      ensures Agrees(ParseExpr(tab, tokens, old(pos), m), r, pos)
      decreases |tokens| - pos, 4
    {
      hide ParsePrefix, ParsePostfix, LoopInfix;
      ghost var start := ParsePrefix(tab, tokens, pos);
      var lhs :- PrefixOperand();
      if lhs.None? { return Value(None); }
      ghost var tree: Cst, end: nat := start.tree, start.end;
      var done := false;
      while !done && pos != |tokens|
        invariant Valid() && old(pos) < pos && end <= pos
        invariant lhs == Some(Erase(tree))
        invariant ParseExpr(tab, tokens, old(pos), m) ==
          if done then Got(tree, end, pos) else Loop(tab, tokens, tree, end, pos, m)
        decreases |tokens| - pos, !done
      {
        ghost var step := ParsePostfix(tab, tokens, tree, end, pos, m);
        var node :- Postfix(lhs.value, m, tree, end);
        if node.Some? {
          lhs := node;
          tree, end := step.tree, step.end;
        }
        var node', tree', end' := InfixNode(lhs.value, m, tree, end);
        if node'.Throw? { return node'; }
        if node'.value.Some? {
          lhs := node'.value;
          tree, end := tree', end';
        } else {
          done := true;
        }
      }
      return Value(lhs);
    }
  }
}
