/** A declarative precedence grammar, independent of any parsing strategy.

    A concrete syntax tree (`Cst`) is an expression together with everything the
    abstract tree forgets: the parentheses, and the number of newlines in front of
    each operator and after each comma. `Yield` is its exact token sequence, `Erase`
    its abstract tree. `Ok(tab, c, m)` says that `c` respects the binding powers of
    `tab` when it is read at minimum power `m`; `Stop(tab, c, m, look)` says that what
    follows `c` cannot be drawn into it. */
module PrattGrammar {
  import opened Ast
  import opened Tokens
  import opened Binding
  import opened Sequences

  datatype Cst =
    | Leaf(lit: Literal)
    | Ref(id: string)
    | Group(inner: Cst)
    // `depth` pairs of parentheses around nothing, followed by an unparenthesised operand.
    | Hollow(depth: nat, primary: Cst)
    | Array(elems: Items)
    | Call(callee: string, args: Items)
    | Unary(pop: PrefixOp, operand: Cst)
    | Binary(left: Cst, gap: nat, op: InfixOp, right: Cst)
    | Member(left: Cst, gap: nat, right: Cst)
    | Index(left: Cst, gap: nat, index: Cst)

  // A list of expressions; the first may be missing, with hollow parentheses in its place.
  datatype Items =
    | Absent(depth: nat, tail: Tail)
    | Present(head: Cst, tail: Tail)

  datatype Tail = End | More(gap: nat, head: Cst, tail: Tail)

  function Newlines(n: nat): (r: seq<Token>)
    ensures |r| == n && forall i :: 0 <= i < n ==> r[i] == Newline
  {
    Repeat(n, Newline)
  }

  function HollowParens(depth: nat): (r: seq<Token>)
    ensures |r| == 2 * depth
  {
    Repeat(depth, ParenOpen) + Repeat(depth, ParenClose)
  }

  function Yield(c: Cst): seq<Token> {
    match c
    case Leaf(lit) => [Lit(lit)]
    case Ref(id) => [Name(id)]
    case Group(inner) => [ParenOpen] + Yield(inner) + [ParenClose]
    case Hollow(k, p) => HollowParens(k) + Yield(p)
    case Array(es) => [BracketOpen] + YieldItems(es) + [BracketClose]
    case Call(f, args) => [Name(f), ParenOpen] + YieldItems(args) + [ParenClose]
    case Unary(op, e) => [PrefixToken(op)] + Yield(e)
    case Binary(l, g, op, r) => Yield(l) + Newlines(g) + [InfixToken(op)] + Yield(r)
    case Member(l, g, r) => Yield(l) + Newlines(g) + [Dot] + Yield(r)
    case Index(l, g, i) => Yield(l) + Newlines(g) + [BracketOpen] + Yield(i) + [BracketClose]
  }

  function YieldItems(es: Items): seq<Token> {
    match es
    case Absent(k, t) => HollowParens(k) + YieldTail(t)
    case Present(h, t) => Yield(h) + YieldTail(t)
  }

  function YieldTail(t: Tail): seq<Token> {
    match t
    case End => []
    case More(g, h, rest) => [Comma] + Newlines(g) + Yield(h) + YieldTail(rest)
  }

  function Width(c: Cst): nat {
    match c
    case Leaf(_) => 1
    case Ref(_) => 1
    case Group(inner) => 1 + Width(inner) + 1
    case Hollow(k, p) => 2 * k + Width(p)
    case Array(es) => 1 + WidthItems(es) + 1
    case Call(_, args) => 2 + WidthItems(args) + 1
    case Unary(_, e) => 1 + Width(e)
    case Binary(l, g, _, r) => Width(l) + g + 1 + Width(r)
    case Member(l, g, r) => Width(l) + g + 1 + Width(r)
    case Index(l, g, i) => Width(l) + g + 1 + Width(i) + 1
  }

  function WidthItems(es: Items): nat {
    match es
    case Absent(k, t) => 2 * k + WidthTail(t)
    case Present(h, t) => Width(h) + WidthTail(t)
  }

  function WidthTail(t: Tail): nat {
    match t
    case End => 0
    case More(g, h, rest) => 1 + g + Width(h) + WidthTail(rest)
  }

  predicate TokenAt(s: seq<Token>, p: nat, t: Token) {
    p < |s| && s[p] == t
  }

  predicate NewlinesAt(s: seq<Token>, p: nat, n: nat) {
    p + n <= |s| && forall i :: p <= i < p + n ==> s[i] == Newline
  }

  predicate HollowAt(s: seq<Token>, p: nat, k: nat) {
    && p + 2 * k <= |s|
    && (forall i :: p <= i < p + k ==> s[i] == ParenOpen)
    && (forall i :: p + k <= i < p + 2 * k ==> s[i] == ParenClose)
  }

  /** The tokens from position `p` on spell `c`: the yield of `c`, said position by position. */
  predicate Spells(s: seq<Token>, p: nat, c: Cst)
    decreases c
  {
    match c
    case Leaf(lit) => TokenAt(s, p, Lit(lit))
    case Ref(id) => TokenAt(s, p, Name(id))
    case Group(inner) =>
      TokenAt(s, p, ParenOpen) && Spells(s, p + 1, inner) && TokenAt(s, p + 1 + Width(inner), ParenClose)
    case Hollow(k, e) => HollowAt(s, p, k) && Spells(s, p + 2 * k, e)
    case Array(es) =>
      TokenAt(s, p, BracketOpen) && SpellsItems(s, p + 1, es)
      && TokenAt(s, p + 1 + WidthItems(es), BracketClose)
    case Call(f, args) =>
      TokenAt(s, p, Name(f)) && TokenAt(s, p + 1, ParenOpen) && SpellsItems(s, p + 2, args)
      && TokenAt(s, p + 2 + WidthItems(args), ParenClose)
    case Unary(op, e) => TokenAt(s, p, PrefixToken(op)) && Spells(s, p + 1, e)
    case Binary(l, g, op, r) =>
      var q := p + Width(l);
      Spells(s, p, l) && NewlinesAt(s, q, g) && TokenAt(s, q + g, InfixToken(op)) && Spells(s, q + g + 1, r)
    case Member(l, g, r) =>
      var q := p + Width(l);
      Spells(s, p, l) && NewlinesAt(s, q, g) && TokenAt(s, q + g, Dot) && Spells(s, q + g + 1, r)
    case Index(l, g, i) =>
      var q := p + Width(l);
      Spells(s, p, l) && NewlinesAt(s, q, g) && TokenAt(s, q + g, BracketOpen) && Spells(s, q + g + 1, i)
      && TokenAt(s, q + g + 1 + Width(i), BracketClose)
  }

  predicate SpellsItems(s: seq<Token>, p: nat, es: Items)
    decreases es
  {
    match es
    case Absent(k, t) => HollowAt(s, p, k) && SpellsTail(s, p + 2 * k, t)
    case Present(h, t) => Spells(s, p, h) && SpellsTail(s, p + Width(h), t)
  }

  predicate SpellsTail(s: seq<Token>, p: nat, t: Tail)
    decreases t
  {
    match t
    case End => p <= |s|
    case More(g, h, rest) =>
      TokenAt(s, p, Comma) && NewlinesAt(s, p + 1, g) && Spells(s, p + 1 + g, h)
      && SpellsTail(s, p + 1 + g + Width(h), rest)
  }

  function Erase(c: Cst): Expr {
    match c
    case Leaf(lit) => Literal(lit)
    case Ref(id) => Identifier(id)
    case Group(inner) => Erase(inner)
    case Hollow(_, p) => Erase(p)
    case Array(es) => ArrayExpr(EraseItems(es))
    case Call(f, args) => FunctionCall(f, EraseItems(args))
    case Unary(op, e) => Prefix(op, Erase(e))
    case Binary(l, _, op, r) => Infix(op, Erase(l), Erase(r))
    case Member(l, _, r) => MemberAccess(Erase(l), Erase(r))
    case Index(l, _, i) => Subscript(Erase(l), Erase(i))
  }

  function EraseItems(es: Items): seq<Expr> {
    match es
    case Absent(_, t) => EraseTail(t)
    case Present(h, t) => [Erase(h)] + EraseTail(t)
  }

  function EraseTail(t: Tail): seq<Expr> {
    match t
    case End => []
    case More(_, h, rest) => [Erase(h)] + EraseTail(rest)
  }

  /** What follows a position: the very next token, and the next token that is not a newline. */
  datatype Look = Look(imm: Option<Token>, first: Option<Token>)

  function LookOp(gap: nat, t: Token): Look {
    Look(Some(if gap == 0 then t else Newline), Some(t))
  }

  /** The root was built by a postfix operator. */
  predicate PostfixRooted(c: Cst) {
    c.Member? || c.Index?
  }

  /** An operand that the parser reads without entering its operator loop. */
  predicate IsBase(c: Cst) {
    !c.Binary? && !PostfixRooted(c)
  }

  predicate IsPrimary(c: Cst) {
    IsBase(c) && !c.Group? && !c.Hollow?
  }

  /** The operator loop at minimum power `m` takes nothing from `look`. Right after a
      postfix operator no second postfix operator is tried, and the stream must not be at its end. */
  predicate LoopStops(tab: BindingTable, afterPostfix: bool, m: int, look: Look) {
    if look.imm.None? then
      !afterPostfix
    else if look.first.None? then
      true
    else
      var t := look.first.value;
      && (!afterPostfix && t == Dot ==> tab.dot.lbp < m)
      && (!afterPostfix && t == BracketOpen ==> tab.bracket.lbp < m)
      && (InfixOpOf(t).Some? ==> tab.infix(InfixOpOf(t).value).lbp < m)
  }

  /** Every expression nested at the right edge of `c` ends where `c` ends, given `look`. */
  predicate Edge(tab: BindingTable, c: Cst, look: Look)
    decreases c, 0
  {
    match c
    case Ref(_) => look.imm.Some? && look.imm.value != ParenOpen
    case Hollow(_, p) => Edge(tab, p, look)
    case Unary(op, e) => Stop(tab, e, tab.prefix(op).rbp, look)
    case Binary(_, _, op, r) => Stop(tab, r, tab.infix(op).rbp, look)
    case Member(_, _, r) => Stop(tab, r, tab.dot.rbp, look)
    case _ => true
  }

  predicate Stop(tab: BindingTable, c: Cst, m: int, look: Look)
    decreases c, 1
  {
    Edge(tab, c, look) && LoopStops(tab, PostfixRooted(c), m, look)
  }

  predicate Ok(tab: BindingTable, c: Cst, m: int) {
    match c
    case Leaf(_) => true
    case Ref(_) => true
    case Group(inner) => Ok(tab, inner, 0)
    case Hollow(k, p) => k > 0 && IsPrimary(p) && Ok(tab, p, m)
    case Array(es) => OkItems(tab, es)
    case Call(_, args) => OkItems(tab, args)
    case Unary(op, e) => Ok(tab, e, tab.prefix(op).rbp)
    case Binary(l, g, op, r) =>
      && m <= tab.infix(op).lbp
      && Ok(tab, l, m) && Edge(tab, l, LookOp(g, InfixToken(op)))
      && Ok(tab, r, tab.infix(op).rbp)
    case Member(l, g, r) =>
      && m <= tab.dot.lbp && !PostfixRooted(l)
      && Ok(tab, l, m) && Edge(tab, l, LookOp(g, Dot))
      && Ok(tab, r, tab.dot.rbp)
    case Index(l, g, i) =>
      && m <= tab.bracket.lbp && !PostfixRooted(l)
      && Ok(tab, l, m) && Edge(tab, l, LookOp(g, BracketOpen))
      && Ok(tab, i, tab.bracket.rbp)
  }

  predicate OkItems(tab: BindingTable, es: Items) {
    match es
    case Absent(_, t) => OkTail(tab, t)
    case Present(h, t) => Ok(tab, h, 0) && OkTail(tab, t)
  }

  predicate OkTail(tab: BindingTable, t: Tail) {
    match t
    case End => true
    case More(_, h, rest) => Ok(tab, h, 0) && OkTail(tab, rest)
  }

  /** Nothing in front of a closing token is ever drawn further. */
  predicate Closed(look: Look) {
    look.imm.Some? && look.imm.value != ParenOpen
    && (look.first.Some? ==> !IsOperator(look.first.value))
  }

  lemma {:induction false} StopAtClosed(tab: BindingTable, c: Cst, m: int, look: Look)
    requires Closed(look)
    ensures Stop(tab, c, m, look)
  {
    match c
    case Hollow(_, p) => StopAtClosed(tab, p, m, look);
    case Unary(op, e) => StopAtClosed(tab, e, tab.prefix(op).rbp, look);
    case Binary(_, _, op, r) => StopAtClosed(tab, r, tab.infix(op).rbp, look);
    case Member(_, _, r) => StopAtClosed(tab, r, tab.dot.rbp, look);
    case _ =>
  }
}
