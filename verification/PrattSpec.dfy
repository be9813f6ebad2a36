/** The expression parser as functions of the token sequence and the cursor. The tree is
    returned with its layout (`Cst`); `end` is where that tree's tokens end and `cur` is
    where the cursor stands, which is further on when newlines were skipped in front of an
    operator that was then rejected. The imperative parser in PrattParser.dfy is proved to
    compute these functions. */
module PrattSpec {
  import opened Ast
  import opened Tokens
  import opened Binding
  import opened PrattGrammar

  datatype Error = SyntaxError | EndOfStream

  datatype Outcome =
    | Got(tree: Cst, end: nat, cur: nat)
    | Nothing(cur: nat)
    | Err(error: Error)

  /** One attempt at a postfix operator. */
  datatype Step =
    | Took(tree: Cst, end: nat, cur: nat)
    | Declined(cur: nat)
    | Failed(error: Error)

  datatype ItemsOutcome = GotItems(items: Items, cur: nat) | ItemsErr(error: Error)

  datatype TailOutcome = GotTail(tail: Tail, cur: nat) | TailErr(error: Error)

  /** The first position from `p` on that holds no newline. */
  function Skip(s: seq<Token>, p: nat): (q: nat)
    requires p <= |s|
    ensures p <= q <= |s|
    ensures forall i :: p <= i < q ==> s[i] == Newline
    ensures q < |s| ==> s[q] != Newline
    decreases |s| - p
  {
    if p < |s| && s[p] == Newline then Skip(s, p + 1) else p
  }

  function ParseExpr(tab: BindingTable, s: seq<Token>, p: nat, m: int): (r: Outcome)
    requires p <= |s|
    ensures r.Got? ==> p < r.end <= r.cur <= |s|
    ensures r.Nothing? ==> p <= r.cur <= |s|
    decreases |s| - p, 4
  {
    match ParsePrefix(tab, s, p)
    case Got(c, e, q) => Loop(tab, s, c, e, q, m)
    case Nothing(q) => Nothing(q)
    case Err(e) => Err(e)
  }

  /** The operator loop with left operand `lhs`: at most one postfix operator, then an
      infix operator or the end. */
  function Loop(tab: BindingTable, s: seq<Token>, lhs: Cst, end: nat, cur: nat, m: int): (r: Outcome)
    requires end <= cur <= |s|
    ensures !r.Nothing?
    ensures r.Got? ==> end <= r.end <= r.cur <= |s|
    decreases |s| - cur, 1
  {
    if cur == |s| then Got(lhs, end, cur)
    else
      match ParsePostfix(tab, s, lhs, end, cur, m)
      case Took(c, e, q) => LoopInfix(tab, s, c, e, q, m)
      case Declined(q) => LoopInfix(tab, s, lhs, end, q, m)
      case Failed(e) => Err(e)
  }

  function ParsePostfix(tab: BindingTable, s: seq<Token>, lhs: Cst, end: nat, cur: nat, m: int): (r: Step)
    requires end <= cur < |s|
    ensures r.Took? ==> cur < r.end <= r.cur <= |s|
    ensures r.Declined? ==> cur <= r.cur <= |s|
    decreases |s| - cur, 0
  {
    var f := Skip(s, cur);
    if f == |s| then Declined(cur)
    else if s[f] == Dot then
      if tab.dot.lbp < m then Declined(f)
      else
        match ParseExpr(tab, s, f + 1, tab.dot.rbp)
        case Got(r, e, q) => Took(Member(lhs, f - end, r), e, q)
        case Nothing(_) => Failed(SyntaxError)
        case Err(e) => Failed(e)
    else if s[f] == BracketOpen then
      if tab.bracket.lbp < m then Declined(f)
      else
        match ParseExpr(tab, s, f + 1, tab.bracket.rbp)
        case Got(i, e, q) =>
          if q == |s| then Failed(EndOfStream)
          else if s[q] != BracketClose then Failed(SyntaxError)
          else Took(Index(lhs, f - end, i), q + 1, q + 1)
        case Nothing(_) => Failed(SyntaxError)
        case Err(e) => Failed(e)
    else Declined(cur)
  }

  function LoopInfix(tab: BindingTable, s: seq<Token>, lhs: Cst, end: nat, cur: nat, m: int): (r: Outcome)
    requires end <= cur <= |s|
    ensures !r.Nothing?
    ensures r.Got? ==> end <= r.end <= r.cur <= |s|
    decreases |s| - cur, 0
  {
    if cur == |s| then Err(EndOfStream)
    else
      var f := Skip(s, cur);
      if f == |s| || InfixOpOf(s[f]).None? then Got(lhs, end, cur)
      else
        var op := InfixOpOf(s[f]).value;
        if tab.infix(op).lbp < m then Got(lhs, end, f)
        else
          match ParseExpr(tab, s, f + 1, tab.infix(op).rbp)
          case Got(r, e, q) => Loop(tab, s, Binary(lhs, f - end, op, r), e, q, m)
          case Nothing(_) => Err(SyntaxError)
          case Err(e) => Err(e)
  }

  /** A parenthesised expression, or an operand. Parentheses around nothing are consumed
      and the search for an operand goes on behind them. */
  function ParsePrefix(tab: BindingTable, s: seq<Token>, p: nat): (r: Outcome)
    requires p <= |s|
    ensures r.Got? ==> p < r.end <= r.cur <= |s|
    ensures r.Nothing? ==> p <= r.cur <= |s|
    decreases |s| - p, 3
  {
    if p == |s| then Err(EndOfStream)
    else if s[p] != ParenOpen then ParsePrimary(tab, s, p)
    else
      match ParseExpr(tab, s, p + 1, 0)
      case Err(e) => Err(e)
      case Got(c, e, q) =>
        if q == |s| then Err(EndOfStream)
        else if s[q] != ParenClose then Err(SyntaxError)
        else Got(Group(c), q + 1, q + 1)
      case Nothing(q) =>
        if q == |s| then Err(EndOfStream)
        else if s[q] != ParenClose then Err(SyntaxError)
        else
          match ParsePrimary(tab, s, q + 1)
          case Got(c, e, q') => Got(Hollow((q + 1 - p) / 2, c), e, q')
          case Nothing(q') => Nothing(q')
          case Err(e) => Err(e)
  }

  function ParsePrimary(tab: BindingTable, s: seq<Token>, p: nat): (r: Outcome)
    requires p <= |s|
    ensures r.Got? ==> p < r.end <= r.cur <= |s|
    ensures r.Nothing? ==> p == r.cur < |s|
    decreases |s| - p, 2
  {
    if p == |s| then Err(EndOfStream)
    else if PrefixOpOf(s[p]).Some? then
      var op := PrefixOpOf(s[p]).value;
      match ParseExpr(tab, s, p + 1, tab.prefix(op).rbp)
      case Got(c, e, q) => Got(Unary(op, c), e, q)
      case Nothing(_) => Err(SyntaxError)
      case Err(e) => Err(e)
    else if s[p].Lit? then Got(Leaf(s[p].lit), p + 1, p + 1)
    else if s[p] == BracketOpen then
      match ParseItems(tab, s, p + 1)
      case GotItems(es, q) =>
        if q == |s| then Err(EndOfStream)
        else if s[q] != BracketClose then Err(SyntaxError)
        else Got(Array(es), q + 1, q + 1)
      case ItemsErr(e) => Err(e)
    else if s[p] == Iota then Err(SyntaxError)
    else if s[p].Name? then
      if p + 1 == |s| then Err(EndOfStream)
      else if s[p + 1] != ParenOpen then Got(Ref(s[p].id), p + 1, p + 1)
      else
        match ParseItems(tab, s, p + 2)
        case GotItems(es, q) =>
          if q == |s| then Err(EndOfStream)
          else if s[q] != ParenClose then Err(SyntaxError)
          else Got(Call(s[p].id, es), q + 1, q + 1)
        case ItemsErr(e) => Err(e)
    else Nothing(p)
  }

  /** A comma-separated list of expressions, possibly empty. */
  function ParseItems(tab: BindingTable, s: seq<Token>, p: nat): (r: ItemsOutcome)
    requires p <= |s|
    ensures r.GotItems? ==> p <= r.cur <= |s|
    decreases |s| - p, 5
  {
    match ParseExpr(tab, s, p, 0)
    case Err(e) => ItemsErr(e)
    case Got(c, _, q) =>
      (match ParseTail(tab, s, q)
       case GotTail(t, q') => GotItems(Present(c, t), q')
       case TailErr(e) => ItemsErr(e))
    case Nothing(q) =>
      (match ParseTail(tab, s, q)
       case GotTail(t, q') => GotItems(Absent((q - p) / 2, t), q')
       case TailErr(e) => ItemsErr(e))
  }

  function ParseTail(tab: BindingTable, s: seq<Token>, p: nat): (r: TailOutcome)
    requires p <= |s|
    ensures r.GotTail? ==> p <= r.cur <= |s|
    decreases |s| - p, 0
  {
    if p == |s| || s[p] != Comma then GotTail(End, p)
    else
      var q := Skip(s, p + 1);
      match ParseExpr(tab, s, q, 0)
      case Err(e) => TailErr(e)
      case Nothing(_) => TailErr(SyntaxError)
      case Got(c, _, q') =>
        match ParseTail(tab, s, q')
        case GotTail(t, q'') => GotTail(More(q - (p + 1), c, t), q'')
        case TailErr(e) => TailErr(e)
  }
}
