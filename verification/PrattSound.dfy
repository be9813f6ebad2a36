/** Soundness: whatever the parser returns is a tree of the precedence grammar whose yield
    is exactly the tokens that were consumed. */
module PrattSound {
  import opened Ast
  import opened Tokens
  import opened Binding
  import opened PrattGrammar
  import opened PrattSpec

  ghost predicate Reads(s: seq<Token>, p: nat, c: Cst, end: nat) {
    end == p + Width(c) <= |s| && Spells(s, p, c)
  }

  function LookAt(s: seq<Token>, q: nat): Look
    requires q <= |s|
  {
    var f := Skip(s, q);
    Look(if q < |s| then Some(s[q]) else None, if f < |s| then Some(s[f]) else None)
  }

  /** Between the end of a tree and the cursor there are only newlines, and the cursor left
      the end of the tree only for an operator that it rejected. */
  ghost predicate Gap(s: seq<Token>, end: nat, cur: nat) {
    && end <= cur <= |s|
    && (forall i :: end <= i < cur ==> s[i] == Newline)
    && (end < cur ==> cur < |s| && IsOperator(s[cur]))
  }

  lemma SkipIs(s: seq<Token>, p: nat, q: nat)
    requires p <= q <= |s|
    requires forall i :: p <= i < q ==> s[i] == Newline
    requires q < |s| ==> s[q] != Newline
    ensures Skip(s, p) == q
  {
  }

  lemma SkipGap(s: seq<Token>, end: nat, cur: nat)
    requires Gap(s, end, cur)
    ensures Skip(s, end) == Skip(s, cur)
  {
    SkipIs(s, end, Skip(s, cur));
  }

  /** The result of reading `c` from `p` at minimum power `m`, with the cursor left at `cur`. */
  ghost predicate Sound(tab: BindingTable, s: seq<Token>, p: nat, c: Cst, end: nat, cur: nat, m: int) {
    && Reads(s, p, c, end) && Gap(s, end, cur)
    && Ok(tab, c, m) && Stop(tab, c, m, LookAt(s, end))
  }

  // ---- One construction step of the grammar each ---------------------------------------

  /** An operand that starts at `p`, as the operator loop at power `m` holds it. */
  ghost predicate Operand(tab: BindingTable, s: seq<Token>, p: nat, c: Cst, end: nat, cur: nat, m: int) {
    && Reads(s, p, c, end) && Gap(s, end, cur)
    && Ok(tab, c, m) && Edge(tab, c, LookAt(s, end))
  }

  lemma OperandGroup(tab: BindingTable, s: seq<Token>, p: nat, c: Cst, e: nat, m: int)
    requires Reads(s, p + 1, c, e) && Ok(tab, c, 0)
    requires e < |s| && s[p] == ParenOpen && s[e] == ParenClose
    ensures Operand(tab, s, p, Group(c), e + 1, e + 1, m)
  {
  }

  lemma OperandUnary(tab: BindingTable, s: seq<Token>, p: nat, op: PrefixOp, c: Cst, e: nat, q: nat, m: int)
    requires Sound(tab, s, p + 1, c, e, q, tab.prefix(op).rbp) && s[p] == PrefixToken(op)
    ensures Operand(tab, s, p, Unary(op, c), e, q, m)
  {
  }

  lemma HollowGrows(s: seq<Token>, p: nat, q: nat, k: nat)
    requires p + 1 <= q < |s| && s[p] == ParenOpen && s[q] == ParenClose
    requires q == p + 1 + 2 * k && HollowAt(s, p + 1, k)
    ensures HollowAt(s, p, k + 1)
  {
  }

  lemma OperandHollow(tab: BindingTable, s: seq<Token>, p: nat, k: nat, c: Cst, e: nat, q: nat, m: int)
    requires k > 0 && HollowAt(s, p, k)
    requires Operand(tab, s, p + 2 * k, c, e, q, m) && IsPrimary(c)
    ensures Operand(tab, s, p, Hollow(k, c), e, q, m)
  {
  }

  lemma OperandArray(tab: BindingTable, s: seq<Token>, p: nat, es: Items, q: nat, m: int)
    requires p < q < |s| && s[p] == BracketOpen && s[q] == BracketClose
    requires q == p + 1 + WidthItems(es) && SpellsItems(s, p + 1, es) && OkItems(tab, es)
    ensures Operand(tab, s, p, Array(es), q + 1, q + 1, m)
  {
    hide SpellsItems, OkItems, WidthItems, Stop;
  }

  lemma OperandCall(tab: BindingTable, s: seq<Token>, p: nat, f: string, es: Items, q: nat, m: int)
    requires p + 1 < q < |s| && s[p] == Name(f) && s[p + 1] == ParenOpen && s[q] == ParenClose
    requires q == p + 2 + WidthItems(es) && SpellsItems(s, p + 2, es) && OkItems(tab, es)
    ensures Operand(tab, s, p, Call(f, es), q + 1, q + 1, m)
  {
    hide SpellsItems, OkItems, WidthItems, Stop;
  }

  lemma LookBefore(s: seq<Token>, end: nat, f: nat)
    requires end <= f < |s| && Skip(s, end) == f
    ensures LookAt(s, end) == LookOp(f - end, s[f]) && NewlinesAt(s, end, f - end)
  {
  }

  lemma OperandBinary(tab: BindingTable, s: seq<Token>, p: nat, lhs: Cst, end: nat, f: nat, op: InfixOp,
      rhs: Cst, e: nat, q: nat, m: int)
    requires Operand(tab, s, p, lhs, end, f, m) && Skip(s, end) == f && f < |s| && s[f] == InfixToken(op)
    requires m <= tab.infix(op).lbp && Sound(tab, s, f + 1, rhs, e, q, tab.infix(op).rbp)
    ensures Operand(tab, s, p, Binary(lhs, f - end, op, rhs), e, q, m)
  {
    hide LoopStops, OkItems, SpellsItems, WidthItems, HollowAt, Skip;
    LookBefore(s, end, f);
  }

  lemma OperandMember(tab: BindingTable, s: seq<Token>, p: nat, lhs: Cst, end: nat, f: nat,
      rhs: Cst, e: nat, q: nat, m: int)
    requires Operand(tab, s, p, lhs, end, f, m) && Skip(s, end) == f && f < |s| && s[f] == Dot
    requires m <= tab.dot.lbp && !PostfixRooted(lhs) && Sound(tab, s, f + 1, rhs, e, q, tab.dot.rbp)
    ensures Operand(tab, s, p, Member(lhs, f - end, rhs), e, q, m)
  {
    hide LoopStops, OkItems, SpellsItems, WidthItems, HollowAt, Skip;
    LookBefore(s, end, f);
  }

  lemma OperandIndex(tab: BindingTable, s: seq<Token>, p: nat, lhs: Cst, end: nat, f: nat,
      i: Cst, e: nat, m: int)
    requires Operand(tab, s, p, lhs, end, f, m) && Skip(s, end) == f && f < |s| && s[f] == BracketOpen
    requires m <= tab.bracket.lbp && !PostfixRooted(lhs)
    requires Reads(s, f + 1, i, e) && Ok(tab, i, tab.bracket.rbp)
    requires e < |s| && s[e] == BracketClose
    ensures Operand(tab, s, p, Index(lhs, f - end, i), e + 1, e + 1, m)
  {
    hide LoopStops, OkItems, SpellsItems, WidthItems, HollowAt, Skip;
    LookBefore(s, end, f);
  }

  lemma GapMoves(s: seq<Token>, end: nat, cur: nat)
    requires Gap(s, end, cur) && Skip(s, cur) < |s| && IsOperator(s[Skip(s, cur)])
    ensures Gap(s, end, Skip(s, cur)) && Skip(s, end) == Skip(s, cur)
  {
    SkipGap(s, end, cur);
  }

  lemma GapAtCloser(s: seq<Token>, end: nat, cur: nat)
    requires Gap(s, end, cur) && cur < |s| && !IsOperator(s[cur])
    ensures end == cur
  {
  }

  // ---- The parser's functions ---------------------------------------------------------

  lemma {:induction false} SoundExpr(tab: BindingTable, s: seq<Token>, p: nat, m: int)
    requires p <= |s| && ParseExpr(tab, s, p, m).Got?
    ensures var r := ParseExpr(tab, s, p, m); Sound(tab, s, p, r.tree, r.end, r.cur, m)
    decreases |s| - p, 4
  {
    hide Ok, Edge, Spells, Loop, ParsePrefix;
    var r := ParsePrefix(tab, s, p);
    SoundPrefix(tab, s, p, m);
    SoundLoop(tab, s, p, r.tree, r.end, r.cur, m);
  }

  lemma {:induction false} SoundLoop(
      tab: BindingTable, s: seq<Token>, p: nat, lhs: Cst, end: nat, cur: nat, m: int)
    requires Operand(tab, s, p, lhs, end, cur, m) && !PostfixRooted(lhs)
    requires Loop(tab, s, lhs, end, cur, m).Got?
    ensures var r := Loop(tab, s, lhs, end, cur, m); Sound(tab, s, p, r.tree, r.end, r.cur, m)
    decreases |s| - cur, 1
  {
    hide Ok, Edge, Spells, ParsePostfix, LoopInfix;
    if cur < |s| {
      match ParsePostfix(tab, s, lhs, end, cur, m)
      case Declined(q) =>
        PostfixDeclined(tab, s, lhs, end, cur, m);
        SoundLoopInfix(tab, s, p, lhs, end, q, m);
      case Took(c, e, q) =>
        SoundPostfix(tab, s, p, lhs, end, cur, m);
        SoundLoopInfix(tab, s, p, c, e, q, m);
    }
  }

  /** A declined attempt moves the cursor at most to the rejected operator, where it is declined again. */
  lemma PostfixDeclined(tab: BindingTable, s: seq<Token>, lhs: Cst, end: nat, cur: nat, m: int)
    requires Gap(s, end, cur) && cur < |s| && ParsePostfix(tab, s, lhs, end, cur, m).Declined?
    ensures var q := ParsePostfix(tab, s, lhs, end, cur, m).cur;
      Gap(s, end, q) && q < |s| && ParsePostfix(tab, s, lhs, end, q, m).Declined?
  {
    hide ParseExpr;
  }

  lemma {:induction false} SoundPostfix(
      tab: BindingTable, s: seq<Token>, p: nat, lhs: Cst, end: nat, cur: nat, m: int)
    requires Operand(tab, s, p, lhs, end, cur, m) && !PostfixRooted(lhs)
    requires cur < |s| && ParsePostfix(tab, s, lhs, end, cur, m).Took?
    ensures var r := ParsePostfix(tab, s, lhs, end, cur, m);
      Operand(tab, s, p, r.tree, r.end, r.cur, m) && PostfixRooted(r.tree)
    decreases |s| - cur, 0
  {
    hide Ok, Edge, Spells, ParseExpr;
    GapMoves(s, end, cur);
    if s[Skip(s, cur)] == Dot {
      SoundMember(tab, s, p, lhs, end, cur, m);
    } else {
      SoundIndex(tab, s, p, lhs, end, cur, m);
    }
  }

  lemma {:induction false} SoundMember(
      tab: BindingTable, s: seq<Token>, p: nat, lhs: Cst, end: nat, cur: nat, m: int)
    requires Operand(tab, s, p, lhs, end, cur, m) && !PostfixRooted(lhs)
    requires cur < |s| && ParsePostfix(tab, s, lhs, end, cur, m).Took? && s[Skip(s, cur)] == Dot
    ensures var r := ParsePostfix(tab, s, lhs, end, cur, m);
      Operand(tab, s, p, r.tree, r.end, r.cur, m) && r.tree.Member?
    decreases |s| - cur, 0, 0
  {
    hide Ok, Edge, Spells, ParseExpr;
    var f := Skip(s, cur);
    GapMoves(s, end, cur);
    var r := ParseExpr(tab, s, f + 1, tab.dot.rbp);
    SoundExpr(tab, s, f + 1, tab.dot.rbp);
    OperandMember(tab, s, p, lhs, end, f, r.tree, r.end, r.cur, m);
  }

  lemma {:induction false} SoundIndex(
      tab: BindingTable, s: seq<Token>, p: nat, lhs: Cst, end: nat, cur: nat, m: int)
    requires Operand(tab, s, p, lhs, end, cur, m) && !PostfixRooted(lhs)
    requires cur < |s| && ParsePostfix(tab, s, lhs, end, cur, m).Took? && s[Skip(s, cur)] == BracketOpen
    ensures var r := ParsePostfix(tab, s, lhs, end, cur, m);
      Operand(tab, s, p, r.tree, r.end, r.cur, m) && r.tree.Index?
    decreases |s| - cur, 0, 0
  {
    hide Ok, Edge, Spells, ParseExpr, Stop, LookAt;
    var f := Skip(s, cur);
    GapMoves(s, end, cur);
    var i := ParseExpr(tab, s, f + 1, tab.bracket.rbp);
    SoundExpr(tab, s, f + 1, tab.bracket.rbp);
    GapAtCloser(s, i.end, i.cur);
    OperandIndex(tab, s, p, lhs, end, f, i.tree, i.end, m);
  }

  lemma {:induction false} SoundLoopInfix(
      tab: BindingTable, s: seq<Token>, p: nat, lhs: Cst, end: nat, cur: nat, m: int)
    requires Operand(tab, s, p, lhs, end, cur, m)
    requires !PostfixRooted(lhs) && cur < |s| ==> ParsePostfix(tab, s, lhs, end, cur, m).Declined?
    requires LoopInfix(tab, s, lhs, end, cur, m).Got?
    ensures var r := LoopInfix(tab, s, lhs, end, cur, m); Sound(tab, s, p, r.tree, r.end, r.cur, m)
    decreases |s| - cur, 0
  {
    hide Ok, Edge, Spells, ParseExpr, ParsePostfix, Loop;
    var f := Skip(s, cur);
    if f < |s| && InfixOpOf(s[f]).Some? && m <= tab.infix(InfixOpOf(s[f]).value).lbp {
      SoundBinary(tab, s, p, lhs, end, cur, m);
    } else {
      SoundLoopEnd(tab, s, p, lhs, end, cur, m);
    }
  }

  lemma {:induction false} SoundLoopEnd(
      tab: BindingTable, s: seq<Token>, p: nat, lhs: Cst, end: nat, cur: nat, m: int)
    requires Operand(tab, s, p, lhs, end, cur, m) && cur < |s|
    requires !PostfixRooted(lhs) ==> ParsePostfix(tab, s, lhs, end, cur, m).Declined?
    requires var f := Skip(s, cur);
      f < |s| && InfixOpOf(s[f]).Some? ==> tab.infix(InfixOpOf(s[f]).value).lbp < m
    ensures var r := LoopInfix(tab, s, lhs, end, cur, m);
      r.Got? && Sound(tab, s, p, r.tree, r.end, r.cur, m)
  {
    hide Ok, Edge, Spells, ParseExpr;
    SkipGap(s, end, cur);
    if !PostfixRooted(lhs) { PostfixLeftAlone(tab, s, lhs, end, cur, m); }
    var q := InfixLeftAlone(tab, s, lhs, end, cur, m);
    hide ParsePostfix, LoopInfix, Skip;
  }

  lemma InfixLeftAlone(tab: BindingTable, s: seq<Token>, lhs: Cst, end: nat, cur: nat, m: int) returns (q: nat)
    requires Gap(s, end, cur) && cur < |s|
    requires var f := Skip(s, cur);
      f < |s| && InfixOpOf(s[f]).Some? ==> tab.infix(InfixOpOf(s[f]).value).lbp < m
    ensures Gap(s, end, q) && LoopInfix(tab, s, lhs, end, cur, m) == Got(lhs, end, q)
  {
    hide ParseExpr;
    SkipGap(s, end, cur);
    var f := Skip(s, cur);
    q := if f < |s| && InfixOpOf(s[f]).Some? then f else cur;
  }

  /** A postfix operator that is not taken binds too weakly. */
  lemma PostfixLeftAlone(tab: BindingTable, s: seq<Token>, lhs: Cst, end: nat, cur: nat, m: int)
    requires end <= cur < |s| && ParsePostfix(tab, s, lhs, end, cur, m).Declined?
    ensures var f := Skip(s, cur);
      f < |s| ==> (s[f] == Dot ==> tab.dot.lbp < m) && (s[f] == BracketOpen ==> tab.bracket.lbp < m)
  {
    hide ParseExpr;
  }

  lemma {:induction false} SoundBinary(
      tab: BindingTable, s: seq<Token>, p: nat, lhs: Cst, end: nat, cur: nat, m: int)
    requires Operand(tab, s, p, lhs, end, cur, m)
    requires LoopInfix(tab, s, lhs, end, cur, m).Got?
    requires var f := Skip(s, cur);
      f < |s| && InfixOpOf(s[f]).Some? && m <= tab.infix(InfixOpOf(s[f]).value).lbp
    ensures var r := LoopInfix(tab, s, lhs, end, cur, m); Sound(tab, s, p, r.tree, r.end, r.cur, m)
    decreases |s| - cur, 0, 0
  {
    hide Ok, Edge, Spells, ParseExpr, Loop, Stop, LookAt, Width;
    var f := Skip(s, cur);
    var op := InfixOpOf(s[f]).value;
    GapMoves(s, end, cur);
    var rhs := ParseExpr(tab, s, f + 1, tab.infix(op).rbp);
    var tree := Binary(lhs, f - end, op, rhs.tree);
    assert LoopInfix(tab, s, lhs, end, cur, m) == Loop(tab, s, tree, rhs.end, rhs.cur, m);
    SoundExpr(tab, s, f + 1, tab.infix(op).rbp);
    OperandBinary(tab, s, p, lhs, end, f, op, rhs.tree, rhs.end, rhs.cur, m);
    SoundLoop(tab, s, p, tree, rhs.end, rhs.cur, m);
  }

  lemma {:induction false} SoundPrefix(tab: BindingTable, s: seq<Token>, p: nat, m: int)
    requires p <= |s| && ParsePrefix(tab, s, p).Got?
    ensures var r := ParsePrefix(tab, s, p);
      Operand(tab, s, p, r.tree, r.end, r.cur, m) && IsBase(r.tree)
    decreases |s| - p, 3
  {
    hide Ok, Edge, Spells, ParseExpr, ParsePrimary, Skip, Stop;
    if s[p] != ParenOpen {
      SoundPrimary(tab, s, p, m);
    } else if ParseExpr(tab, s, p + 1, 0).Got? {
      var r := ParseExpr(tab, s, p + 1, 0);
      SoundExpr(tab, s, p + 1, 0);
      OperandGroup(tab, s, p, r.tree, r.end, m);
    } else {
      SoundHollow(tab, s, p, m);
    }
  }

  lemma {:induction false} SoundHollow(tab: BindingTable, s: seq<Token>, p: nat, m: int)
    requires p < |s| && s[p] == ParenOpen
    requires ParsePrefix(tab, s, p).Got? && ParseExpr(tab, s, p + 1, 0).Nothing?
    ensures var r := ParsePrefix(tab, s, p);
      Operand(tab, s, p, r.tree, r.end, r.cur, m) && IsBase(r.tree)
    decreases |s| - p, 2
  {
    hide Ok, Edge, Spells, ParseExpr, ParsePrimary, HollowAt;
    var q := ParseExpr(tab, s, p + 1, 0).cur;
    var r := ParsePrimary(tab, s, q + 1);
    assert q < |s| && s[q] == ParenClose && r.Got?;
    SoundNothing(tab, s, p + 1, 0);
    HollowGrows(s, p, q, (q - (p + 1)) / 2);
    SoundPrimary(tab, s, q + 1, m);
    OperandHollow(tab, s, p, (q + 1 - p) / 2, r.tree, r.end, r.cur, m);
  }

  lemma {:induction false} SoundNothing(tab: BindingTable, s: seq<Token>, p: nat, m: int)
    requires p <= |s| && ParseExpr(tab, s, p, m).Nothing?
    ensures var q := ParseExpr(tab, s, p, m).cur;
      (q - p) % 2 == 0 && HollowAt(s, p, (q - p) / 2)
    decreases |s| - p
  {
    hide Loop, ParseItems;
    if s[p] == ParenOpen {
      var q := ParseExpr(tab, s, p + 1, 0).cur;
      SoundNothing(tab, s, p + 1, 0);
      HollowGrows(s, p, q, (q - (p + 1)) / 2);
    }
  }

  lemma {:induction false} SoundPrimary(tab: BindingTable, s: seq<Token>, p: nat, m: int)
    requires p <= |s| && ParsePrimary(tab, s, p).Got?
    ensures var r := ParsePrimary(tab, s, p);
      Operand(tab, s, p, r.tree, r.end, r.cur, m) && IsPrimary(r.tree)
    decreases |s| - p, 2
  {
    hide Ok, Edge, Spells, ParseExpr, ParseItems;
    if PrefixOpOf(s[p]).Some? {
      SoundUnary(tab, s, p, m);
    } else if s[p] == BracketOpen {
      SoundArray(tab, s, p, m);
    } else if s[p].Name? && s[p + 1] == ParenOpen {
      SoundCall(tab, s, p, m);
    } else {
      SoundAtom(tab, s, p, m);
    }
  }

  lemma SoundAtom(tab: BindingTable, s: seq<Token>, p: nat, m: int)
    requires p < |s| && ParsePrimary(tab, s, p).Got? && PrefixOpOf(s[p]).None? && s[p] != BracketOpen
    requires s[p].Name? && p + 1 < |s| ==> s[p + 1] != ParenOpen
    ensures var r := ParsePrimary(tab, s, p);
      Operand(tab, s, p, r.tree, r.end, r.cur, m) && (r.tree.Leaf? || r.tree.Ref?)
  {
    hide ParseExpr, ParseItems;
  }

  lemma {:induction false} SoundUnary(tab: BindingTable, s: seq<Token>, p: nat, m: int)
    requires p < |s| && ParsePrimary(tab, s, p).Got? && PrefixOpOf(s[p]).Some?
    ensures var r := ParsePrimary(tab, s, p);
      Operand(tab, s, p, r.tree, r.end, r.cur, m) && r.tree.Unary?
    decreases |s| - p, 1
  {
    hide Ok, Edge, Spells, ParseExpr, ParseItems;
    var op := PrefixOpOf(s[p]).value;
    var r := ParseExpr(tab, s, p + 1, tab.prefix(op).rbp);
    SoundExpr(tab, s, p + 1, tab.prefix(op).rbp);
    OperandUnary(tab, s, p, op, r.tree, r.end, r.cur, m);
  }

  lemma {:induction false} SoundArray(tab: BindingTable, s: seq<Token>, p: nat, m: int)
    requires p < |s| && ParsePrimary(tab, s, p).Got? && s[p] == BracketOpen
    ensures var r := ParsePrimary(tab, s, p);
      Operand(tab, s, p, r.tree, r.end, r.cur, m) && r.tree.Array?
    decreases |s| - p, 1
  {
    hide Ok, Edge, Spells, ParseExpr, ParseItems;
    var es := ParseItems(tab, s, p + 1);
    SoundItems(tab, s, p + 1);
    OperandArray(tab, s, p, es.items, es.cur, m);
  }

  lemma {:induction false} SoundCall(tab: BindingTable, s: seq<Token>, p: nat, m: int)
    requires p + 1 < |s| && ParsePrimary(tab, s, p).Got? && s[p].Name? && s[p + 1] == ParenOpen
    ensures var r := ParsePrimary(tab, s, p);
      Operand(tab, s, p, r.tree, r.end, r.cur, m) && r.tree.Call?
    decreases |s| - p, 1
  {
    hide Ok, Edge, Spells, ParseExpr, ParseItems;
    var es := ParseItems(tab, s, p + 2);
    SoundItems(tab, s, p + 2);
    OperandCall(tab, s, p, s[p].id, es.items, es.cur, m);
  }

  lemma {:induction false} SoundItems(tab: BindingTable, s: seq<Token>, p: nat)
    requires p <= |s| && ParseItems(tab, s, p).GotItems?
    requires var q := ParseItems(tab, s, p).cur; q < |s| && IsCloser(s[q])
    ensures var r := ParseItems(tab, s, p);
      r.cur == p + WidthItems(r.items) && SpellsItems(s, p, r.items) && OkItems(tab, r.items)
    decreases |s| - p, 5
  {
    hide Ok, Edge, Spells, ParseExpr, ParseTail, HollowAt;
    var h := ParseExpr(tab, s, p, 0);
    var t := ParseTail(tab, s, h.cur);
    if h.Got? {
      SoundExpr(tab, s, p, 0);
      SoundTail(tab, s, h.end, h.cur);
    } else {
      SoundNothing(tab, s, p, 0);
      SoundTail(tab, s, h.cur, h.cur);
    }
  }

  lemma {:induction false} SoundTail(tab: BindingTable, s: seq<Token>, end: nat, p: nat)
    requires Gap(s, end, p) && ParseTail(tab, s, p).GotTail?
    requires var q := ParseTail(tab, s, p).cur; q < |s| && IsCloser(s[q])
    ensures var r := ParseTail(tab, s, p);
      end == p && r.cur == p + WidthTail(r.tail) && SpellsTail(s, p, r.tail) && OkTail(tab, r.tail)
    decreases |s| - p, 0
  {
    hide Ok, Edge, Spells, ParseExpr, Stop, LookAt, Width;
    if s[p] == Comma {
      var q := Skip(s, p + 1);
      var h := ParseExpr(tab, s, q, 0);
      SoundExpr(tab, s, q, 0);
      SoundTail(tab, s, h.end, h.cur);
      var t := ParseTail(tab, s, h.cur);
    }
  }
}
