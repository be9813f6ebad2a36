/** Completeness: every tree of the precedence grammar is read back, exactly, from its own
    tokens. The heart is `Spine`: parsing from the start of a tree is the same as resuming the
    operator loop behind it with the whole tree as left operand. */
module PrattComplete {
  import opened Ast
  import opened Tokens
  import opened Binding
  import opened PrattGrammar
  import opened PrattSpec
  import opened PrattSound

  /** The operator loop as it stands right behind `c`. */
  function Resume(tab: BindingTable, s: seq<Token>, c: Cst, end: nat, cur: nat, m: int): Outcome
    requires end <= cur <= |s|
  {
    if PostfixRooted(c) then LoopInfix(tab, s, c, end, cur, m) else Loop(tab, s, c, end, cur, m)
  }

  predicate StartsOperand(t: Token) {
    PrefixOpOf(t).Some? || t.Lit? || t.Name? || t == BracketOpen || t == ParenOpen || t == Iota
  }

  lemma {:induction false} FirstToken(s: seq<Token>, p: nat, c: Cst)
    requires Spells(s, p, c) && (c.Hollow? ==> c.depth > 0 || true)
    ensures p < |s| && s[p] != Newline
    decreases c
  {
    match c
    case Hollow(k, e) => if k == 0 { FirstToken(s, p, e); }
    case Binary(l, _, _, _) => FirstToken(s, p, l);
    case Member(l, _, _) => FirstToken(s, p, l);
    case Index(l, _, _) => FirstToken(s, p, l);
    case _ =>
  }

  lemma CloserEnds(t: Token)
    requires IsCloser(t)
    ensures EndsOperators(t)
  {
  }

  lemma LookClosed(s: seq<Token>, q: nat)
    requires q < |s| && EndsOperators(s[q])
    ensures Closed(LookAt(s, q))
  {
  }

  lemma {:induction false} HollowNothing(tab: BindingTable, s: seq<Token>, p: nat, k: nat, m: int)
    requires HollowAt(s, p, k) && p + 2 * k < |s| && !StartsOperand(s[p + 2 * k])
    ensures ParseExpr(tab, s, p, m) == Nothing(p + 2 * k)
    decreases k
  {
    hide ParseItems, Loop;
    if k == 0 {
      assert ParsePrimary(tab, s, p) == Nothing(p);
    } else {
      HollowNothing(tab, s, p + 1, k - 1, 0);
      assert ParsePrimary(tab, s, p + 2 * k) == Nothing(p + 2 * k);
    }
    assert ParsePrefix(tab, s, p) == Nothing(p + 2 * k);
  }

  lemma StopResume(tab: BindingTable, s: seq<Token>, c: Cst, end: nat, cur: nat, m: int)
    returns (cur': nat)
    requires Gap(s, end, cur) && Stop(tab, c, m, LookAt(s, end))
    ensures Gap(s, end, cur') && Resume(tab, s, c, end, cur, m) == Got(c, end, cur')
  {
    hide Edge, ParseExpr;
    if cur == |s| || PostfixRooted(c) {
      cur' := StopResumeRooted(tab, s, c, end, cur, m);
    } else {
      cur' := StopResumeOpen(tab, s, c, end, cur, m);
    }
  }

  lemma StopResumeRooted(tab: BindingTable, s: seq<Token>, c: Cst, end: nat, cur: nat, m: int)
    returns (cur': nat)
    requires Gap(s, end, cur) && Stop(tab, c, m, LookAt(s, end)) && (cur == |s| || PostfixRooted(c))
    ensures Gap(s, end, cur') && Resume(tab, s, c, end, cur, m) == Got(c, end, cur')
  {
    SkipGap(s, end, cur);
    var f := Skip(s, cur);
    cur' := if f < |s| && InfixOpOf(s[f]).Some? then f else cur;
    hide Edge, ParseExpr, ParsePostfix;
    if cur < |s| { assert LoopInfix(tab, s, c, end, cur, m) == Got(c, end, cur'); }
  }

  lemma StopResumeOpen(tab: BindingTable, s: seq<Token>, c: Cst, end: nat, cur: nat, m: int)
    returns (cur': nat)
    requires Gap(s, end, cur) && Stop(tab, c, m, LookAt(s, end)) && cur < |s| && !PostfixRooted(c)
    ensures Gap(s, end, cur') && Resume(tab, s, c, end, cur, m) == Got(c, end, cur')
  {
    SkipGap(s, end, cur);
    var q := PostfixDeclines(tab, s, c, end, cur, m);
    SkipGap(s, end, q);
    cur' := InfixStops(tab, s, c, end, q, m);
    hide LoopInfix, ParsePostfix, Stop, LookAt, Skip;
  }

  lemma PostfixDeclines(tab: BindingTable, s: seq<Token>, c: Cst, end: nat, cur: nat, m: int) returns (q: nat)
    requires Gap(s, end, cur) && Stop(tab, c, m, LookAt(s, end)) && cur < |s| && !PostfixRooted(c)
    ensures Gap(s, end, q) && ParsePostfix(tab, s, c, end, cur, m) == Declined(q)
  {
    SkipGap(s, end, cur);
    var f := Skip(s, cur);
    q := if f < |s| && (s[f] == Dot || s[f] == BracketOpen) then f else cur;
    hide Edge, ParseExpr;
  }

  lemma InfixStops(tab: BindingTable, s: seq<Token>, c: Cst, end: nat, cur: nat, m: int) returns (cur': nat)
    requires Gap(s, end, cur) && Stop(tab, c, m, LookAt(s, end)) && cur < |s|
    ensures Gap(s, end, cur') && LoopInfix(tab, s, c, end, cur, m) == Got(c, end, cur')
  {
    SkipGap(s, end, cur);
    var f := Skip(s, cur);
    cur' := if f < |s| && InfixOpOf(s[f]).Some? then f else cur;
    hide Edge, ParseExpr, ParsePostfix;
  }

  lemma {:induction false} Complete(tab: BindingTable, s: seq<Token>, p: nat, c: Cst, m: int)
    returns (cur: nat)
    requires p + Width(c) <= |s| && Spells(s, p, c) && Ok(tab, c, m)
    requires Stop(tab, c, m, LookAt(s, p + Width(c)))
    ensures Gap(s, p + Width(c), cur) && ParseExpr(tab, s, p, m) == Got(c, p + Width(c), cur)
    decreases c, 3
  {
    hide Spells, Ok, Edge, ParseExpr, Resume, LoopStops;
    var q := Spine(tab, s, p, c, m);
    cur := StopResume(tab, s, c, p + Width(c), q, m);
  }

  /** As `Complete`, in front of a token that ends every operator loop: the cursor stops right there. */
  lemma {:induction false} CompleteClosed(tab: BindingTable, s: seq<Token>, p: nat, c: Cst, m: int)
    requires p + Width(c) < |s| && Spells(s, p, c) && Ok(tab, c, m) && EndsOperators(s[p + Width(c)])
    ensures ParseExpr(tab, s, p, m) == Got(c, p + Width(c), p + Width(c))
    decreases c, 4
  {
    hide Spells, Ok, Edge, ParseExpr, LoopStops;
    var q := p + Width(c);
    LookClosed(s, q);
    StopAtClosed(tab, c, m, LookAt(s, q));
    var cur := Complete(tab, s, p, c, m);
  }

  lemma {:induction false} Spine(tab: BindingTable, s: seq<Token>, p: nat, c: Cst, m: int)
    returns (cur: nat)
    requires p + Width(c) <= |s| && Spells(s, p, c) && Ok(tab, c, m)
    requires Edge(tab, c, LookAt(s, p + Width(c)))
    ensures Gap(s, p + Width(c), cur)
    ensures ParseExpr(tab, s, p, m) == Resume(tab, s, c, p + Width(c), cur, m)
    decreases c, 2
  {
    hide Spells, Ok, Edge, Loop, LoopInfix, LookAt;
    if c.Binary? {
      cur := SpineOfBinary(tab, s, p, c, m);
    } else if c.Member? {
      cur := SpineOfMember(tab, s, p, c, m);
    } else if c.Index? {
      cur := SpineOfIndex(tab, s, p, c, m);
    } else {
      cur := BaseComplete(tab, s, p, c, m);
    }
  }

  lemma BinaryParts(tab: BindingTable, s: seq<Token>, p: nat, c: Cst, m: int)
    requires c.Binary? && Spells(s, p, c) && Ok(tab, c, m)
    ensures var q := p + Width(c.left);
      Spells(s, p, c.left) && NewlinesAt(s, q, c.gap) && TokenAt(s, q + c.gap, InfixToken(c.op))
      && Spells(s, q + c.gap + 1, c.right)
    ensures m <= tab.infix(c.op).lbp && Ok(tab, c.left, m) && Ok(tab, c.right, tab.infix(c.op).rbp)
    ensures Edge(tab, c.left, LookOp(c.gap, InfixToken(c.op)))
  {
    hide Edge, NewlinesAt;
  }

  lemma MemberParts(tab: BindingTable, s: seq<Token>, p: nat, c: Cst, m: int)
    requires c.Member? && Spells(s, p, c) && Ok(tab, c, m)
    ensures var q := p + Width(c.left);
      Spells(s, p, c.left) && NewlinesAt(s, q, c.gap) && TokenAt(s, q + c.gap, Dot)
      && Spells(s, q + c.gap + 1, c.right)
    ensures m <= tab.dot.lbp && Ok(tab, c.left, m) && Ok(tab, c.right, tab.dot.rbp)
    ensures !PostfixRooted(c.left) && Edge(tab, c.left, LookOp(c.gap, Dot))
  {
    hide Edge, NewlinesAt;
  }

  lemma IndexParts(tab: BindingTable, s: seq<Token>, p: nat, c: Cst, m: int)
    requires c.Index? && Spells(s, p, c) && Ok(tab, c, m)
    ensures var q := p + Width(c.left);
      Spells(s, p, c.left) && NewlinesAt(s, q, c.gap) && TokenAt(s, q + c.gap, BracketOpen)
      && Spells(s, q + c.gap + 1, c.index)
      && TokenAt(s, q + c.gap + 1 + Width(c.index), BracketClose)
    ensures m <= tab.bracket.lbp && Ok(tab, c.left, m) && Ok(tab, c.index, tab.bracket.rbp)
    ensures !PostfixRooted(c.left) && Edge(tab, c.left, LookOp(c.gap, BracketOpen))
  {
    hide Edge, NewlinesAt, SpellsItems, OkItems, HollowAt;
  }

  lemma {:induction false} SpineOfBinary(tab: BindingTable, s: seq<Token>, p: nat, c: Cst, m: int)
    returns (cur: nat)
    requires c.Binary? && p + Width(c) <= |s| && Spells(s, p, c) && Ok(tab, c, m)
    requires Edge(tab, c, LookAt(s, p + Width(c)))
    ensures Gap(s, p + Width(c), cur)
    ensures ParseExpr(tab, s, p, m) == Resume(tab, s, c, p + Width(c), cur, m)
    decreases c, 1, 1
  {
    hide ParseExpr, Resume, LookAt, Spells, Ok, Stop;
    BinaryParts(tab, s, p, c, m);
    cur := SpineBinary(tab, s, p, c.left, c.gap, c.op, c.right, m);
  }

  lemma {:induction false} SpineOfMember(tab: BindingTable, s: seq<Token>, p: nat, c: Cst, m: int)
    returns (cur: nat)
    requires c.Member? && p + Width(c) <= |s| && Spells(s, p, c) && Ok(tab, c, m)
    requires Edge(tab, c, LookAt(s, p + Width(c)))
    ensures Gap(s, p + Width(c), cur)
    ensures ParseExpr(tab, s, p, m) == Resume(tab, s, c, p + Width(c), cur, m)
    decreases c, 1, 1
  {
    hide ParseExpr, Resume, LookAt, Spells, Ok, Stop;
    MemberParts(tab, s, p, c, m);
    cur := SpineMember(tab, s, p, c.left, c.gap, c.right, m);
  }

  lemma {:induction false} SpineOfIndex(tab: BindingTable, s: seq<Token>, p: nat, c: Cst, m: int)
    returns (cur: nat)
    requires c.Index? && p + Width(c) <= |s| && Spells(s, p, c) && Ok(tab, c, m)
    requires Edge(tab, c, LookAt(s, p + Width(c)))
    ensures Gap(s, p + Width(c), cur)
    ensures ParseExpr(tab, s, p, m) == Resume(tab, s, c, p + Width(c), cur, m)
    decreases c, 1, 1
  {
    hide ParseExpr, Resume, LookAt, Spells, Ok, Stop;
    IndexParts(tab, s, p, c, m);
    cur := SpineIndex(tab, s, p, c.left, c.gap, c.index, m);
  }

  /** The look-ahead behind a left operand with an operator `gap` newlines further on. */
  lemma LookAtOperator(s: seq<Token>, end: nat, gap: nat, t: Token)
    requires NewlinesAt(s, end, gap) && TokenAt(s, end + gap, t) && t != Newline
    ensures LookAt(s, end) == LookOp(gap, t) && Skip(s, end) == end + gap
  {
    SkipIs(s, end, end + gap);
  }

  lemma OperatorIsNoNewline(op: InfixOp)
    ensures InfixToken(op) != Newline
  {}

  lemma {:induction false} SpineBinary(
      tab: BindingTable, s: seq<Token>, p: nat, l: Cst, g: nat, op: InfixOp, r: Cst, m: int)
    returns (cur: nat)
    requires Spells(s, p, l) && Ok(tab, l, m) && Edge(tab, l, LookOp(g, InfixToken(op)))
    requires m <= tab.infix(op).lbp
    requires NewlinesAt(s, p + Width(l), g) && TokenAt(s, p + Width(l) + g, InfixToken(op))
    requires var f := p + Width(l) + g;
      f + 1 + Width(r) <= |s| && Spells(s, f + 1, r) && Ok(tab, r, tab.infix(op).rbp)
      && Stop(tab, r, tab.infix(op).rbp, LookAt(s, f + 1 + Width(r)))
    ensures Gap(s, p + Width(l) + g + 1 + Width(r), cur)
    ensures ParseExpr(tab, s, p, m) == Resume(tab, s, Binary(l, g, op, r), p + Width(l) + g + 1 + Width(r), cur, m)
    decreases Binary(l, g, op, r), 1, 0
  {
    hide ParseExpr, Resume, LookAt, Spells, Ok, Edge, Stop, Width, InfixToken, InfixOpOf, LoopStops, Erase, Yield;
    var end, t := p + Width(l), InfixToken(op);
    OperatorIsNoNewline(op);
    LookAtOperator(s, end, g, t);
    hide NewlinesAt, Skip;
    var q := Spine(tab, s, p, l, m);
    SkipGap(s, end, q);
    cur := Complete(tab, s, end + g + 1, r, tab.infix(op).rbp);
    ResumeBinary(tab, s, Binary(l, g, op, r), end, q, end + g + 1 + Width(r), cur, m);
  }

  lemma ResumeBinary(tab: BindingTable, s: seq<Token>, c: Cst, end: nat, cur: nat, end': nat, cur': nat, m: int)
    requires c.Binary? && end <= cur <= |s| && m <= tab.infix(c.op).lbp
    requires end + c.gap < |s| && s[end + c.gap] == InfixToken(c.op) && Skip(s, cur) == end + c.gap
    requires end' <= cur' <= |s|
    requires ParseExpr(tab, s, end + c.gap + 1, tab.infix(c.op).rbp) == Got(c.right, end', cur')
    ensures Resume(tab, s, c.left, end, cur, m) == Resume(tab, s, c, end', cur', m)
  {
    hide ParseExpr;
    assert InfixOpOf(InfixToken(c.op)) == Some(c.op);
    assert LoopInfix(tab, s, c.left, end, cur, m) == Loop(tab, s, c, end', cur', m);
    if !PostfixRooted(c.left) {
      assert ParsePostfix(tab, s, c.left, end, cur, m) == Declined(cur);
    }
  }

  lemma {:induction false} SpineMember(
      tab: BindingTable, s: seq<Token>, p: nat, l: Cst, g: nat, r: Cst, m: int)
    returns (cur: nat)
    requires Spells(s, p, l) && Ok(tab, l, m) && Edge(tab, l, LookOp(g, Dot))
    requires m <= tab.dot.lbp && !PostfixRooted(l)
    requires NewlinesAt(s, p + Width(l), g) && TokenAt(s, p + Width(l) + g, Dot)
    requires var f := p + Width(l) + g;
      f + 1 + Width(r) <= |s| && Spells(s, f + 1, r) && Ok(tab, r, tab.dot.rbp)
      && Stop(tab, r, tab.dot.rbp, LookAt(s, f + 1 + Width(r)))
    ensures Gap(s, p + Width(l) + g + 1 + Width(r), cur)
    ensures ParseExpr(tab, s, p, m) == Resume(tab, s, Member(l, g, r), p + Width(l) + g + 1 + Width(r), cur, m)
    decreases Member(l, g, r), 1, 0
  {
    hide ParseExpr, Resume, LookAt, Spells, Ok, Edge, Stop, Width;
    var end := p + Width(l);
    LookAtOperator(s, end, g, Dot);
    var q := Spine(tab, s, p, l, m);
    SkipGap(s, end, q);
    cur := Complete(tab, s, end + g + 1, r, tab.dot.rbp);
    ResumeMember(tab, s, Member(l, g, r), end, q, end + g + 1 + Width(r), cur, m);
  }

  lemma ResumeMember(tab: BindingTable, s: seq<Token>, c: Cst, end: nat, cur: nat, end': nat, cur': nat, m: int)
    requires c.Member? && !PostfixRooted(c.left) && end <= cur <= |s| && m <= tab.dot.lbp
    requires end + c.gap < |s| && s[end + c.gap] == Dot && Skip(s, cur) == end + c.gap
    requires end' <= cur' <= |s|
    requires ParseExpr(tab, s, end + c.gap + 1, tab.dot.rbp) == Got(c.right, end', cur')
    ensures Resume(tab, s, c.left, end, cur, m) == Resume(tab, s, c, end', cur', m)
  {
    hide ParseExpr, LoopInfix;
    assert ParsePostfix(tab, s, c.left, end, cur, m) == Took(c, end', cur');
  }

  lemma {:induction false} SpineIndex(
      tab: BindingTable, s: seq<Token>, p: nat, l: Cst, g: nat, i: Cst, m: int)
    returns (cur: nat)
    requires Spells(s, p, l) && Ok(tab, l, m) && Edge(tab, l, LookOp(g, BracketOpen))
    requires m <= tab.bracket.lbp && !PostfixRooted(l)
    requires NewlinesAt(s, p + Width(l), g) && TokenAt(s, p + Width(l) + g, BracketOpen)
    requires var f := p + Width(l) + g;
      Spells(s, f + 1, i) && Ok(tab, i, tab.bracket.rbp) && TokenAt(s, f + 1 + Width(i), BracketClose)
    ensures Gap(s, p + Width(l) + g + 1 + Width(i) + 1, cur)
    ensures ParseExpr(tab, s, p, m) == Resume(tab, s, Index(l, g, i), p + Width(l) + g + 1 + Width(i) + 1, cur, m)
    decreases Index(l, g, i), 1, 0
  {
    hide ParseExpr, Resume, LookAt, Spells, Ok, Edge, Stop, EndsOperators, Width;
    var end := p + Width(l);
    CloserEnds(BracketClose);
    LookAtOperator(s, end, g, BracketOpen);
    var q := Spine(tab, s, p, l, m);
    SkipGap(s, end, q);
    CompleteClosed(tab, s, end + g + 1, i, tab.bracket.rbp);
    cur := end + g + 1 + Width(i) + 1;
    ResumeIndex(tab, s, Index(l, g, i), end, q, cur - 1, m);
  }

  lemma ResumeIndex(tab: BindingTable, s: seq<Token>, c: Cst, end: nat, cur: nat, e: nat, m: int)
    requires c.Index? && !PostfixRooted(c.left) && end <= cur <= |s| && m <= tab.bracket.lbp
    requires end + c.gap < |s| && s[end + c.gap] == BracketOpen && Skip(s, cur) == end + c.gap
    requires e < |s| && s[e] == BracketClose
    requires ParseExpr(tab, s, end + c.gap + 1, tab.bracket.rbp) == Got(c.index, e, e)
    ensures Resume(tab, s, c.left, end, cur, m) == Resume(tab, s, c, e + 1, e + 1, m)
  {
    hide ParseExpr, LoopInfix;
    assert ParsePostfix(tab, s, c.left, end, cur, m) == Took(c, e + 1, e + 1);
  }

  lemma {:induction false} BaseComplete(tab: BindingTable, s: seq<Token>, p: nat, c: Cst, m: int)
    returns (cur: nat)
    requires IsBase(c) && p + Width(c) <= |s| && Spells(s, p, c) && Ok(tab, c, m)
    requires Edge(tab, c, LookAt(s, p + Width(c)))
    ensures Gap(s, p + Width(c), cur) && ParsePrefix(tab, s, p) == Got(c, p + Width(c), cur)
    decreases c, 1
  {
    hide LookAt, ParseExpr;
    if c.Group? {
      GroupComplete(tab, s, p, c, m);
      cur := p + Width(c);
    } else if c.Hollow? {
      cur := HollowComplete(tab, s, p, c.depth, c.primary, m);
    } else {
      cur := PrimaryComplete(tab, s, p, c, m);
    }
  }

  lemma {:induction false} GroupComplete(tab: BindingTable, s: seq<Token>, p: nat, c: Cst, m: int)
    requires c.Group? && p + Width(c) <= |s| && Spells(s, p, c) && Ok(tab, c, m)
    ensures ParsePrefix(tab, s, p) == Got(c, p + Width(c), p + Width(c))
    decreases c, 0
  {
    hide ParseExpr, EndsOperators, Spells, Ok;
    GroupParts(tab, s, p, c, m);
    CloserEnds(ParenClose);
    CompleteClosed(tab, s, p + 1, c.inner, 0);
  }

  lemma GroupParts(tab: BindingTable, s: seq<Token>, p: nat, c: Cst, m: int)
    requires c.Group? && p + Width(c) <= |s| && Spells(s, p, c) && Ok(tab, c, m)
    ensures TokenAt(s, p, ParenOpen) && Spells(s, p + 1, c.inner) && Ok(tab, c.inner, 0)
    ensures TokenAt(s, p + 1 + Width(c.inner), ParenClose) && Width(c) == Width(c.inner) + 2
  {
    hide Edge;
  }

  lemma {:induction false} HollowComplete(tab: BindingTable, s: seq<Token>, p: nat, k: nat, c: Cst, m: int)
    returns (cur: nat)
    requires k > 0 && IsPrimary(c) && HollowAt(s, p, k)
    requires p + 2 * k + Width(c) <= |s| && Spells(s, p + 2 * k, c) && Ok(tab, c, m)
    requires Edge(tab, c, LookAt(s, p + 2 * k + Width(c)))
    ensures var e := p + 2 * k + Width(c);
      Gap(s, e, cur) && ParsePrefix(tab, s, p) == Got(Hollow(k, c), e, cur)
    decreases Hollow(k, c), 0
  {
    hide ParsePrimary, ParseExpr, LookAt, Spells, Ok, Edge;
    cur := PrimaryComplete(tab, s, p + 2 * k, c, m);
    assert s[p] == ParenOpen && s[p + 2 * k - 1] == ParenClose;
    HollowNothing(tab, s, p + 1, k - 1, 0);
  }

  lemma {:induction false} PrimaryComplete(tab: BindingTable, s: seq<Token>, p: nat, c: Cst, m: int)
    returns (cur: nat)
    requires IsPrimary(c) && p + Width(c) <= |s| && Spells(s, p, c) && Ok(tab, c, m)
    requires Edge(tab, c, LookAt(s, p + Width(c)))
    ensures Gap(s, p + Width(c), cur) && ParsePrimary(tab, s, p) == Got(c, p + Width(c), cur)
    ensures p < |s| && s[p] != ParenOpen
    decreases c, 0
  {
    hide ParseExpr, ParseItems, ParsePrimary, Edge, Ok, LookAt;
    PrimaryStart(s, p, c);
    cur := p + Width(c);
    if c.Unary? {
      cur := UnaryComplete(tab, s, p, c, m);
    } else if c.Array? {
      ArrayComplete(tab, s, p, c, m);
    } else if c.Call? {
      CallComplete(tab, s, p, c, m);
    } else {
      AtomStep(tab, s, p, c);
    }
  }

  lemma PrimaryStart(s: seq<Token>, p: nat, c: Cst)
    requires IsPrimary(c) && Spells(s, p, c)
    ensures p < |s| && s[p] != ParenOpen
  {
  }

  lemma {:induction false} UnaryComplete(tab: BindingTable, s: seq<Token>, p: nat, c: Cst, m: int)
    returns (cur: nat)
    requires c.Unary? && p + Width(c) <= |s| && Spells(s, p, c) && Ok(tab, c, m)
    requires Edge(tab, c, LookAt(s, p + Width(c)))
    ensures Gap(s, p + Width(c), cur) && ParsePrimary(tab, s, p) == Got(c, p + Width(c), cur)
    decreases c, 0, 0
  {
    hide ParseExpr, ParsePrimary, LookAt;
    cur := Complete(tab, s, p + 1, c.operand, tab.prefix(c.pop).rbp);
    UnaryStep(tab, s, p, c, cur);
  }

  lemma {:induction false} ArrayComplete(tab: BindingTable, s: seq<Token>, p: nat, c: Cst, m: int)
    requires c.Array? && p + Width(c) <= |s| && Spells(s, p, c) && Ok(tab, c, m)
    ensures ParsePrimary(tab, s, p) == Got(c, p + Width(c), p + Width(c))
    decreases c, 0, 0
  {
    hide ParseItems, ParsePrimary;
    ItemsComplete(tab, s, p + 1, c.elems);
    ArrayStep(tab, s, p, c.elems);
  }

  lemma {:induction false} CallComplete(tab: BindingTable, s: seq<Token>, p: nat, c: Cst, m: int)
    requires c.Call? && p + Width(c) <= |s| && Spells(s, p, c) && Ok(tab, c, m)
    ensures ParsePrimary(tab, s, p) == Got(c, p + Width(c), p + Width(c))
    decreases c, 0, 0
  {
    hide ParseItems, ParsePrimary;
    ItemsComplete(tab, s, p + 2, c.args);
    CallStep(tab, s, p, c.callee, c.args);
  }

  lemma AtomStep(tab: BindingTable, s: seq<Token>, p: nat, c: Cst)
    requires (c.Leaf? || c.Ref?) && p < |s| && Spells(s, p, c) && Edge(tab, c, LookAt(s, p + 1))
    ensures ParsePrimary(tab, s, p) == Got(c, p + 1, p + 1)
  {
    hide ParseExpr, ParseItems;
  }

  lemma UnaryStep(tab: BindingTable, s: seq<Token>, p: nat, c: Cst, cur: nat)
    requires c.Unary? && TokenAt(s, p, PrefixToken(c.pop)) && p + Width(c) <= cur <= |s|
    requires ParseExpr(tab, s, p + 1, tab.prefix(c.pop).rbp) == Got(c.operand, p + Width(c), cur)
    ensures ParsePrimary(tab, s, p) == Got(c, p + Width(c), cur)
  {
    assert PrefixOpOf(PrefixToken(c.pop)) == Some(c.pop);
  }

  lemma ArrayStep(tab: BindingTable, s: seq<Token>, p: nat, es: Items)
    requires TokenAt(s, p, BracketOpen) && TokenAt(s, p + 1 + WidthItems(es), BracketClose)
    requires ParseItems(tab, s, p + 1) == GotItems(es, p + 1 + WidthItems(es))
    ensures ParsePrimary(tab, s, p) == Got(Array(es), p + Width(Array(es)), p + Width(Array(es)))
  {
    hide ParseItems;
  }

  lemma CallStep(tab: BindingTable, s: seq<Token>, p: nat, f: string, es: Items)
    requires TokenAt(s, p, Name(f)) && TokenAt(s, p + 1, ParenOpen)
    requires TokenAt(s, p + 2 + WidthItems(es), ParenClose)
    requires ParseItems(tab, s, p + 2) == GotItems(es, p + 2 + WidthItems(es))
    ensures ParsePrimary(tab, s, p) == Got(Call(f, es), p + Width(Call(f, es)), p + Width(Call(f, es)))
  {
    hide ParseItems;
  }

  predicate ClosedAt(s: seq<Token>, q: nat) {
    q < |s| && (s[q] == ParenClose || s[q] == BracketClose)
  }

  lemma {:induction false} ItemsComplete(tab: BindingTable, s: seq<Token>, p: nat, es: Items)
    requires SpellsItems(s, p, es) && OkItems(tab, es) && ClosedAt(s, p + WidthItems(es))
    ensures ParseItems(tab, s, p) == GotItems(es, p + WidthItems(es))
    decreases es, 0
  {
    hide ParseExpr, ParseTail, Ok, Spells, SpellsTail, OkTail, WidthTail, EndsOperators, Width;
    if es.Present? {
      var e := p + Width(es.head);
      TailStart(s, e, es.tail);
      CloserEnds(s[e]);
      CompleteClosed(tab, s, p, es.head, 0);
      TailComplete(tab, s, e, es.tail);
    } else {
      var e := p + 2 * es.depth;
      TailStart(s, e, es.tail);
      HollowNothing(tab, s, p, es.depth, 0);
      TailComplete(tab, s, e, es.tail);
    }
  }

  lemma TailStart(s: seq<Token>, p: nat, t: Tail)
    requires SpellsTail(s, p, t) && ClosedAt(s, p + WidthTail(t))
    ensures p < |s| && IsCloser(s[p])
  {
  }

  lemma {:induction false} TailComplete(tab: BindingTable, s: seq<Token>, p: nat, t: Tail)
    requires SpellsTail(s, p, t) && OkTail(tab, t) && ClosedAt(s, p + WidthTail(t))
    ensures ParseTail(tab, s, p) == GotTail(t, p + WidthTail(t))
    decreases t, 0
  {
    hide ParseExpr, Ok, Spells;
    if t.More? {
      MoreComplete(tab, s, p, t.gap, t.head, t.tail);
    }
  }

  lemma {:induction false} MoreComplete(tab: BindingTable, s: seq<Token>, p: nat, g: nat, h: Cst, t: Tail)
    requires TokenAt(s, p, Comma) && NewlinesAt(s, p + 1, g)
    requires Spells(s, p + 1 + g, h) && Ok(tab, h, 0)
    requires var e := p + 1 + g + Width(h);
      SpellsTail(s, e, t) && OkTail(tab, t) && ClosedAt(s, e + WidthTail(t))
    ensures var e := p + 1 + g + Width(h);
      ParseTail(tab, s, p) == GotTail(More(g, h, t), e + WidthTail(t))
    decreases More(g, h, t), 0, 0
  {
    hide ParseExpr, Ok, Spells, SpellsTail, OkTail, WidthTail, Width, Skip, ParseTail;
    var q := p + 1 + g;
    var e := q + Width(h);
    FirstToken(s, q, h);
    SkipIs(s, p + 1, q);
    TailStart(s, e, t);
    CloserEnds(s[e]);
    CompleteClosed(tab, s, q, h, 0);
    TailComplete(tab, s, e, t);
    MoreParsed(tab, s, p, g, h, t, e, e + WidthTail(t));
  }

  /** A comma, an element and a tail make a tail. */
  lemma MoreParsed(tab: BindingTable, s: seq<Token>, p: nat, g: nat, h: Cst, t: Tail, e: nat, end: nat)
    requires TokenAt(s, p, Comma) && Skip(s, p + 1) == p + 1 + g && p + 1 + g <= |s| && e <= |s|
    requires ParseExpr(tab, s, p + 1 + g, 0) == Got(h, e, e) && ParseTail(tab, s, e) == GotTail(t, end)
    ensures ParseTail(tab, s, p) == GotTail(More(g, h, t), end)
  {
    hide ParseExpr, Skip;
  }
}
