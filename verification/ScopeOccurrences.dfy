/** Every place where a program writes a name, against the places the checker looks at. The
    checker skips some positions and rejects some forms whatever their names; where a program
    has none of these, it decides the scoping of all occurrences. */
module ScopeOccurrences {
  import opened Ast
  import opened Statements
  import opened Scopes
  import opened ScopeRules
  import opened ScopeRestore
  import opened ScopeCheckers

  // ---- All occurrences --------------------------------------------------------------------

  /** The names an expression uses. The member behind a dot is a name of the struct, but what is
      written inside it (arguments, indices) is looked up around it. */
  function Occurring(e: Expr): seq<string>
    decreases e, 1
  {
    match e
    case Literal(_) => []
    case ArrayExpr(elems) => OccurringAll(elems)
    case Identifier(x) => [x]
    case FunctionCall(f, args) => [f] + OccurringAll(args)
    case Prefix(_, x) => Occurring(x)
    case Infix(_, l, r) => Occurring(l) + Occurring(r)
    case MemberAccess(o, m) => Occurring(o) + OccurringMember(m)
    case Subscript(b, i) => Occurring(b) + Occurring(i)
  }

  function OccurringMember(m: Expr): seq<string>
    decreases m, 2
  {
    match m
    case Identifier(_) => []
    case FunctionCall(_, args) => OccurringAll(args)
    case MemberAccess(o, n) => OccurringMember(o) + OccurringMember(n)
    case Subscript(b, i) => OccurringMember(b) + Occurring(i)
    case _ => Occurring(m)
  }

  function OccurringAll(es: seq<Expr>): seq<string>
    decreases es, 0
  {
    if es == [] then [] else OccurringAll(es[..|es| - 1]) + Occurring(es[|es| - 1])
  }

  function Uses<D>(names: seq<string>): (r: seq<Event<D>>)
    ensures |r| == |names| && forall i :: 0 <= i < |names| ==> r[i] == Use(names[i])
  {
    seq(|names|, i requires 0 <= i < |names| => Use(names[i]))
  }

  function FullExpr<D>(e: Expr): seq<Event<D>> {
    Uses(Occurring(e))
  }

  function FullOption<D>(e: Option<Expr>): seq<Event<D>> {
    if e.None? then [] else FullExpr(e.value)
  }

  /** As the checker's events, with nothing skipped; deferred statements have a scope of their own. */
  function FullStmt<D>(types: Types<D>, s: Stmt): seq<Event<D>>
    decreases s, 1
  {
    match s
    case Let(x, init) => FullOption(init) + [Bind(x, types(StmtBinder(s)), true)]
    case Var(x, init) => FullOption(init) + [Bind(x, types(StmtBinder(s)), true)]
    case Assign(_, target, value) => FullExpr(target) + FullExpr(value)
    case Increment(x) => FullExpr(x)
    case Decrement(x) => FullExpr(x)
    case ExprStmt(e) => FullExpr(e)
    case Return(result) => FullOption(result)
    case If(first, cond, onTrue, onFalse) =>
      (if first.None? then [] else FullStmt(types, first.value)) + FullExpr(cond) + Block(FullList(types, onTrue)) +
      (if onFalse.NoElse? then [] else Block(FullList(types, onFalse.code)))
    case Loop(first, test, post, body) =>
      (if first.None? then [] else FullStmt(types, first.value)) + FullOption(test) +
      Block(FullList(types, body) + (if post.None? then [] else FullStmt(types, post.value)))
    case Break => []
    case Continue => []
    case Defer(body) => Block(FullList(types, body))
  }

  function FullList<D>(types: Types<D>, ss: seq<Stmt>): seq<Event<D>>
    decreases ss, 0
  {
    if ss == [] then [] else FullList(types, ss[..|ss| - 1]) + FullStmt(types, ss[|ss| - 1])
  }

  function FullItem<D>(types: Types<D>, i: Item): seq<Event<D>> {
    match i
    case FunctionDecl(f) => [Bind(f, types(ItemBinder(i)), false)]
    case GlobalDecl(x) => [Bind(x, types(ItemBinder(i)), false)]
    case Function(f, params, code) =>
      [Bind(f, types(ItemBinder(i)), true)] + Block(OfParams(types, i, |params|) + FullList(types, code))
  }

  function FullProgram<D>(types: Types<D>, items: seq<Item>): seq<Event<D>> {
    if items == [] then [] else FullProgram(types, items[..|items| - 1]) + FullItem(types, items[|items| - 1])
  }

  // ---- Rejected forms, skipped positions --------------------------------------------------

  /** No empty array where the checker looks. */
  predicate AcceptedExpr(e: Expr)
    decreases e, 1
  {
    match e
    case Literal(_) => true
    case ArrayExpr(elems) => elems != [] && AcceptedExpr(elems[0])
    case Identifier(_) => true
    case FunctionCall(_, args) => AcceptedAll(args)
    case Prefix(_, x) => AcceptedExpr(x)
    case Infix(_, l, r) => AcceptedExpr(l) && AcceptedExpr(r)
    case MemberAccess(o, _) => AcceptedExpr(o)
    case Subscript(b, _) => AcceptedExpr(b)
  }

  predicate AcceptedAll(es: seq<Expr>)
    decreases es, 0
  {
    es == [] || (AcceptedAll(es[..|es| - 1]) && AcceptedExpr(es[|es| - 1]))
  }

  predicate AcceptedOption(e: Option<Expr>) {
    e.Some? ==> AcceptedExpr(e.value)
  }

  /** And no `return` without a value. */
  predicate AcceptedStmt(s: Stmt)
    decreases s, 1
  {
    match s
    case Let(_, init) => AcceptedOption(init)
    case Var(_, init) => AcceptedOption(init)
    case Assign(_, target, value) => AcceptedExpr(target) && AcceptedExpr(value)
    case Increment(x) => AcceptedExpr(x)
    case Decrement(x) => AcceptedExpr(x)
    case ExprStmt(e) => AcceptedExpr(e)
    case Return(result) => result.Some? && AcceptedExpr(result.value)
    case If(first, cond, onTrue, onFalse) =>
      (first.Some? ==> AcceptedStmt(first.value)) && AcceptedExpr(cond) && AcceptedList(onTrue) && (onFalse.Else? ==> AcceptedList(onFalse.code))
    case Loop(first, test, post, body) =>
      (first.Some? ==> AcceptedStmt(first.value)) && AcceptedOption(test) && AcceptedList(body) && (post.Some? ==> AcceptedStmt(post.value))
    case _ => true
  }

  predicate AcceptedList(ss: seq<Stmt>)
    decreases ss, 0
  {
    ss == [] || (AcceptedList(ss[..|ss| - 1]) && AcceptedStmt(ss[|ss| - 1]))
  }

  predicate Accepted(items: seq<Item>) {
    items == [] || (Accepted(items[..|items| - 1]) && (items[|items| - 1].Function? ==> AcceptedList(items[|items| - 1].code)))
  }

  /** No name in an index, in an element behind the first or behind a dot. */
  predicate CoveredExpr(e: Expr)
    decreases e, 1
  {
    match e
    case Literal(_) => true
    case ArrayExpr(elems) => elems != [] ==> CoveredExpr(elems[0]) && OccurringAll(elems[1..]) == []
    case Identifier(_) => true
    case FunctionCall(_, args) => CoveredAll(args)
    case Prefix(_, x) => CoveredExpr(x)
    case Infix(_, l, r) => CoveredExpr(l) && CoveredExpr(r)
    case MemberAccess(o, m) => CoveredExpr(o) && OccurringMember(m) == []
    case Subscript(b, i) => CoveredExpr(b) && Occurring(i) == []
  }

  predicate CoveredAll(es: seq<Expr>)
    decreases es, 0
  {
    es == [] || (CoveredAll(es[..|es| - 1]) && CoveredExpr(es[|es| - 1]))
  }

  predicate CoveredOption(e: Option<Expr>) {
    e.Some? ==> CoveredExpr(e.value)
  }

  /** And none in a deferred statement. */
  predicate CoveredStmt(s: Stmt)
    decreases s, 1
  {
    match s
    case Let(_, init) => CoveredOption(init)
    case Var(_, init) => CoveredOption(init)
    case Assign(_, target, value) => CoveredExpr(target) && CoveredExpr(value)
    case Increment(x) => CoveredExpr(x)
    case Decrement(x) => CoveredExpr(x)
    case ExprStmt(e) => CoveredExpr(e)
    case Return(result) => CoveredOption(result)
    case If(first, cond, onTrue, onFalse) =>
      (first.Some? ==> CoveredStmt(first.value)) && CoveredExpr(cond) && CoveredList(onTrue) && (onFalse.Else? ==> CoveredList(onFalse.code))
    case Loop(first, test, post, body) =>
      (first.Some? ==> CoveredStmt(first.value)) && CoveredOption(test) && CoveredList(body) && (post.Some? ==> CoveredStmt(post.value))
    case Break => true
    case Continue => true
    case Defer(body) => NamelessList(body)
  }

  predicate CoveredList(ss: seq<Stmt>)
    decreases ss, 0
  {
    ss == [] || (CoveredList(ss[..|ss| - 1]) && CoveredStmt(ss[|ss| - 1]))
  }

  predicate Covered(items: seq<Item>) {
    items == [] || (Covered(items[..|items| - 1]) && (items[|items| - 1].Function? ==> CoveredList(items[|items| - 1].code)))
  }

  predicate NamelessOption(e: Option<Expr>) {
    e.Some? ==> Occurring(e.value) == []
  }

  /** A statement without any name. */
  predicate NamelessStmt(s: Stmt)
    decreases s, 1
  {
    match s
    case Let(_, _) => false
    case Var(_, _) => false
    case Assign(_, target, value) => Occurring(target) == [] && Occurring(value) == []
    case Increment(x) => Occurring(x) == []
    case Decrement(x) => Occurring(x) == []
    case ExprStmt(e) => Occurring(e) == []
    case Return(result) => NamelessOption(result)
    case If(first, cond, onTrue, onFalse) =>
      (first.Some? ==> NamelessStmt(first.value)) && Occurring(cond) == [] && NamelessList(onTrue) && (onFalse.Else? ==> NamelessList(onFalse.code))
    case Loop(first, test, post, body) =>
      (first.Some? ==> NamelessStmt(first.value)) && NamelessOption(test) && NamelessList(body) && (post.Some? ==> NamelessStmt(post.value))
    case Break => true
    case Continue => true
    case Defer(body) => NamelessList(body)
  }

  predicate NamelessList(ss: seq<Stmt>)
    decreases ss, 0
  {
    ss == [] || (NamelessList(ss[..|ss| - 1]) && NamelessStmt(ss[|ss| - 1]))
  }

  // ---- Expressions ------------------------------------------------------------------------

  predicate AllFound<D>(s: Symbols<D>, names: seq<string>) {
    forall x <- names :: Find(s, x).Some?
  }

  /** Looking names up changes nothing. */
  lemma {:induction false} RunUses<D>(s: Symbols<D>, names: seq<string>)
    requires s != []
    ensures Run(s, Uses(names)) == if AllFound(s, names) then Some(s) else None
    decreases |names|
  {
    if names != [] {
      var n := |names| - 1;
      assert Uses<D>(names)[..n] == Uses<D>(names[..n]);
      assert names == names[..n] + [names[n]];
      RunUses(s, names[..n]);
    }
  }

  lemma RunNothing<D>(s: Symbols<D>)
    requires s != []
    ensures Run(s, []) == Some(s)
  {}

  lemma RunOne<D>(s: Symbols<D>, e: Event<D>)
    requires s != []
    ensures Run(s, [e]) == Step(s, e)
  {
    assert [e][..0] == [];
    RunNothing(s);
  }

  /** What the checker looks up in an expression. */
  function LookedUp(e: Expr): seq<string>
    decreases e, 1
  {
    match e
    case Literal(_) => []
    case ArrayExpr(elems) => if elems == [] then [] else LookedUp(elems[0])
    case Identifier(x) => [x]
    case FunctionCall(f, args) => [f] + LookedUpAll(args)
    case Prefix(_, x) => LookedUp(x)
    case Infix(_, l, r) => LookedUp(l) + LookedUp(r)
    case MemberAccess(o, _) => LookedUp(o)
    case Subscript(b, _) => LookedUp(b)
  }

  function LookedUpAll(es: seq<Expr>): seq<string>
    decreases es, 0
  {
    if es == [] then [] else LookedUpAll(es[..|es| - 1]) + LookedUp(es[|es| - 1])
  }

  lemma {:induction false} OfExprRuns<D>(s: Symbols<D>, e: Expr)
    requires s != []
    ensures Run(s, OfExpr(e)) == if AcceptedExpr(e) && AllFound(s, LookedUp(e)) then Some(s) else None
    decreases e, 1
  {
    hide Run, Find;
    RunNothing(s);
    match e
    case Literal(_) =>
    case ArrayExpr(elems) => if elems == [] { RunOne(s, Event<D>.Reject); } else { OfExprRuns(s, elems[0]); }
    case Identifier(x) => RunOne(s, Use(x));
    case FunctionCall(f, args) =>
      RunOne(s, Use(f));
      RunConcat(s, [Use(f)], OfArgs(args));
      OfArgsRun(s, args);
    case Prefix(_, x) => OfExprRuns(s, x);
    case Infix(_, l, r) =>
      OfExprRuns(s, l);
      OfExprRuns(s, r);
      RunConcat(s, OfExpr(l), OfExpr(r));
    case MemberAccess(o, _) => OfExprRuns(s, o);
    case Subscript(b, _) =>
      OfExprRuns(s, b);
      RunConcat(s, OfExpr(b), OfExpr(b));
  }

  lemma {:induction false} OfArgsRun<D>(s: Symbols<D>, args: seq<Expr>)
    requires s != []
    ensures Run(s, OfArgs(args)) == if AcceptedAll(args) && AllFound(s, LookedUpAll(args)) then Some(s) else None
    decreases args, 0
  {
    hide Run, Find;
    RunNothing(s);
    if args != [] {
      var n := |args| - 1;
      OfArgsRun(s, args[..n]);
      OfExprRuns(s, args[n]);
      RunConcat(s, OfArgs(args[..n]), OfExpr(args[n]));
    }
  }

  /** The checker looks up nothing that is not there, and everything when nothing is skipped. */
  lemma {:induction false} LookedUpOccurs(e: Expr)
    ensures forall x :: x in LookedUp(e) ==> x in Occurring(e)
    ensures CoveredExpr(e) ==> forall x :: x in Occurring(e) ==> x in LookedUp(e)
    decreases e, 1
  {
    match e
    case Literal(_) =>
    case ArrayExpr(elems) =>
      if elems != [] {
        LookedUpOccurs(elems[0]);
        HeadOccurs(elems);
      }
    case Identifier(_) =>
    case FunctionCall(_, args) => AllLookedUpOccur(args);
    case Prefix(_, x) => LookedUpOccurs(x);
    case Infix(_, l, r) =>
      LookedUpOccurs(l);
      LookedUpOccurs(r);
    case MemberAccess(o, _) => LookedUpOccurs(o);
    case Subscript(b, _) => LookedUpOccurs(b);
  }

  lemma {:induction false} HeadOccurs(es: seq<Expr>)
    requires es != []
    ensures forall x :: x in OccurringAll(es) <==> x in Occurring(es[0]) || x in OccurringAll(es[1..])
    decreases |es|
  {
    if |es| == 1 {
      assert es[..0] == [] && es[1..] == [];
    } else {
      HeadOccurs(es[..|es| - 1]);
      assert es[1..][..|es| - 2] == es[..|es| - 1][1..];
    }
  }

  lemma {:induction false} AllLookedUpOccur(es: seq<Expr>)
    ensures forall x :: x in LookedUpAll(es) ==> x in OccurringAll(es)
    ensures CoveredAll(es) ==> forall x :: x in OccurringAll(es) ==> x in LookedUpAll(es)
    decreases es, 0
  {
    if es != [] {
      AllLookedUpOccur(es[..|es| - 1]);
      LookedUpOccurs(es[|es| - 1]);
    }
  }

  lemma ExprFull<D>(s: Symbols<D>, e: Expr)
    requires s != []
    ensures Run(s, FullExpr(e)) == if AllFound(s, Occurring(e)) then Some(s) else None
    ensures Run(s, FullExpr(e)).Some? && AcceptedExpr(e) ==> Run(s, OfExpr(e)) == Some(s)
    ensures AcceptedExpr(e) && CoveredExpr(e) ==> Run(s, OfExpr(e)) == Run(s, FullExpr(e))
  {
    RunUses(s, Occurring(e));
    OfExprRuns(s, e);
    LookedUpOccurs(e);
    hide Run, Find;
  }

  lemma OptionFull<D>(s: Symbols<D>, e: Option<Expr>)
    requires s != []
    ensures Run(s, FullOption(e)).Some? ==> Run(s, FullOption(e)) == Some(s)
    ensures Run(s, FullOption(e)).Some? && AcceptedOption(e) ==> Run(s, OfOption(e)) == Some(s)
    ensures AcceptedOption(e) && CoveredOption(e) ==> Run(s, OfOption(e)) == Run(s, FullOption(e))
  {
    RunNothing(s);
    if e.Some? { ExprFull(s, e.value); }
    hide Run, Find;
  }

  // ---- Programs without skipped names -----------------------------------------------------

  lemma RunBlock<D>(s: Symbols<D>, body: seq<Event<D>>)
    requires s != []
    ensures var inside := Run(s + [map[]], body);
      Run(s, Block(body)) == if inside.None? || |inside.value| == 1 then None else Some(inside.value[..|inside.value| - 1])
  {
    RunOne(s, Event<D>.Open);
    RunConcat(s, [Event<D>.Open], body);
    RunConcat(s, [Event<D>.Open] + body, [Event<D>.Close]);
    var inside := Run(s + [map[]], body);
    if inside.Some? { RunOne(inside.value, Event<D>.Close); }
    hide Run;
  }

  lemma RunTwo<D>(s: Symbols<D>, a: seq<Event<D>>, b: seq<Event<D>>, a': seq<Event<D>>, b': seq<Event<D>>)
    requires s != [] && Run(s, a) == Run(s, a')
    requires Run(s, a).Some? ==> Run(Run(s, a).value, b) == Run(Run(s, a).value, b')
    ensures Run(s, a + b) == Run(s, a' + b')
  {
    RunConcat(s, a, b);
    RunConcat(s, a', b');
  }

  /** A statement without names leaves the scopes alone. */
  lemma {:induction false} NamelessRuns<D>(types: Types<D>, s: Symbols<D>, t: Stmt)
    requires s != [] && NamelessStmt(t)
    ensures Run(s, FullStmt(types, t)) == Some(s)
    decreases t, 1
  {
    hide Run, Find, Block;
    RunNothing(s);
    match t
    case Assign(_, target, value) =>
      ExprFull(s, target);
      ExprFull(s, value);
      RunConcat(s, FullExpr(target), FullExpr(value));
    case Increment(x) => ExprFull(s, x);
    case Decrement(x) => ExprFull(s, x);
    case ExprStmt(e) => ExprFull(s, e);
    case Return(result) => NamelessOptionRuns(s, result);
    case If(_, _, _, _) => NamelessIfRuns(types, s, t);
    case Loop(_, _, _, _) => NamelessLoopRuns(types, s, t);
    case Break =>
    case Continue =>
    case Defer(body) => NamelessBlockRuns(types, s, body);
  }

  lemma NamelessOptionRuns<D>(s: Symbols<D>, e: Option<Expr>)
    requires s != [] && NamelessOption(e)
    ensures Run(s, FullOption(e)) == Some(s)
  {
    RunNothing(s);
    if e.Some? { ExprFull(s, e.value); }
    hide Run, Find;
  }

  lemma {:induction false} NamelessBlockRuns<D>(types: Types<D>, s: Symbols<D>, ss: seq<Stmt>)
    requires s != [] && NamelessList(ss)
    ensures Run(s, Block(FullList(types, ss))) == Some(s)
    decreases ss, 1
  {
    hide Run;
    RunBlock(s, FullList(types, ss));
    NamelessListRuns(types, s + [map[]], ss);
  }

  lemma {:induction false} NamelessListRuns<D>(types: Types<D>, s: Symbols<D>, ss: seq<Stmt>)
    requires s != [] && NamelessList(ss)
    ensures Run(s, FullList(types, ss)) == Some(s)
    decreases ss, 0
  {
    hide Run;
    RunNothing(s);
    if ss != [] {
      NamelessListRuns(types, s, ss[..|ss| - 1]);
      NamelessRuns(types, s, ss[|ss| - 1]);
      RunConcat(s, FullList(types, ss[..|ss| - 1]), FullStmt(types, ss[|ss| - 1]));
    }
  }

  lemma {:induction false} NamelessIfRuns<D>(types: Types<D>, s: Symbols<D>, t: Stmt)
    requires s != [] && t.If? && NamelessStmt(t)
    ensures Run(s, FullStmt(types, t)) == Some(s)
    decreases t, 0
  {
    hide Run, Block, Find;
    RunNothing(s);
    var a := if t.first.None? then [] else FullStmt(types, t.first.value);
    if t.first.Some? { NamelessRuns(types, s, t.first.value); }
    ExprFull(s, t.cond);
    RunConcat(s, a, FullExpr(t.cond));
    NamelessBlockRuns(types, s, t.onTrue);
    RunConcat(s, a + FullExpr(t.cond), Block(FullList(types, t.onTrue)));
    if t.onFalse.Else? { NamelessBlockRuns(types, s, t.onFalse.code); }
    RunConcat(s, a + FullExpr(t.cond) + Block(FullList(types, t.onTrue)), if t.onFalse.NoElse? then [] else Block(FullList(types, t.onFalse.code)));
  }

  lemma {:induction false} NamelessLoopRuns<D>(types: Types<D>, s: Symbols<D>, t: Stmt)
    requires s != [] && t.Loop? && NamelessStmt(t)
    ensures Run(s, FullStmt(types, t)) == Some(s)
    decreases t, 0
  {
    hide Run, Block, Find;
    RunNothing(s);
    var a := if t.first.None? then [] else FullStmt(types, t.first.value);
    if t.first.Some? { NamelessRuns(types, s, t.first.value); }
    NamelessOptionRuns(s, t.test);
    RunConcat(s, a, FullOption(t.test));
    var s1, post := s + [map[]], if t.post.None? then [] else FullStmt(types, t.post.value);
    NamelessListRuns(types, s1, t.body);
    RunNothing(s1);
    if t.post.Some? { NamelessRuns(types, s1, t.post.value); }
    RunConcat(s1, FullList(types, t.body), post);
    RunBlock(s, FullList(types, t.body) + post);
    RunConcat(s, a + FullOption(t.test), Block(FullList(types, t.body) + post));
  }

  /** Without skipped names and rejected forms the checker does what the full reading says. */
  lemma {:induction false} StmtCovered<D>(types: Types<D>, s: Symbols<D>, t: Stmt)
    requires s != [] && AcceptedStmt(t) && CoveredStmt(t)
    ensures Run(s, OfStmt(types, t)) == Run(s, FullStmt(types, t))
    decreases t, 1
  {
    hide Run, Find, Block;
    match t
    case Let(x, init) =>
      OptionFull(s, init);
      RunTwo(s, OfOption(init), [Bind(x, types(StmtBinder(t)), true)], FullOption(init), [Bind(x, types(StmtBinder(t)), true)]);
    case Var(x, init) =>
      OptionFull(s, init);
      RunTwo(s, OfOption(init), [Bind(x, types(StmtBinder(t)), true)], FullOption(init), [Bind(x, types(StmtBinder(t)), true)]);
    case Assign(_, target, value) =>
      ExprFull(s, target);
      ExprFull(s, value);
      RunTwo(s, OfExpr(target), OfExpr(value), FullExpr(target), FullExpr(value));
    case Increment(x) => ExprFull(s, x);
    case Decrement(x) => ExprFull(s, x);
    case ExprStmt(e) => ExprFull(s, e);
    case Return(result) => ExprFull(s, result.value);
    case If(_, _, _, _) => IfCovered(types, s, t);
    case Loop(_, _, _, _) => LoopCovered(types, s, t);
    case Break =>
    case Continue =>
    case Defer(body) =>
      NamelessBlockRuns(types, s, body);
      RunNothing(s);
  }

  lemma {:induction false} ListCovered<D>(types: Types<D>, s: Symbols<D>, ss: seq<Stmt>)
    requires s != [] && AcceptedList(ss) && CoveredList(ss)
    ensures Run(s, OfList(types, ss)) == Run(s, FullList(types, ss))
    decreases ss, 0
  {
    hide Run;
    if ss != [] {
      var a, t := ss[..|ss| - 1], ss[|ss| - 1];
      ListCovered(types, s, a);
      if Run(s, OfList(types, a)).Some? { StmtCovered(types, Run(s, OfList(types, a)).value, t); }
      RunTwo(s, OfList(types, a), OfStmt(types, t), FullList(types, a), FullStmt(types, t));
    }
  }

  lemma {:induction false} BlockCovered<D>(types: Types<D>, s: Symbols<D>, ss: seq<Stmt>)
    requires s != [] && AcceptedList(ss) && CoveredList(ss)
    ensures Run(s, Block(OfList(types, ss))) == Run(s, Block(FullList(types, ss)))
    decreases ss, 1
  {
    hide Run;
    ListCovered(types, s + [map[]], ss);
    RunBlock(s, OfList(types, ss));
    RunBlock(s, FullList(types, ss));
  }

  lemma {:induction false} IfCovered<D>(types: Types<D>, s: Symbols<D>, t: Stmt)
    requires s != [] && t.If? && AcceptedStmt(t) && CoveredStmt(t)
    ensures Run(s, OfStmt(types, t)) == Run(s, FullStmt(types, t))
    decreases t, 0
  {
    hide Run, Block, Find;
    var a, a' := if t.first.None? then [] else OfStmt(types, t.first.value), if t.first.None? then [] else FullStmt(types, t.first.value);
    if t.first.Some? { StmtCovered(types, s, t.first.value); }
    var s1 := Run(s, a);
    if s1.Some? { ExprFull(s1.value, t.cond); }
    RunTwo(s, a, OfExpr(t.cond), a', FullExpr(t.cond));
    var b, b' := a + OfExpr(t.cond), a' + FullExpr(t.cond);
    if Run(s, b).Some? { BlockCovered(types, Run(s, b).value, t.onTrue); }
    RunTwo(s, b, Block(OfList(types, t.onTrue)), b', Block(FullList(types, t.onTrue)));
    var c, c' := b + Block(OfList(types, t.onTrue)), b' + Block(FullList(types, t.onTrue));
    if Run(s, c).Some? && t.onFalse.Else? { BlockCovered(types, Run(s, c).value, t.onFalse.code); }
    RunTwo(s, c, if t.onFalse.NoElse? then [] else Block(OfList(types, t.onFalse.code)),
           c', if t.onFalse.NoElse? then [] else Block(FullList(types, t.onFalse.code)));
  }

  lemma {:induction false} LoopCovered<D>(types: Types<D>, s: Symbols<D>, t: Stmt)
    requires s != [] && t.Loop? && AcceptedStmt(t) && CoveredStmt(t)
    ensures Run(s, OfStmt(types, t)) == Run(s, FullStmt(types, t))
    decreases t, 0
  {
    hide Run, Block, Find, CoveredStmt, AcceptedStmt;
    var b := (if t.first.None? then [] else OfStmt(types, t.first.value)) + OfOption(t.test);
    var b' := (if t.first.None? then [] else FullStmt(types, t.first.value)) + FullOption(t.test);
    var c := OfList(types, t.body) + (if t.post.None? then [] else OfStmt(types, t.post.value));
    var c' := FullList(types, t.body) + (if t.post.None? then [] else FullStmt(types, t.post.value));
    LoopHeadCovered(types, s, t);
    if Run(s, b).Some? {
      var s1 := Run(s, b).value;
      BodyCovered(types, s1 + [map[]], t);
      RunBlock(s1, c);
      RunBlock(s1, c');
    }
    RunTwo(s, b, Block(c), b', Block(c'));
  }

  lemma {:induction false} LoopHeadCovered<D>(types: Types<D>, s: Symbols<D>, t: Stmt)
    requires s != [] && t.Loop? && AcceptedStmt(t) && CoveredStmt(t)
    ensures Run(s, (if t.first.None? then [] else OfStmt(types, t.first.value)) + OfOption(t.test)) ==
            Run(s, (if t.first.None? then [] else FullStmt(types, t.first.value)) + FullOption(t.test))
    decreases t, 0, 0
  {
    hide Run, Find;
    var a, a' := if t.first.None? then [] else OfStmt(types, t.first.value), if t.first.None? then [] else FullStmt(types, t.first.value);
    if t.first.Some? { StmtCovered(types, s, t.first.value); }
    if Run(s, a).Some? { OptionFull(Run(s, a).value, t.test); }
    RunTwo(s, a, OfOption(t.test), a', FullOption(t.test));
  }

  lemma {:induction false} BodyCovered<D>(types: Types<D>, s: Symbols<D>, t: Stmt)
    requires s != [] && t.Loop? && AcceptedStmt(t) && CoveredStmt(t)
    ensures Run(s, OfList(types, t.body) + (if t.post.None? then [] else OfStmt(types, t.post.value))) ==
            Run(s, FullList(types, t.body) + (if t.post.None? then [] else FullStmt(types, t.post.value)))
    decreases t, 0, 0
  {
    hide Run;
    ListCovered(types, s, t.body);
    var s1 := Run(s, OfList(types, t.body));
    if s1.Some? && t.post.Some? { StmtCovered(types, s1.value, t.post.value); }
    RunTwo(s, OfList(types, t.body), if t.post.None? then [] else OfStmt(types, t.post.value),
           FullList(types, t.body), if t.post.None? then [] else FullStmt(types, t.post.value));
  }

  lemma ItemCovered<D>(types: Types<D>, s: Symbols<D>, i: Item)
    requires s != [] && (i.Function? ==> AcceptedList(i.code) && CoveredList(i.code))
    ensures Run(s, OfItem(types, i)) == Run(s, FullItem(types, i))
  {
    hide Run;
    if i.Function? {
      var bind, params := [Bind(i.fname, types(ItemBinder(i)), true)], OfParams(types, i, |i.params|);
      var s1 := Run(s, bind);
      if s1.Some? {
        var s2 := Run(s1.value + [map[]], params);
        if s2.Some? { ListCovered(types, s2.value, i.code); }
        RunTwo(s1.value + [map[]], params, OfList(types, i.code), params, FullList(types, i.code));
        RunBlock(s1.value, params + OfList(types, i.code));
        RunBlock(s1.value, params + FullList(types, i.code));
      }
      RunTwo(s, bind, Block(params + OfList(types, i.code)), bind, Block(params + FullList(types, i.code)));
    }
  }

  lemma {:induction false} ProgramCovered<D>(types: Types<D>, s: Symbols<D>, items: seq<Item>)
    requires s != [] && Accepted(items) && Covered(items)
    ensures Run(s, OfProgram(types, items)) == Run(s, FullProgram(types, items))
    decreases |items|
  {
    hide Run, OfItem, FullItem;
    if items != [] {
      var a, i := items[..|items| - 1], items[|items| - 1];
      ProgramCovered(types, s, a);
      if Run(s, OfProgram(types, a)).Some? { ItemCovered(types, Run(s, OfProgram(types, a)).value, i); }
      RunTwo(s, OfProgram(types, a), OfItem(types, i), FullProgram(types, a), FullItem(types, i));
    }
  }

  // ---- Skipping names only accepts more ---------------------------------------------------

  /** The same names scope by scope; what is declared in `a` may be defined in `b`. */
  ghost predicate Below<D>(a: Symbols<D>, b: Symbols<D>): (r: bool)
    ensures r ==> a != [] && b != []
  {
    && a != [] && |a| == |b|
    && (forall k :: 0 <= k < |a| ==> a[k].Keys == b[k].Keys)
    && (forall k, x :: 0 <= k < |a| && x in a[k] ==> Grew(a[k][x], b[k][x]))
  }

  lemma {:induction false} FindBelow<D>(a: Symbols<D>, b: Symbols<D>, x: string)
    requires Below(a, b)
    ensures Find(a, x).Some? <==> Find(b, x).Some?
    ensures Find(a, x).Some? ==> Grew(Find(a, x).value, Find(b, x).value)
  {
    var n := |a| - 1;
    if x !in a[n] && n > 0 { FindBelow(a[..n], b[..n], x); }
  }

  lemma {:induction false} UpdateBelow<D>(a: Symbols<D>, b: Symbols<D>, x: string, v: Symbol<D>)
    requires Below(a, b) && Find(a, x).Some? && Find(b, x).Some?
    ensures Below(Update(a, x, v), Update(b, x, v))
  {
    var n := |a| - 1;
    if x !in a[n] { UpdateBelow(a[..n], b[..n], x, v); }
  }

  lemma StepBelow<D>(a: Symbols<D>, b: Symbols<D>, e: Event<D>)
    requires Below(a, b) && Step(b, e).Some?
    ensures Step(a, e).Some? && Below(Step(a, e).value, Step(b, e).value)
  {
    if e.Use? || e.Bind? { FindBelow(a, b, e.name); }
    if e.Bind? && e.defines && Find(b, e.name).Some? { UpdateBelow(a, b, e.name, Symbol(Defined, e.data)); }
    hide Find, Update;
  }

  lemma {:induction false} RunBelow<D>(a: Symbols<D>, b: Symbols<D>, evs: seq<Event<D>>)
    requires Below(a, b) && Run(b, evs).Some?
    ensures Run(a, evs).Some? && Below(Run(a, evs).value, Run(b, evs).value)
  {
    if evs != [] {
      var n := |evs| - 1;
      RunBelow(a, b, evs[..n]);
      StepBelow(Run(a, evs[..n]).value, Run(b, evs[..n]).value, evs[n]);
      hide Step, Below;
    }
  }

  /** Wherever `full` gets through, so does `of`, with no more defined. */
  ghost predicate Follows<D(!new)>(of: seq<Event<D>>, full: seq<Event<D>>) {
    forall a, b :: Below(a, b) && Run(b, full).Some? ==> Run(a, of).Some? && Below(Run(a, of).value, Run(b, full).value)
  }

  ghost predicate Fails<D(!new)>(evs: seq<Event<D>>) {
    forall s :: s != [] ==> Run(s, evs).None?
  }

  /** What holds of every part of a program, accepted or not. */
  ghost predicate Reading<D(!new)>(accepted: bool, of: seq<Event<D>>, full: seq<Event<D>>) {
    Balanced(full) && if accepted then Follows(of, full) else Fails(of)
  }

  lemma ReadingSame<D(!new)>(evs: seq<Event<D>>)
    requires Balanced(evs)
    ensures Reading(true, evs, evs)
  {
    hide Below, Run;
    forall a, b | Below(a, b) && Run(b, evs).Some? ensures Run(a, evs).Some? && Below(Run(a, evs).value, Run(b, evs).value) {
      RunBelow(a, b, evs);
    }
  }

  lemma ReadingConcat<D(!new)>(acc: bool, of: seq<Event<D>>, full: seq<Event<D>>, acc': bool, of': seq<Event<D>>, full': seq<Event<D>>)
    requires Reading(acc, of, full) && Reading(acc', of', full')
    ensures Reading(acc && acc', of + of', full + full')
  {
    BalancedConcat(full, full');
    hide Balanced, Run;
    if acc && acc' {
      forall a, b | Below(a, b) && Run(b, full + full').Some?
        ensures Run(a, of + of').Some? && Below(Run(a, of + of').value, Run(b, full + full').value)
      {
        RunConcat(a, of, of');
        RunConcat(b, full, full');
        hide Below;
      }
    } else {
      forall s | s != [] ensures Run(s, of + of').None? { RunConcat(s, of, of'); }
    }
  }

  lemma ReadingBlock<D(!new)>(acc: bool, of: seq<Event<D>>, full: seq<Event<D>>)
    requires Reading(acc, of, full)
    ensures Reading(acc, Block(of), Block(full))
  {
    BalancedBlock(full);
    hide Balanced, Run, Block;
    if acc {
      forall a, b | Below(a, b) && Run(b, Block(full)).Some?
        ensures Run(a, Block(of)).Some? && Below(Run(a, Block(of)).value, Run(b, Block(full)).value)
      {
        RunBlock(a, of);
        RunBlock(b, full);
        assert Below(a + [map[]], b + [map[]]);
      }
    } else {
      forall s | s != [] ensures Run(s, Block(of)).None? { RunBlock(s, of); }
    }
  }

  /** What a deferred block defines for good only completes declarations. */
  lemma ReadingSkipped<D(!new)>(full: seq<Event<D>>)
    requires Balanced(full)
    ensures Reading(true, [], Block(full))
  {
    BalancedBlock(full);
    hide Balanced, Run;
    forall a, b | Below(a, b) && Run(b, Block(full)).Some?
      ensures Run(a, []).Some? && Below(Run(a, []).value, Run(b, Block(full)).value)
    {
      RunNothing(a);
      MatchedRestores(b, full);
    }
  }

  lemma {:induction false} UsesBalanced<D>(names: seq<string>)
    ensures Balanced<D>(Uses(names))
    decreases |names|
  {
    BalancedNone<D>();
    hide Balanced;
    if names != [] {
      var n := |names| - 1;
      UsesBalanced<D>(names[..n]);
      BalancedOne<D>(Use(names[n]));
      BalancedConcat<D>(Uses(names[..n]), [Use(names[n])]);
      assert Uses<D>(names) == Uses<D>(names[..n]) + [Use(names[n])];
    } else {
      assert Uses<D>(names) == [];
    }
  }

  lemma ExprReading<D(!new)>(e: Expr)
    ensures Reading<D>(AcceptedExpr(e), OfExpr(e), FullExpr(e))
  {
    UsesBalanced<D>(Occurring(e));
    hide Balanced, Run, Below, AcceptedExpr, LookedUp, Occurring;
    if AcceptedExpr(e) {
      forall a: Symbols<D>, b: Symbols<D> | Below(a, b) && Run(b, FullExpr(e)).Some?
        ensures Run(a, OfExpr(e)).Some? && Below(Run(a, OfExpr(e)).value, Run(b, FullExpr(e)).value)
      {
        ExprFull(b, e);
        RunBelow(a, b, OfExpr(e));
      }
    } else {
      forall s: Symbols<D> | s != [] ensures Run(s, OfExpr(e)).None? { OfExprRuns(s, e); }
    }
  }

  lemma NoneReading<D(!new)>()
    ensures Reading<D>(true, [], [])
  {
    BalancedNone<D>();
    ReadingSame<D>([]);
  }

  lemma OptionReading<D(!new)>(e: Option<Expr>)
    ensures Reading<D>(AcceptedOption(e), OfOption(e), FullOption(e))
  {
    NoneReading<D>();
    hide Reading;
    if e.Some? { ExprReading<D>(e.value); }
  }

  lemma BindReading<D(!new)>(types: Types<D>, s: Stmt, x: string, init: Option<Expr>)
    ensures var bind := [Bind(x, types(StmtBinder(s)), true)];
      Reading(AcceptedOption(init), OfOption(init) + bind, FullOption(init) + bind)
  {
    var bind := [Bind(x, types(StmtBinder(s)), true)];
    BalancedOne(bind[0]);
    ReadingSame(bind);
    hide Reading;
    OptionReading<D>(init);
    ReadingConcat(AcceptedOption(init), OfOption(init), FullOption(init), true, bind, bind);
  }

  lemma {:induction false} StmtReading<D(!new)>(types: Types<D>, s: Stmt)
    ensures Reading(AcceptedStmt(s), OfStmt(types, s), FullStmt(types, s))
    decreases s, 2
  {
    hide Reading;
    NoneReading<D>();
    match s
    case Let(x, init) => BindReading(types, s, x, init);
    case Var(x, init) => BindReading(types, s, x, init);
    case Assign(_, target, value) =>
      ExprReading<D>(target);
      ExprReading<D>(value);
      ReadingConcat<D>(AcceptedExpr(target), OfExpr(target), FullExpr(target), AcceptedExpr(value), OfExpr(value), FullExpr(value));
    case Increment(x) => ExprReading<D>(x);
    case Decrement(x) => ExprReading<D>(x);
    case ExprStmt(e) => ExprReading<D>(e);
    case Return(result) => ReturnReading(types, s);
    case If(_, _, _, _) => IfReading(types, s);
    case Loop(_, _, _, _) => LoopReading(types, s);
    case Break =>
    case Continue =>
    case Defer(body) => DeferReading(types, body);
  }

  lemma ReturnReading<D(!new)>(types: Types<D>, s: Stmt)
    requires s.Return?
    ensures Reading(AcceptedStmt(s), OfStmt(types, s), FullStmt(types, s))
  {
    if s.result.Some? {
      ExprReading<D>(s.result.value);
    } else {
      BalancedNone<D>();
      forall sy: Symbols<D> | sy != [] ensures Run(sy, OfStmt(types, s)).None? { RunOne(sy, Event<D>.Reject); }
    }
  }

  lemma {:induction false} DeferReading<D(!new)>(types: Types<D>, body: seq<Stmt>)
    ensures Reading(true, [], Block(FullList(types, body)))
    decreases body, 1
  {
    ListReading(types, body);
    assert Balanced(FullList(types, body));
    hide Reading;
    ReadingSkipped(FullList(types, body));
  }

  lemma {:induction false} ListReading<D(!new)>(types: Types<D>, ss: seq<Stmt>)
    ensures Reading(AcceptedList(ss), OfList(types, ss), FullList(types, ss))
    decreases ss, 0
  {
    hide Reading;
    NoneReading<D>();
    if ss != [] {
      var a, t := ss[..|ss| - 1], ss[|ss| - 1];
      ListReading(types, a);
      StmtReading(types, t);
      ReadingConcat(AcceptedList(a), OfList(types, a), FullList(types, a), AcceptedStmt(t), OfStmt(types, t), FullStmt(types, t));
    }
  }

  lemma {:induction false} BlockReading<D(!new)>(types: Types<D>, ss: seq<Stmt>)
    ensures Reading(AcceptedList(ss), Block(OfList(types, ss)), Block(FullList(types, ss)))
    decreases ss, 1
  {
    hide Reading;
    ListReading(types, ss);
    ReadingBlock(AcceptedList(ss), OfList(types, ss), FullList(types, ss));
  }

  predicate AcceptedFirst(s: Option<Stmt>) {
    s.Some? ==> AcceptedStmt(s.value)
  }

  function OfFirst<D>(types: Types<D>, s: Option<Stmt>): seq<Event<D>> {
    if s.None? then [] else OfStmt(types, s.value)
  }

  function FullFirst<D>(types: Types<D>, s: Option<Stmt>): seq<Event<D>> {
    if s.None? then [] else FullStmt(types, s.value)
  }

  lemma {:induction false} FirstReading<D(!new)>(types: Types<D>, s: Option<Stmt>)
    ensures Reading(AcceptedFirst(s), OfFirst(types, s), FullFirst(types, s))
    decreases s, 3
  {
    hide Reading;
    NoneReading<D>();
    if s.Some? { StmtReading(types, s.value); }
  }

  lemma {:induction false} IfReading<D(!new)>(types: Types<D>, s: Stmt)
    requires s.If?
    ensures Reading(AcceptedStmt(s), OfStmt(types, s), FullStmt(types, s))
    decreases s, 1
  {
    hide Reading, Block;
    NoneReading<D>();
    var of, full := OfFirst(types, s.first), FullFirst(types, s.first);
    FirstReading(types, s.first);
    ExprReading<D>(s.cond);
    ReadingConcat(AcceptedFirst(s.first), of, full, AcceptedExpr(s.cond), OfExpr(s.cond), FullExpr(s.cond));
    var acc := AcceptedFirst(s.first) && AcceptedExpr(s.cond);
    var of2: seq<Event<D>>, full2: seq<Event<D>> := of + OfExpr(s.cond), full + FullExpr(s.cond);
    BlockReading(types, s.onTrue);
    ReadingConcat(acc, of2, full2, AcceptedList(s.onTrue), Block(OfList(types, s.onTrue)), Block(FullList(types, s.onTrue)));
    if s.onFalse.Else? { BlockReading(types, s.onFalse.code); }
    ReadingConcat(acc && AcceptedList(s.onTrue), of2 + Block(OfList(types, s.onTrue)), full2 + Block(FullList(types, s.onTrue)),
      s.onFalse.Else? ==> AcceptedList(s.onFalse.code),
      if s.onFalse.NoElse? then [] else Block(OfList(types, s.onFalse.code)),
      if s.onFalse.NoElse? then [] else Block(FullList(types, s.onFalse.code)));
  }

  lemma {:induction false} LoopReading<D(!new)>(types: Types<D>, s: Stmt)
    requires s.Loop?
    ensures Reading(AcceptedStmt(s), OfStmt(types, s), FullStmt(types, s))
    decreases s, 1
  {
    hide Reading, Block;
    FirstReading(types, s.first);
    OptionReading<D>(s.test);
    ReadingConcat(AcceptedFirst(s.first), OfFirst(types, s.first), FullFirst(types, s.first), AcceptedOption(s.test), OfOption(s.test), FullOption(s.test));
    ListReading(types, s.body);
    FirstReading(types, s.post);
    var acc := AcceptedList(s.body) && AcceptedFirst(s.post);
    var of, full := OfList(types, s.body) + OfFirst(types, s.post), FullList(types, s.body) + FullFirst(types, s.post);
    ReadingConcat(AcceptedList(s.body), OfList(types, s.body), FullList(types, s.body),
      AcceptedFirst(s.post), OfFirst(types, s.post), FullFirst(types, s.post));
    ReadingBlock(acc, of, full);
    ReadingConcat(AcceptedFirst(s.first) && AcceptedOption(s.test), OfFirst(types, s.first) + OfOption(s.test),
      FullFirst(types, s.first) + FullOption(s.test), acc, Block(of), Block(full));
  }

  lemma ItemReading<D(!new)>(types: Types<D>, i: Item)
    ensures Reading(i.Function? ==> AcceptedList(i.code), OfItem(types, i), FullItem(types, i))
  {
    hide Reading, Block;
    var bind := Bind(if i.GlobalDecl? then i.gname else i.fname, types(ItemBinder(i)), i.Function?);
    BalancedOne(bind);
    ReadingSame([bind]);
    if i.Function? {
      var params := OfParams(types, i, |i.params|);
      ParamsBalanced(types, i, |i.params|);
      ReadingSame(params);
      ListReading(types, i.code);
      ReadingConcat(true, params, params, AcceptedList(i.code), OfList(types, i.code), FullList(types, i.code));
      ReadingBlock(AcceptedList(i.code), params + OfList(types, i.code), params + FullList(types, i.code));
      ReadingConcat(true, [bind], [bind], AcceptedList(i.code), Block(params + OfList(types, i.code)), Block(params + FullList(types, i.code)));
    }
  }

  lemma {:induction false} ProgramReading<D(!new)>(types: Types<D>, items: seq<Item>)
    ensures Reading(Accepted(items), OfProgram(types, items), FullProgram(types, items))
    decreases |items|
  {
    hide Reading, OfItem, FullItem;
    NoneReading<D>();
    if items != [] {
      var a, i := items[..|items| - 1], items[|items| - 1];
      ProgramReading(types, a);
      ItemReading(types, i);
      ReadingConcat(Accepted(a), OfProgram(types, a), FullProgram(types, a), i.Function? ==> AcceptedList(i.code), OfItem(types, i), FullItem(types, i));
    }
  }

  /** What the checker lets through has no rejected form. It lets every program through that has
      none and whose names are all in scope, and no other one if it skips none of them. */
  lemma OccurrencesDecided<D(!new)>(types: Types<D>, items: seq<Item>)
    ensures WellScoped(OfProgram(types, items)) ==> Accepted(items)
    ensures Accepted(items) && WellScoped(FullProgram(types, items)) ==> WellScoped(OfProgram(types, items))
    ensures Covered(items) ==> (WellScoped(OfProgram(types, items)) <==> Accepted(items) && WellScoped(FullProgram(types, items)))
  {
    var s: Symbols<D> := [map[]];
    StackDecidesScoping(OfProgram(types, items));
    StackDecidesScoping(FullProgram(types, items));
    ProgramReading(types, items);
    assert Below(s, s);
    if Accepted(items) && Covered(items) { ProgramCovered(types, s, items); }
    hide WellScoped, Run, Below, Balanced, OfProgram, FullProgram;
  }

  // ---- One position at a time -------------------------------------------------------------

  /** A function with one parameter and one statement. */
  function Single(f: string, a: string, t: Stmt): seq<Item> {
    [Function(f, [a], [t])]
  }

  /** The scopes at its statement. */
  function Inside<D>(types: Types<D>, f: string, a: string, t: Stmt): (s: Symbols<D>)
    ensures |s| == 2
  {
    var i := Single(f, a, t)[0];
    [map[f := Symbol(Defined, types(ItemBinder(i)))], map[a := Symbol(Defined, types(ParamBinder(i, 0)))]]
  }

  lemma DefineFree<D>(s: Symbols<D>, x: string, d: D)
    requires s != [] && forall k :: 0 <= k < |s| ==> x !in s[k]
    ensures Step(s, Bind(x, d, true)) == Some(s[|s| - 1 := s[|s| - 1][x := Symbol(Defined, d)]])
  {
    NotFound(s, x);
  }

  lemma SingleRuns<D>(types: Types<D>, f: string, a: string, t: Stmt, body: seq<Event<D>>, evs: seq<Event<D>>)
    requires f != a && Balanced(body)
    requires var i := Single(f, a, t)[0];
      evs == [Bind(f, types(ItemBinder(i)), true)] + Block(OfParams(types, i, 1) + body)
    ensures Run([map[]], evs).Some? <==> Run(Inside(types, f, a, t), body).Some?
  {
    var i := Single(f, a, t)[0];
    var bind: Event<D>, param: Event<D> := Bind(f, types(ItemBinder(i)), true), Bind(a, types(ParamBinder(i, 0)), true);
    var s0: Symbols<D> := [map[]];
    var s := Inside(types, f, a, t);
    var s1 := s[..1];
    assert OfParams(types, i, 1) == [param] by { assert OfParams(types, i, 0) == []; }
    DefineFree(s0, f, bind.data);
    DefineFree(s1 + [map[]], a, param.data);
    assert s0[0 := s0[0][f := Symbol(Defined, bind.data)]] == s1;
    assert (s1 + [map[]])[1 := (s1 + [map[]])[1][a := Symbol(Defined, param.data)]] == s;
    hide Find, Step;
    RunOne(s0, bind);
    RunOne(s1 + [map[]], param);
    if Run(s, body).Some? { assert body[..|body|] == body; RunKept(s, body, |body|); }
    hide Run, Block, Inside;
    RunConcat(s0, [bind], Block([param] + body));
    RunBlock(s1, [param] + body);
    RunConcat(s1 + [map[]], [param], body);
  }

  lemma SingleEvents<D>(types: Types<D>, f: string, a: string, t: Stmt)
    ensures var i := Single(f, a, t)[0];
      var bind := [Bind(f, types(ItemBinder(i)), true)];
      && OfProgram(types, [i]) == bind + Block(OfParams(types, i, 1) + OfStmt(types, t))
      && FullProgram(types, [i]) == bind + Block(OfParams(types, i, 1) + FullStmt(types, t))
  {
    var i := Single(f, a, t)[0];
    assert [i][..0] == [] && OfProgram(types, []) == [] && FullProgram(types, []) == [];
    assert [t][..0] == [] && OfList(types, []) == [] && FullList(types, []) == [];
    assert OfList(types, [t]) == OfStmt(types, t) && FullList(types, [t]) == FullStmt(types, t);
    hide OfStmt, FullStmt, OfParams, Block;
  }

  /** Its statement decides both readings. */
  lemma SingleDecided<D(!new)>(types: Types<D>, f: string, a: string, t: Stmt)
    requires f != a
    ensures WellScoped(OfProgram(types, Single(f, a, t))) <==> Run(Inside(types, f, a, t), OfStmt(types, t)).Some?
    ensures WellScoped(FullProgram(types, Single(f, a, t))) <==> Run(Inside(types, f, a, t), FullStmt(types, t)).Some?
  {
    var items := Single(f, a, t);
    SingleEvents(types, f, a, t);
    StackDecidesScoping(OfProgram(types, items));
    StackDecidesScoping(FullProgram(types, items));
    StmtReading(types, t);
    StmtBalanced(types, t);
    hide WellScoped, Run, Balanced, OfProgram, FullProgram, Block, OfStmt, FullStmt, Inside;
    SingleRuns(types, f, a, t, OfStmt(types, t), OfProgram(types, items));
    SingleRuns(types, f, a, t, FullStmt(types, t), FullProgram(types, items));
  }

  /** An expression is let through exactly when it has no rejected form and what is looked up in
      it is in scope, whatever occurs in it. */
  lemma ExprDecided<D(!new)>(types: Types<D>, f: string, a: string, e: Expr)
    requires f != a
    ensures WellScoped(OfProgram(types, Single(f, a, ExprStmt(e)))) <==> AcceptedExpr(e) && forall x <- LookedUp(e) :: x == f || x == a
    ensures WellScoped(FullProgram(types, Single(f, a, ExprStmt(e)))) <==> forall x <- Occurring(e) :: x == f || x == a
  {
    var t := ExprStmt(e);
    var s := Inside(types, f, a, t);
    hide WellScoped, Run, Find, OfProgram, FullProgram, LookedUp, Occurring, AcceptedExpr, Inside;
    SingleDecided(types, f, a, t);
    OfExprRuns(s, e);
    ExprFull(s, e);
    forall x ensures Find(s, x).Some? <==> x == f || x == a { InsideNames(types, f, a, t, x); }
  }

  lemma InsideNames<D>(types: Types<D>, f: string, a: string, t: Stmt, x: string)
    ensures Find(Inside(types, f, a, t), x).Some? <==> x == f || x == a
  {
    NotFound(Inside(types, f, a, t), x);
  }

  lemma StrayName<D(!new)>(types: Types<D>, f: string, a: string, e: Expr, x: string)
    requires f != a && x != f && x != a && x in Occurring(e) && LookedUp(e) == [a] && AcceptedExpr(e)
    ensures var items := Single(f, a, ExprStmt(e));
      WellScoped(OfProgram(types, items)) && !WellScoped(FullProgram(types, items))
  {
    hide WellScoped, OfProgram, FullProgram, Occurring, LookedUp, AcceptedExpr;
    ExprDecided(types, f, a, e);
  }

  /** An unbound name in the index of a subscript passes, */
  lemma StrayIndexPasses<D(!new)>(types: Types<D>, f: string, a: string, i: Expr, x: string)
    requires f != a && x != f && x != a && x in Occurring(i)
    ensures var items := Single(f, a, ExprStmt(Subscript(Identifier(a), i)));
      WellScoped(OfProgram(types, items)) && !WellScoped(FullProgram(types, items))
  {
    hide WellScoped, OfProgram, FullProgram;
    StrayName(types, f, a, Subscript(Identifier(a), i), x);
  }

  /** and so it does in an element of an array behind the first, */
  lemma StrayElementPasses<D(!new)>(types: Types<D>, f: string, a: string, elems: seq<Expr>, x: string)
    requires f != a && x != f && x != a && x in OccurringAll(elems)
    ensures var items := Single(f, a, ExprStmt(ArrayExpr([Identifier(a)] + elems)));
      WellScoped(OfProgram(types, items)) && !WellScoped(FullProgram(types, items))
  {
    hide WellScoped, OfProgram, FullProgram;
    var all := [Identifier(a)] + elems;
    HeadOccurs(all);
    assert all[1..] == elems;
    hide OccurringAll;
    StrayName(types, f, a, ArrayExpr(all), x);
  }

  /** behind a dot, */
  lemma StrayMemberPasses<D(!new)>(types: Types<D>, f: string, a: string, m: Expr, x: string)
    requires f != a && x != f && x != a && x in OccurringMember(m)
    ensures var items := Single(f, a, ExprStmt(MemberAccess(Identifier(a), m)));
      WellScoped(OfProgram(types, items)) && !WellScoped(FullProgram(types, items))
  {
    hide WellScoped, OfProgram, FullProgram;
    StrayName(types, f, a, MemberAccess(Identifier(a), m), x);
  }

  /** and in a deferred statement. */
  lemma StrayDeferredPasses<D(!new)>(types: Types<D>, f: string, a: string, e: Expr, x: string)
    requires f != a && x != f && x != a && x in Occurring(e)
    ensures var items := Single(f, a, Defer([ExprStmt(e)]));
      WellScoped(OfProgram(types, items)) && !WellScoped(FullProgram(types, items))
  {
    var t := Defer([ExprStmt(e)]);
    var s := Inside(types, f, a, t);
    InsideNames(types, f, a, t, x);
    hide WellScoped, Run, OfProgram, FullProgram, Inside, FullStmt, Find;
    DeferredFails(types, s, e, x);
    SingleDecided(types, f, a, t);
    RunNothing(s);
  }

  lemma DeferredFails<D>(types: Types<D>, s: Symbols<D>, e: Expr, x: string)
    requires s != [] && x in Occurring(e) && Find(s, x).None?
    ensures Run(s, FullStmt(types, Defer([ExprStmt(e)]))).None?
  {
    assert FullStmt(types, Defer([ExprStmt(e)])) == Block(FullExpr(e)) by {
      assert [ExprStmt(e)][..0] == [] && FullList(types, []) == [];
      assert FullList(types, [ExprStmt(e)]) == FullExpr(e);
    }
    hide Run, Find, Block, FullStmt, FullExpr;
    RunBlock(s, FullExpr(e));
    ExprFull(s + [map[]], e);
    FindPush(s, x);
  }

  /** A `return` without a value and an empty array do not pass, although nothing is out of scope. */
  lemma BareReturnFails<D(!new)>(types: Types<D>, f: string, a: string)
    requires f != a
    ensures var items := Single(f, a, Return(None));
      !WellScoped(OfProgram(types, items)) && WellScoped(FullProgram(types, items))
  {
    var s := Inside(types, f, a, Return(None));
    SingleDecided(types, f, a, Return(None));
    RunNothing(s);
    RunOne(s, Event<D>.Reject);
    hide WellScoped, Run, Find, OfProgram, FullProgram;
  }

  lemma EmptyArrayFails<D(!new)>(types: Types<D>, f: string, a: string)
    requires f != a
    ensures var items := Single(f, a, ExprStmt(ArrayExpr([])));
      !WellScoped(OfProgram(types, items)) && WellScoped(FullProgram(types, items))
  {
    hide WellScoped, OfProgram, FullProgram;
    ExprDecided(types, f, a, ArrayExpr([]));
  }
}
