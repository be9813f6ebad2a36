/** The names part of the semantic checker: what a tree does to scopes, and the visitor that does
    it on an `EnvState`. The types of what is bound are given; checking them is not modelled. */
module ScopeCheckers {
  import opened Ast
  import opened Statements
  import opened Scopes
  import opened ScopeRules
  import opened ScopeRestore
  import opened EnvStates

  datatype Binder =
    | StmtBinder(s: Stmt)
    | ItemBinder(i: Item)
    | ParamBinder(f: Item, k: nat)

  type Types<!D> = Binder -> D

  // ---- What a tree does -------------------------------------------------------------------

  /** The index of a subscript, the elements of an array behind the first, and the member behind
      a dot are never looked up; the base of a subscript is looked up twice. */
  function OfExpr<D>(e: Expr): seq<Event<D>> {
    match e
    case Literal(_) => []
    case ArrayExpr(elems) => if elems == [] then [Reject] else OfExpr(elems[0])
    case Identifier(x) => [Use(x)]
    case FunctionCall(f, args) => [Use(f)] + OfArgs(args)
    case Prefix(_, x) => OfExpr(x)
    case Infix(_, l, r) => OfExpr(l) + OfExpr(r)
    case MemberAccess(o, _) => OfExpr(o)
    case Subscript(b, _) => OfExpr(b) + OfExpr(b)
  }

  function OfArgs<D>(args: seq<Expr>): seq<Event<D>> {
    if args == [] then [] else OfArgs(args[..|args| - 1]) + OfExpr(args[|args| - 1])
  }

  function OfOption<D>(e: Option<Expr>): seq<Event<D>> {
    if e.None? then [] else OfExpr(e.value)
  }

  function Block<D>(body: seq<Event<D>>): seq<Event<D>> {
    [Event<D>.Open] + body + [Event<D>.Close]
  }

  /** A `return` without a value is rejected; deferred statements are not looked at. What an `If`
      or a `Loop` initialises is bound outside of its blocks. */
  function OfStmt<D>(types: Types<D>, s: Stmt): seq<Event<D>>
    decreases s, 1
  {
    match s
    case Let(x, init) => OfOption(init) + [Bind(x, types(StmtBinder(s)), true)]
    case Var(x, init) => OfOption(init) + [Bind(x, types(StmtBinder(s)), true)]
    case Assign(_, target, value) => OfExpr(target) + OfExpr(value)
    case Increment(x) => OfExpr(x)
    case Decrement(x) => OfExpr(x)
    case ExprStmt(e) => OfExpr(e)
    case Return(result) => if result.None? then [Reject] else OfExpr(result.value)
    case If(first, cond, onTrue, onFalse) =>
      (if first.None? then [] else OfStmt(types, first.value)) + OfExpr(cond) + Block(OfList(types, onTrue)) +
      (if onFalse.NoElse? then [] else Block(OfList(types, onFalse.code)))
    case Loop(first, test, post, body) =>
      (if first.None? then [] else OfStmt(types, first.value)) + OfOption(test) +
      Block(OfList(types, body) + (if post.None? then [] else OfStmt(types, post.value)))
    case Break => []
    case Continue => []
    case Defer(_) => []
  }

  function OfList<D>(types: Types<D>, ss: seq<Stmt>): seq<Event<D>>
    decreases ss, 0
  {
    if ss == [] then [] else OfList(types, ss[..|ss| - 1]) + OfStmt(types, ss[|ss| - 1])
  }

  function OfParams<D>(types: Types<D>, f: Item, n: nat): seq<Event<D>>
    requires f.Function? && n <= |f.params|
  {
    if n == 0 then [] else OfParams(types, f, n - 1) + [Bind(f.params[n - 1], types(ParamBinder(f, n - 1)), true)]
  }

  function OfItem<D>(types: Types<D>, i: Item): seq<Event<D>> {
    match i
    case FunctionDecl(f) => [Bind(f, types(ItemBinder(i)), false)]
    case GlobalDecl(x) => [Bind(x, types(ItemBinder(i)), false)]
    case Function(f, params, code) =>
      [Bind(f, types(ItemBinder(i)), true)] + Block(OfParams(types, i, |params|) + OfList(types, code))
  }

  function OfProgram<D>(types: Types<D>, items: seq<Item>): seq<Event<D>> {
    if items == [] then [] else OfProgram(types, items[..|items| - 1]) + OfItem(types, items[|items| - 1])
  }

  // ---- Every construct leaves the depth ---------------------------------------------------

  lemma {:induction false} ExprBalanced<D>(e: Expr)
    ensures Balanced<D>(OfExpr(e))
    decreases e, 1
  {
    BalancedNone<D>();
    match e
    case ArrayExpr(elems) => if elems == [] { BalancedOne<D>(Reject); } else { ExprBalanced<D>(elems[0]); }
    case Identifier(x) => BalancedOne<D>(Use(x));
    case FunctionCall(f, args) =>
      BalancedOne<D>(Use(f));
      ArgsBalanced<D>(args);
      BalancedConcat<D>([Use(f)], OfArgs(args));
    case Prefix(_, x) => ExprBalanced<D>(x);
    case Infix(_, l, r) =>
      ExprBalanced<D>(l);
      ExprBalanced<D>(r);
      BalancedConcat<D>(OfExpr(l), OfExpr(r));
    case MemberAccess(o, _) => ExprBalanced<D>(o);
    case Subscript(b, _) =>
      ExprBalanced<D>(b);
      BalancedConcat<D>(OfExpr(b), OfExpr(b));
    case Literal(_) =>
  }

  lemma {:induction false} ArgsBalanced<D>(args: seq<Expr>)
    ensures Balanced<D>(OfArgs(args))
    decreases args, 0
  {
    BalancedNone<D>();
    if args != [] {
      ArgsBalanced<D>(args[..|args| - 1]);
      ExprBalanced<D>(args[|args| - 1]);
      BalancedConcat<D>(OfArgs(args[..|args| - 1]), OfExpr(args[|args| - 1]));
    }
  }

  lemma OptionBalanced<D>(e: Option<Expr>)
    ensures Balanced<D>(OfOption(e))
  {
    BalancedNone<D>();
    if e.Some? { ExprBalanced<D>(e.value); }
  }

  lemma {:induction false} StmtBalanced<D>(types: Types<D>, s: Stmt)
    ensures Balanced(OfStmt(types, s))
    decreases s, 2
  {
    hide Balanced;
    BalancedNone<D>();
    match s
    case Let(x, init) => BindingBalanced(types, s, x, init);
    case Var(x, init) => BindingBalanced(types, s, x, init);
    case Assign(_, target, value) =>
      ExprBalanced<D>(target);
      ExprBalanced<D>(value);
      BalancedConcat<D>(OfExpr(target), OfExpr(value));
    case Increment(x) => ExprBalanced<D>(x);
    case Decrement(x) => ExprBalanced<D>(x);
    case ExprStmt(e) => ExprBalanced<D>(e);
    case Return(result) => if result.None? { BalancedOne<D>(Reject); } else { ExprBalanced<D>(result.value); }
    case If(_, _, _, _) => IfBalanced(types, s);
    case Loop(_, _, _, _) => LoopBalanced(types, s);
    case Break =>
    case Continue =>
    case Defer(_) =>
  }

  lemma BindingBalanced<D>(types: Types<D>, s: Stmt, x: string, init: Option<Expr>)
    ensures Balanced(OfOption<D>(init) + [Bind(x, types(StmtBinder(s)), true)])
  {
    hide Balanced;
    OptionBalanced<D>(init);
    BalancedOne<D>(Bind(x, types(StmtBinder(s)), true));
    BalancedConcat<D>(OfOption(init), [Bind(x, types(StmtBinder(s)), true)]);
  }

  lemma {:induction false} ListBalanced<D>(types: Types<D>, ss: seq<Stmt>)
    ensures Balanced(OfList(types, ss))
    decreases ss, 0
  {
    BalancedNone<D>();
    hide Balanced;
    if ss != [] {
      ListBalanced(types, ss[..|ss| - 1]);
      StmtBalanced(types, ss[|ss| - 1]);
      BalancedConcat(OfList(types, ss[..|ss| - 1]), OfStmt(types, ss[|ss| - 1]));
    }
  }

  lemma {:induction false} IfBalanced<D>(types: Types<D>, s: Stmt)
    requires s.If?
    ensures Balanced(OfStmt(types, s))
    decreases s, 1
  {
    hide Balanced;
    BalancedNone<D>();
    var first: seq<Event<D>> := if s.first.None? then [] else OfStmt(types, s.first.value);
    if s.first.Some? { StmtBalanced(types, s.first.value); }
    ExprBalanced<D>(s.cond);
    ListBalanced(types, s.onTrue);
    BalancedBlock(OfList(types, s.onTrue));
    var alt: seq<Event<D>> := if s.onFalse.NoElse? then [] else Block(OfList(types, s.onFalse.code));
    if s.onFalse.Else? {
      ListBalanced(types, s.onFalse.code);
      BalancedBlock(OfList(types, s.onFalse.code));
    }
    BalancedConcat(first, OfExpr<D>(s.cond));
    BalancedConcat(first + OfExpr<D>(s.cond), Block(OfList(types, s.onTrue)));
    BalancedConcat(first + OfExpr<D>(s.cond) + Block(OfList(types, s.onTrue)), alt);
  }

  lemma {:induction false} LoopBalanced<D>(types: Types<D>, s: Stmt)
    requires s.Loop?
    ensures Balanced(OfStmt(types, s))
    decreases s, 1
  {
    hide Balanced;
    BalancedNone<D>();
    var first: seq<Event<D>> := if s.first.None? then [] else OfStmt(types, s.first.value);
    if s.first.Some? { StmtBalanced(types, s.first.value); }
    OptionBalanced<D>(s.test);
    ListBalanced(types, s.body);
    var post: seq<Event<D>> := if s.post.None? then [] else OfStmt(types, s.post.value);
    if s.post.Some? { StmtBalanced(types, s.post.value); }
    BalancedConcat(OfList(types, s.body), post);
    BalancedBlock(OfList(types, s.body) + post);
    BalancedConcat(first, OfOption<D>(s.test));
    BalancedConcat(first + OfOption<D>(s.test), Block(OfList(types, s.body) + post));
  }

  lemma {:induction false} ParamsBalanced<D>(types: Types<D>, f: Item, n: nat)
    requires f.Function? && n <= |f.params|
    ensures Balanced(OfParams(types, f, n))
  {
    BalancedNone<D>();
    hide Balanced;
    if n > 0 {
      ParamsBalanced(types, f, n - 1);
      BalancedOne(Bind(f.params[n - 1], types(ParamBinder(f, n - 1)), true));
      BalancedConcat(OfParams(types, f, n - 1), [Bind(f.params[n - 1], types(ParamBinder(f, n - 1)), true)]);
    }
  }

  lemma ItemBalanced<D>(types: Types<D>, i: Item)
    ensures Balanced(OfItem(types, i))
  {
    hide Balanced;
    match i
    case FunctionDecl(f) => BalancedOne(Bind(f, types(ItemBinder(i)), false));
    case GlobalDecl(x) => BalancedOne(Bind(x, types(ItemBinder(i)), false));
    case Function(f, params, code) =>
      var bind := Bind(f, types(ItemBinder(i)), true);
      BalancedOne(bind);
      ParamsBalanced(types, i, |params|);
      ListBalanced(types, code);
      BalancedConcat(OfParams(types, i, |params|), OfList(types, code));
      BalancedBlock(OfParams(types, i, |params|) + OfList(types, code));
      BalancedConcat([bind], Block(OfParams(types, i, |params|) + OfList(types, code)));
  }

  /** Checking a statement leaves the scope depth; outer scopes keep their names, all symbols
      their types, and only declared ones may have become defined. */
  lemma StatementKeepsScopes<D>(types: Types<D>, s: Symbols<D>, t: Stmt)
    requires s != [] && Run(s, OfStmt(types, t)).Some?
    ensures var s' := Run(s, OfStmt(types, t)).value; |s'| == |s| && Kept(s, s')
  {
    var evs := OfStmt(types, t);
    StmtBalanced(types, t);
    assert evs[..|evs|] == evs;
    hide OfStmt, Run, Kept;
    RunKept(s, evs, |evs|);
  }

  /** Checking a function leaves exactly the outer names and the function's own. */
  lemma FunctionKeepsScopes<D>(types: Types<D>, s: Symbols<D>, i: Item)
    requires s != [] && i.Function? && Run(s, OfItem(types, i)).Some?
    ensures var s' := Run(s, OfItem(types, i)).value;
      |s'| == |s| && Kept(s, s') && s'[|s| - 1].Keys <= s[|s| - 1].Keys + {i.fname}
  {
    var bind := Bind(i.fname, types(ItemBinder(i)), true);
    var body := OfParams(types, i, |i.params|) + OfList(types, i.code);
    ParamsBalanced(types, i, |i.params|);
    ListBalanced(types, i.code);
    BalancedConcat(OfParams(types, i, |i.params|), OfList(types, i.code));
    RunConcat(s, [bind], Block(body));
    assert Run(s, [bind]) == Step(s, bind) by { assert Run(s, []) == Some(s); assert [bind][..0] == []; }
    var s1 := Step(s, bind).value;
    StepKept(s, bind);
    hide Run, OfParams, OfList, Balanced, Find;
    MatchedRestores(s1, body);
    var s' := Run(s, OfItem(types, i)).value;
    assert forall k :: 0 <= k < |s| ==> s'[k].Keys == s1[k].Keys;
    KeptTrans(s, s1, s');
  }

  /** The checker lets a program's names through exactly when the program is well scoped. */
  lemma CheckerDecidesScoping<D(!new)>(types: Types<D>, items: seq<Item>)
    ensures Run([map[]], OfProgram(types, items)).Some? <==> WellScoped(OfProgram(types, items))
  {
    StackDecidesScoping(OfProgram(types, items));
  }
}
