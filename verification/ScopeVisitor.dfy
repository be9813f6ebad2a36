/** The names part of the semantic checker as a visitor that updates a scope stack in place. */
module ScopeVisitors {
  import opened Ast
  import opened Statements
  import opened Scopes
  import opened ScopeRules
  import opened ScopeRestore
  import opened ScopeCheckers
  import opened ScopeOccurrences
  import opened EnvStates

  /** The visit threw exactly when the events do not run, and otherwise left what they leave. */
  ghost predicate Did<D>(s: Symbols<D>, evs: seq<Event<D>>, ok: bool, s': Symbols<D>)
    requires s != []
  {
    ok == Run(s, evs).Some? && (ok ==> s' == Run(s, evs).value)
  }

  lemma DidThen<D>(s: Symbols<D>, a: seq<Event<D>>, s1: Symbols<D>, b: seq<Event<D>>, ok: bool, s2: Symbols<D>)
    requires s != [] && s1 != [] && Did(s, a, true, s1) && Did(s1, b, ok, s2)
    ensures Did(s, a + b, ok, s2)
  {
    RunConcat(s, a, b);
  }

  lemma DidNot<D>(s: Symbols<D>, a: seq<Event<D>>, s1: Symbols<D>, b: seq<Event<D>>)
    requires s != [] && Did(s, a, false, s1)
    ensures Did(s, a + b, false, s1)
  {
    RunConcat(s, a, b);
  }

  lemma DidOne<D>(s: Symbols<D>, e: Event<D>, ok: bool, s': Symbols<D>)
    requires s != [] && ok == Step(s, e).Some? && (ok ==> s' == Step(s, e).value)
    ensures Did(s, [e], ok, s')
  {
    assert [e][..0] == [];
    assert Run(s, []) == Some(s);
  }

  lemma DidNothing<D>(s: Symbols<D>)
    requires s != []
    ensures Did(s, [], true, s)
  {}

  class SemanticChecker<D(==)> {
    const state: EnvState<Symbol<D>>
    const types: Types<D>

    constructor (types: Types<D>)
      ensures fresh(state) && Valid() && state.envs == [map[]] && this.types == types
    {
      state := new EnvState<Symbol<D>>();
      this.types := types;
    }

    ghost predicate Valid()
      reads state
    {
      state.Valid()
    }

    method LookUp(x: string) returns (ok: bool)
      requires Valid()
      modifies state
      ensures Valid() && Did(old(state.envs), [Use(x)], ok, state.envs)
    {
      var found := state.Find(x);
      ok := found.Some?;
      DidOne(state.envs, Use(x), ok, state.envs);
    }

    method AddSymbolDeclaration(x: string, d: D) returns (ok: bool)
      requires Valid()
      modifies state
      ensures Valid() && Did(old(state.envs), [Bind(x, d, false)], ok, state.envs)
    {
      ghost var s := state.envs;
      var found := state.Find(x);
      if found.Some? {
        ok := found.value.data == d;
      } else {
        NotFound(s, x);
        ok := state.Insert(x, Symbol(Declared, d));
      }
      DidOne(s, Bind(x, d, false), ok, state.envs);
    }

    method AddSymbolDefinition(x: string, d: D) returns (ok: bool)
      requires Valid()
      modifies state
      ensures Valid() && Did(old(state.envs), [Bind(x, d, true)], ok, state.envs)
    {
      ghost var s := state.envs;
      var found := state.Find(x);
      if found.None? {
        NotFound(s, x);
        ok := state.Insert(x, Symbol(Defined, d));
      } else if found.value.status.Declared? && found.value.data == d {
        ok := state.Update(x, Symbol(Defined, d));
      } else {
        ok := false;
      }
      DidOne(s, Bind(x, d, true), ok, state.envs);
    }

    // ---- Expressions ----------------------------------------------------------------------

    method VisitExpr(e: Expr) returns (ok: bool)
      requires Valid()
      modifies state
      ensures Valid() && Did(old(state.envs), OfExpr(e), ok, state.envs)
      decreases e, 1
    {
      hide Did;
      ghost var s := state.envs;
      DidNothing(s);
      match e
      case Literal(_) => ok := true;
      case ArrayExpr(elems) =>
        if elems == [] {
          DidOne(s, Reject, false, s);
          return false;
        }
        ok := VisitExpr(elems[0]);
      case Identifier(x) => ok := LookUp(x);
      case FunctionCall(f, args) =>
        ok := LookUp(f);
        ghost var s1 := state.envs;
        if ok {
          ok := VisitArgs(args);
          DidThen(s, [Use(f)], s1, OfArgs(args), ok, state.envs);
        } else {
          DidNot(s, [Use(f)], s1, OfArgs(args));
        }
      case Prefix(_, x) => ok := VisitExpr(x);
      case Infix(op, l, r) => ok := VisitBoth(op, l, r);
      case MemberAccess(o, _) => ok := VisitExpr(o);
      case Subscript(b, _) => ok := VisitTwice(b);
    }

    method VisitBoth(ghost op: InfixOp, l: Expr, r: Expr) returns (ok: bool)
      requires Valid()
      modifies state
      ensures Valid() && Did(old(state.envs), OfExpr(l) + OfExpr(r), ok, state.envs)
      decreases Infix(op, l, r), 0
    {
      hide Did, OfExpr, Run, Scopes.Find;
      ghost var s := state.envs;
      ok := VisitExpr(l);
      ghost var s1 := state.envs;
      if ok {
        ok := VisitExpr(r);
        DidThen(s, OfExpr(l), s1, OfExpr(r), ok, state.envs);
      } else {
        DidNot(s, OfExpr(l), s1, OfExpr(r));
      }
    }

    method VisitTwice(b: Expr) returns (ok: bool)
      requires Valid()
      modifies state
      ensures Valid() && Did(old(state.envs), OfExpr(b) + OfExpr(b), ok, state.envs)
      decreases b, 2
    {
      hide Did, OfExpr;
      ghost var s := state.envs;
      ok := VisitExpr(b);
      ghost var s1 := state.envs;
      if ok {
        ok := VisitExpr(b);
        DidThen(s, OfExpr(b), s1, OfExpr(b), ok, state.envs);
      } else {
        DidNot(s, OfExpr(b), s1, OfExpr(b));
      }
    }

    method VisitArgs(args: seq<Expr>) returns (ok: bool)
      requires Valid()
      modifies state
      ensures Valid() && Did(old(state.envs), OfArgs(args), ok, state.envs)
      decreases args, 0
    {
      hide Did, OfExpr;
      ghost var s := state.envs;
      DidNothing(s);
      for i := 0 to |args|
        invariant Valid() && Did(s, OfArgs(args[..i]), true, state.envs)
      {
        ghost var s1 := state.envs;
        ok := VisitExpr(args[i]);
        assert args[..i + 1][..i] == args[..i];
        if !ok {
          DidThen(s, OfArgs(args[..i]), s1, OfExpr(args[i]), false, state.envs);
          ArgsStop(s, args, i + 1, state.envs);
          return;
        }
        DidThen(s, OfArgs(args[..i]), s1, OfExpr(args[i]), true, state.envs);
      }
      assert args[..|args|] == args;
      return true;
    }

    method VisitOption(e: Option<Expr>) returns (ok: bool)
      requires Valid()
      modifies state
      ensures Valid() && Did(old(state.envs), OfOption(e), ok, state.envs)
    {
      hide Did, OfExpr;
      DidNothing(state.envs);
      ok := true;
      if e.Some? { ok := VisitExpr(e.value); }
    }

    // ---- Statements -----------------------------------------------------------------------

    method VisitBinding(s: Stmt, x: string, init: Option<Expr>) returns (ok: bool)
      requires Valid()
      modifies state
      ensures Valid() && Did(old(state.envs), OfOption<D>(init) + [Bind(x, types(StmtBinder(s)), true)], ok, state.envs)
    {
      hide Did, OfOption;
      ghost var s0 := state.envs;
      ghost var bind := Bind(x, types(StmtBinder(s)), true);
      ok := VisitOption(init);
      ghost var s1 := state.envs;
      if ok {
        ok := AddSymbolDefinition(x, types(StmtBinder(s)));
        DidThen(s0, OfOption(init), s1, [bind], ok, state.envs);
      } else {
        DidNot(s0, OfOption(init), s1, [bind]);
      }
    }

    method VisitStmt(s: Stmt) returns (ok: bool)
      requires Valid()
      modifies state
      ensures Valid() && Did(old(state.envs), OfStmt(types, s), ok, state.envs)
      decreases s, 2
    {
      hide Did, OfExpr, OfOption, OfList;
      ghost var s0 := state.envs;
      DidNothing(s0);
      match s
      case Let(x, init) => ok := VisitBinding(s, x, init);
      case Var(x, init) => ok := VisitBinding(s, x, init);
      case Assign(_, target, value) => ok := VisitBoth(Add, target, value);
      case Increment(x) => ok := VisitExpr(x);
      case Decrement(x) => ok := VisitExpr(x);
      case ExprStmt(e) => ok := VisitExpr(e);
      case Return(result) =>
        if result.None? {
          DidOne(s0, Reject, false, s0);
          return false;
        }
        ok := VisitExpr(result.value);
      case If(_, _, _, _) => ok := VisitIf(s);
      case Loop(_, _, _, _) => ok := VisitLoop(s);
      case Break => ok := true;
      case Continue => ok := true;
      case Defer(_) => ok := true;
    }

    method VisitFirst(s: Option<Stmt>) returns (ok: bool)
      requires Valid()
      modifies state
      ensures Valid() && Did(old(state.envs), if s.None? then [] else OfStmt(types, s.value), ok, state.envs)
      decreases s, 0
    {
      hide Did;
      DidNothing(state.envs);
      ok := true;
      if s.Some? { ok := VisitStmt(s.value); }
    }

    method VisitList(ss: seq<Stmt>) returns (ok: bool)
      requires Valid()
      modifies state
      ensures Valid() && Did(old(state.envs), OfList(types, ss), ok, state.envs)
      decreases ss, 0
    {
      hide Did, OfStmt;
      ghost var s := state.envs;
      DidNothing(s);
      for i := 0 to |ss|
        invariant Valid() && Did(s, OfList(types, ss[..i]), true, state.envs)
      {
        ghost var s1 := state.envs;
        ok := VisitStmt(ss[i]);
        assert ss[..i + 1][..i] == ss[..i];
        if !ok {
          DidThen(s, OfList(types, ss[..i]), s1, OfStmt(types, ss[i]), false, state.envs);
          ListStop(types, s, ss, i + 1, state.envs);
          return;
        }
        DidThen(s, OfList(types, ss[..i]), s1, OfStmt(types, ss[i]), true, state.envs);
      }
      assert ss[..|ss|] == ss;
      return true;
    }

    method PushEnv()
      requires Valid()
      modifies state
      ensures Valid() && Did(old(state.envs), [Event<D>.Open], true, state.envs)
    {
      ghost var s := state.envs;
      state.PushEnv();
      DidOne(s, Event<D>.Open, true, state.envs);
    }

    method PopEnv() returns (ok: bool)
      requires Valid()
      modifies state
      ensures Valid() && Did(old(state.envs), [Event<D>.Close], ok, state.envs)
    {
      ghost var s := state.envs;
      ok := state.PopEnv();
      DidOne(s, Event<D>.Close, ok, state.envs);
    }

    method VisitBlock(ss: seq<Stmt>) returns (ok: bool)
      requires Valid()
      modifies state
      ensures Valid() && Did(old(state.envs), Block(OfList(types, ss)), ok, state.envs)
      decreases ss, 1
    {
      hide Did, OfList;
      ghost var s := state.envs;
      ghost var body := OfList(types, ss);
      PushEnv();
      ghost var s1 := state.envs;
      ok := VisitList(ss);
      ghost var s2 := state.envs;
      DidThen(s, [Event<D>.Open], s1, body, ok, s2);
      ok := CloseAfter(s, [Event<D>.Open] + body, ok);
    }

    /** Leaves the scope unless something was thrown inside. */
    method CloseAfter(ghost s: Symbols<D>, ghost inside: seq<Event<D>>, going: bool) returns (ok: bool)
      requires Valid() && s != [] && Did(s, inside, going, state.envs)
      modifies state
      ensures Valid() && Did(s, inside + [Event<D>.Close], ok, state.envs)
    {
      hide Did;
      ghost var s1 := state.envs;
      if going {
        ok := PopEnv();
        DidThen(s, inside, s1, [Event<D>.Close], ok, state.envs);
      } else {
        DidNot(s, inside, s1, [Event<D>.Close]);
        ok := false;
      }
    }

    method VisitIf(s: Stmt) returns (ok: bool)
      requires Valid() && s.If?
      modifies state
      ensures Valid() && Did(old(state.envs), OfStmt(types, s), ok, state.envs)
      decreases s, 1
    {
      hide Did, OfExpr, OfList;
      ghost var s0 := state.envs;
      ghost var first: seq<Event<D>> := if s.first.None? then [] else OfStmt(types, s.first.value);
      ghost var alt: seq<Event<D>> := if s.onFalse.NoElse? then [] else Block(OfList(types, s.onFalse.code));
      ghost var cond, body := OfExpr(s.cond), Block(OfList(types, s.onTrue));
      ok := VisitFirst(s.first);
      ghost var s1 := state.envs;
      if !ok {
        DidNot(s0, first, s1, cond);
        DidNot(s0, first + cond, s1, body);
        DidNot(s0, first + cond + body, s1, alt);
        return;
      }
      ok := VisitExpr(s.cond);
      ghost var s2 := state.envs;
      DidThen(s0, first, s1, cond, ok, s2);
      if !ok {
        DidNot(s0, first + cond, s2, body);
        DidNot(s0, first + cond + body, s2, alt);
        return;
      }
      ok := VisitBlock(s.onTrue);
      ghost var s3 := state.envs;
      DidThen(s0, first + cond, s2, body, ok, s3);
      if !ok {
        DidNot(s0, first + cond + body, s3, alt);
        return;
      }
      DidNothing(s3);
      if s.onFalse.Else? { ok := VisitBlock(s.onFalse.code); }
      DidThen(s0, first + cond + body, s3, alt, ok, state.envs);
    }

    method VisitLoop(s: Stmt) returns (ok: bool)
      requires Valid() && s.Loop?
      modifies state
      ensures Valid() && Did(old(state.envs), OfStmt(types, s), ok, state.envs)
      decreases s, 1
    {
      hide Did, OfExpr, OfOption, OfList;
      ghost var s0 := state.envs;
      ghost var first: seq<Event<D>> := if s.first.None? then [] else OfStmt(types, s.first.value);
      ghost var post: seq<Event<D>> := if s.post.None? then [] else OfStmt(types, s.post.value);
      ghost var test, block := OfOption(s.test), Block(OfList(types, s.body) + post);
      ok := VisitFirst(s.first);
      ghost var s1 := state.envs;
      if !ok {
        DidNot(s0, first, s1, test);
        DidNot(s0, first + test, s1, block);
        return;
      }
      ok := VisitOption(s.test);
      ghost var s2 := state.envs;
      DidThen(s0, first, s1, test, ok, s2);
      if !ok {
        DidNot(s0, first + test, s2, block);
        return;
      }
      ok := VisitLoopBlock(s);
      DidThen(s0, first + test, s2, block, ok, state.envs);
    }

    /** The step of a loop is checked behind its body, in the body's scope. */
    method VisitLoopBlock(s: Stmt) returns (ok: bool)
      requires Valid() && s.Loop?
      modifies state
      ensures Valid()
      ensures Did(old(state.envs), Block(OfList(types, s.body) + (if s.post.None? then [] else OfStmt(types, s.post.value))), ok, state.envs)
      decreases s, 0
    {
      hide Did, OfStmt, OfList;
      ghost var s0 := state.envs;
      ghost var body := OfList(types, s.body);
      ghost var post: seq<Event<D>> := if s.post.None? then [] else OfStmt(types, s.post.value);
      PushEnv();
      ghost var s1 := state.envs;
      ok := VisitList(s.body);
      ghost var s2 := state.envs;
      if ok {
        ok := VisitFirst(s.post);
        DidThen(s1, body, s2, post, ok, state.envs);
      } else {
        DidNot(s1, body, s2, post);
      }
      DidThen(s0, [Event<D>.Open], s1, body + post, ok, state.envs);
      ok := CloseAfter(s0, [Event<D>.Open] + (body + post), ok);
    }

    // ---- Top level ------------------------------------------------------------------------

    method VisitParams(f: Item) returns (ok: bool)
      requires Valid() && f.Function?
      modifies state
      ensures Valid() && Did(old(state.envs), OfParams(types, f, |f.params|), ok, state.envs)
    {
      hide Did;
      ghost var s := state.envs;
      DidNothing(s);
      for i := 0 to |f.params|
        invariant Valid() && Did(s, OfParams(types, f, i), true, state.envs)
      {
        ghost var s1 := state.envs;
        ok := AddSymbolDefinition(f.params[i], types(ParamBinder(f, i)));
        DidThen(s, OfParams(types, f, i), s1, [Bind(f.params[i], types(ParamBinder(f, i)), true)], ok, state.envs);
        if !ok {
          ParamsStop(types, s, f, i + 1, state.envs);
          return;
        }
      }
      return true;
    }

    method VisitFunction(f: Item) returns (ok: bool)
      requires Valid() && f.Function?
      modifies state
      ensures Valid() && Did(old(state.envs), OfItem(types, f), ok, state.envs)
    {
      hide Did, OfParams, OfList;
      ghost var s := state.envs;
      ghost var bind := Bind(f.fname, types(ItemBinder(f)), true);
      ghost var params, body := OfParams(types, f, |f.params|), OfList(types, f.code);
      ok := AddSymbolDefinition(f.fname, types(ItemBinder(f)));
      ghost var s1 := state.envs;
      if !ok {
        DidNot(s, [bind], s1, Block(params + body));
        return;
      }
      PushEnv();
      ghost var s2 := state.envs;
      ok := VisitParams(f);
      ghost var s3 := state.envs;
      if ok {
        ok := VisitList(f.code);
        DidThen(s2, params, s3, body, ok, state.envs);
      } else {
        DidNot(s2, params, s3, body);
      }
      DidThen(s1, [Event<D>.Open], s2, params + body, ok, state.envs);
      ok := CloseAfter(s1, [Event<D>.Open] + (params + body), ok);
      DidThen(s, [bind], s1, Block(params + body), ok, state.envs);
    }

    method VisitItem(i: Item) returns (ok: bool)
      requires Valid()
      modifies state
      ensures Valid() && Did(old(state.envs), OfItem(types, i), ok, state.envs)
    {
      hide Did;
      match i
      case FunctionDecl(f) => ok := AddSymbolDeclaration(f, types(ItemBinder(i)));
      case GlobalDecl(x) => ok := AddSymbolDeclaration(x, types(ItemBinder(i)));
      case Function(_, _, _) => ok := VisitFunction(i);
    }

    method VisitItems(items: seq<Item>) returns (ok: bool)
      requires Valid()
      modifies state
      ensures Valid() && Did(old(state.envs), OfProgram(types, items), ok, state.envs)
    {
      hide Did, OfItem;
      ghost var s := state.envs;
      DidNothing(s);
      for i := 0 to |items|
        invariant Valid() && Did(s, OfProgram(types, items[..i]), true, state.envs)
      {
        ghost var s1 := state.envs;
        ok := VisitItem(items[i]);
        assert items[..i + 1][..i] == items[..i];
        DidThen(s, OfProgram(types, items[..i]), s1, OfItem(types, items[i]), ok, state.envs);
        if !ok {
          ItemsStop(types, s, items, i + 1, state.envs);
          return;
        }
      }
      assert items[..|items|] == items;
      return true;
    }
  }

  /** Checks a whole program from the global scope: it gets through exactly when it is well scoped,
      in all its names when none stands where the checker does not look. */
  method Check<D(==,!new)>(types: Types<D>, items: seq<Item>) returns (ok: bool)
    ensures ok <==> WellScoped(OfProgram(types, items))
    ensures Covered(items) ==> (ok <==> Accepted(items) && WellScoped(FullProgram(types, items)))
  {
    var checker := new SemanticChecker<D>(types);
    ok := checker.VisitItems(items);
    CheckerDecidesScoping(types, items);
    hide WellScoped, Covered, Accepted;
    OccurrencesDecided(types, items);
  }

  lemma {:induction false} ParamsStop<D>(types: Types<D>, s: Symbols<D>, f: Item, n: nat, s': Symbols<D>)
    requires s != [] && f.Function? && n <= |f.params| && Did(s, OfParams(types, f, n), false, s')
    ensures Did(s, OfParams(types, f, |f.params|), false, s')
    decreases |f.params| - n
  {
    hide Did;
    if n < |f.params| {
      DidNot(s, OfParams(types, f, n), s', [Bind(f.params[n], types(ParamBinder(f, n)), true)]);
      ParamsStop(types, s, f, n + 1, s');
    }
  }

  lemma {:induction false} ItemsStop<D>(types: Types<D>, s: Symbols<D>, items: seq<Item>, n: nat, s': Symbols<D>)
    requires s != [] && n <= |items| && Did(s, OfProgram(types, items[..n]), false, s')
    ensures Did(s, OfProgram(types, items), false, s')
    decreases |items| - n
  {
    hide Did;
    if n == |items| {
      assert items[..n] == items;
    } else {
      assert items[..n + 1][..n] == items[..n];
      DidNot(s, OfProgram(types, items[..n]), s', OfItem(types, items[n]));
      ItemsStop(types, s, items, n + 1, s');
    }
  }

  lemma {:induction false} ArgsStop<D>(s: Symbols<D>, args: seq<Expr>, n: nat, s': Symbols<D>)
    requires s != [] && n <= |args| && Did(s, OfArgs(args[..n]), false, s')
    ensures Did(s, OfArgs(args), false, s')
    decreases |args| - n
  {
    hide Did;
    if n == |args| {
      assert args[..n] == args;
    } else {
      assert args[..n + 1][..n] == args[..n];
      DidNot(s, OfArgs(args[..n]), s', OfExpr(args[n]));
      ArgsStop(s, args, n + 1, s');
    }
  }

  lemma {:induction false} ListStop<D>(types: Types<D>, s: Symbols<D>, ss: seq<Stmt>, n: nat, s': Symbols<D>)
    requires s != [] && n <= |ss| && Did(s, OfList(types, ss[..n]), false, s')
    ensures Did(s, OfList(types, ss), false, s')
    decreases |ss| - n
  {
    hide Did;
    if n == |ss| {
      assert ss[..n] == ss;
    } else {
      assert ss[..n + 1][..n] == ss[..n];
      DidNot(s, OfList(types, ss[..n]), s', OfStmt(types, ss[n]));
      ListStop(types, s, ss, n + 1, s');
    }
  }
}
