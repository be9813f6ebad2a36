/** What a call is lowered to: its arguments are evaluated from the left to the right, and their
    values are passed in that order. */
module MirCalls {
  import opened Ast
  import opened Statements
  import opened Scopes
  import opened Mir
  import opened MirFactory
  import opened MirBuilder
  import opened MirMachine
  import opened MirMeaning
  import opened Words
  import Meaning

  /** The state in which these expressions have been visited one after the other. */
  function After(st: State, es: seq<Expr>): (r: Option<State>)
    requires Ready(st)
    ensures r.Some? ==> Grown(st, r.value)
    decreases |es|
  {
    if es == [] then Some(st)
    else
      var st1 :- After(st, es[..|es| - 1]);
      VisitExpr(st1, es[|es| - 1])
  }

  lemma {:induction false} AfterFirst(st: State, es: seq<Expr>)
    requires Ready(st) && es != []
    ensures After(st, es) == if VisitExpr(st, es[0]).None? then None else After(VisitExpr(st, es[0]).value, es[1..])
    decreases |es|
  {
    hide VisitExpr;
    var n := |es| - 1;
    if n == 0 {
      assert After(st, es[..0]) == Some(st);
    } else {
      AfterFirst(st, es[..n]);
      assert es[..n][1..] == es[1..][..n - 1];
    }
  }

  /** The variable with the value of argument `k`. */
  function ArgVar(st: State, args: seq<Expr>, k: nat): Option<VarId>
    requires Ready(st) && k < |args|
  {
    var st1 :- After(st, args[..k + 1]);
    RequireLastVar(st1)
  }

  lemma ArgVarLater(st: State, args: seq<Expr>, k: nat)
    requires Ready(st) && 0 < k < |args| && VisitExpr(st, args[0]).Some?
    ensures ArgVar(st, args, k) == ArgVar(VisitExpr(st, args[0]).value, args[1..], k - 1)
  {
    hide VisitExpr, RequireLastVar;
    AfterFirst(st, args[..k + 1]);
    assert args[..k + 1][1..] == args[1..][..k];
  }

  lemma ArgVarFirst(st: State, args: seq<Expr>)
    requires Ready(st) && args != []
    ensures ArgVar(st, args, 0) == if VisitExpr(st, args[0]).None? then None else RequireLastVar(VisitExpr(st, args[0]).value)
  {
    hide VisitExpr, RequireLastVar;
    AfterFirst(st, args[..1]);
    assert args[..1][1..] == [];
  }

  /** Arguments are visited exactly when each of them is and leaves a variable, and these are the
      variables. */
  lemma {:induction false} ArgsVisited(st: State, args: seq<Expr>)
    requires Ready(st)
    ensures VisitArgs(st, args).Some? <==> forall k: nat :: k < |args| ==> ArgVar(st, args, k).Some?
    ensures VisitArgs(st, args).Some? ==>
      && After(st, args) == Some(VisitArgs(st, args).value.0) && |VisitArgs(st, args).value.1| == |args|
      && forall k: nat :: k < |args| ==> ArgVar(st, args, k) == Some(VisitArgs(st, args).value.1[k])
    decreases |args|
  {
    hide VisitExpr, RequireLastVar, ArgVar, After;
    if args == [] {
      NoneVisited(st);
    } else {
      ArgVarFirst(st, args);
      if VisitExpr(st, args[0]).Some? {
        var st1 := VisitExpr(st, args[0]).value;
        AfterFirst(st, args);
        ArgsVisited(st1, args[1..]);
        forall k: nat | 0 < k < |args| ensures ArgVar(st, args, k) == ArgVar(st1, args[1..], k - 1) { ArgVarLater(st, args, k); }
        assert forall k: nat :: k < |args[1..]| ==> ArgVar(st1, args[1..], k) == ArgVar(st, args, k + 1);
      }
    }
  }

  lemma NoneVisited(st: State)
    requires Ready(st)
    ensures After(st, []) == Some(st)
  {}

  /** A call is lowered exactly when its function is visible and every argument leaves a variable.
      Its instruction comes last and has no result; its operands are the function's label, a null
      for each argument, and then the arguments' variables, in order. */
  lemma CallLowered(st: State, f: string, args: seq<Expr>)
    requires Ready(st)
    ensures VisitExpr(st, FunctionCall(f, args)).Some? <==>
      Find(st.fnEnv, f).Some? && forall k: nat :: k < |args| ==> ArgVar(st, args, k).Some?
    ensures VisitExpr(st, FunctionCall(f, args)).Some? ==>
      var code := LastBlock(VisitExpr(st, FunctionCall(f, args)).value).instructions;
      code != [] && (
      var call, n := code[|code| - 1], |args|;
      && call.op == CallOp && call.result.None? && |call.operands| == 1 + 2 * n && call.operands[0] == FunctionLabel(f)
      && forall k: nat :: k < n ==>
           ArgVar(st, args, k).Some? && call.operands[1 + k] == NullLocal && call.operands[1 + n + k] == Local(ArgVar(st, args, k).value))
  {
    ArgsVisited(st, args);
    hide VisitArgs, ArgVar;
    var visited := VisitArgs(st, args);
    if visited.Some? {
      var st1, vars := visited.value.0, visited.value.1;
      EmitCode(st1, CallOp, CallOperands(f, vars), None);
      assert LastBlock(Emit(st1, CallOp, CallOperands(f, vars), None)).instructions ==
        LastBlock(st1).instructions + [Instruction(st1.instrId, CallOp, CallOperands(f, vars), None)];
    }
  }

  // ---- The values that are passed ---------------------------------------------------------

  ghost predicate SimpleArgs(st: State, args: seq<Expr>, env: Meaning.Env) {
    forall e <- args :: Meaning.Simple(e) && Meaning.Names(e) !! st.globals && Meaning.Names(e) <= env.Keys
  }

  ghost predicate Valued(env: Meaning.Env, args: seq<Expr>)
    requires forall e <- args :: Meaning.Simple(e)
  {
    forall e <- args :: Meaning.Eval(Wrap32, env, e).Some?
  }

  /** The variable of argument `k` holds its value. */
  ghost predicate ArgHolds(st: State, args: seq<Expr>, k: nat, env: Meaning.Env, store: Store)
    requires Ready(st) && k < |args| && Meaning.Simple(args[k])
  {
    var v := ArgVar(st, args, k);
    v.Some? && v.value in store && Meaning.Eval(Wrap32, env, args[k]) == Some(store[v.value])
  }

  /** The code of the arguments leaves their values in their variables, or fails exactly when one
      of them has none. */
  lemma {:induction false} ArgsRun(st: State, args: seq<Expr>, env: Meaning.Env, store: Store)
    requires Ready(st) && SimpleArgs(st, args, env) && Related(env, st.varEnv, store) && StoreOk(st, store)
    requires forall k: nat :: k < |args| ==> ArgVar(st, args, k).Some?
    ensures After(st, args).Some? && Straight(st, After(st, args).value)
    ensures var st1 := After(st, args).value; var m := ExecAll(store, Code(st, st1));
      if Valued(env, args) then
        && m.Going? && Related(env, st1.varEnv, m.store) && Keeps(st, store, st1, m.store)
        && forall k: nat :: k < |args| ==> ArgHolds(st, args, k, env, m.store)
      else m.Failed?
    decreases |args|
  {
    hide VisitExpr, RequireLastVar, ExecAll, Related, Code, Matches, Meaning.Eval, After, ArgVar, StoreOk, Keeps, Holds;
    if args == [] {
      NoArgsRun(st, env, store);
    } else {
      var n := |args| - 1;
      var before := args[..n];
      assert forall e :: e in args <==> e in before || e == args[n];
      forall k: nat | k < n ensures ArgVar(st, args, k) == ArgVar(st, before, k) { SameArgVar(st, args, n, k); }
      ArgsRun(st, before, env, store);
      assert ArgVar(st, args, n).Some?;
      LastVisited(st, args);
      var st1, st2 := After(st, before).value, After(st, args).value;
      ExprLowers(st1, args[n]);
      CodeTrans(st, st1, st2);
      ExecConcat(store, Code(st, st1), Code(st1, st2));
      if Valued(env, before) {
        var s1 := ExecAll(store, Code(st, st1)).store;
        KeepsOk(st, store, st1, s1);
        ExprRuns(st1, args[n], env, s1);
        LastArg(env, st, store, st1, s1, st2, Meaning.Eval(Wrap32, env, args[n]));
        if Valued(env, args) {
          var s2 := ExecAll(s1, Code(st1, st2)).store;
          LastHolds(st2, s2, Meaning.Eval(Wrap32, env, args[n]).value);
          forall k: nat | k < |args| ensures ArgHolds(st, args, k, env, s2) {
            if k < n { assert ArgHolds(st, before, k, env, s1); }
          }
        }
      }
    }
  }

  lemma SameArgVar(st: State, args: seq<Expr>, n: nat, k: nat)
    requires Ready(st) && k < n <= |args|
    ensures ArgVar(st, args, k) == ArgVar(st, args[..n], k)
  {
    assert args[..n][..k + 1] == args[..k + 1];
  }

  lemma LastVisited(st: State, args: seq<Expr>)
    requires Ready(st) && args != [] && ArgVar(st, args, |args| - 1).Some?
    ensures var n := |args| - 1; After(st, args[..n]).Some? && After(st, args) == VisitExpr(After(st, args[..n]).value, args[n])
    ensures After(st, args).Some? && ArgVar(st, args, |args| - 1) == RequireLastVar(After(st, args).value)
  {
    assert args[..|args|] == args;
    hide VisitExpr, RequireLastVar;
  }

  lemma LastHolds(st: State, store: Store, v: Meaning.Value)
    requires Holds(st, store, v)
    ensures RequireLastVar(st).Some? && RequireLastVar(st).value in store && store[RequireLastVar(st).value] == v
  {}

  lemma KeepsOk(a: State, store: Store, b: State, store': Store)
    requires StoreOk(a, store) && Keeps(a, store, b, store') && a.varId <= b.varId
    ensures StoreOk(b, store')
  {}

  lemma NoArgsRun(st: State, env: Meaning.Env, store: Store)
    requires Ready(st)
    ensures After(st, []) == Some(st) && Straight(st, st) && ExecAll(store, Code(st, st)) == Going(store)
    ensures Keeps(st, store, st, store)
  {}

  /** What ran before keeps its values. */
  lemma LastArg(env: Meaning.Env, st: State, store: Store, a: State, s1: Store, b: State, v: Option<Meaning.Value>)
    requires Straight(st, a) && Keeps(st, store, a, s1) && Matches(env, a, s1, b, v)
    ensures var m := ExecAll(s1, Code(a, b));
      (v.None? ==> m.Failed?) && (v.Some? ==>
        && m.Going? && Related(env, b.varEnv, m.store) && Keeps(st, store, b, m.store) && Holds(b, m.store, v.value)
        && forall w :: w in s1 ==> w in m.store && m.store[w] == s1[w])
  {
    hide Related, ExecAll, Code;
  }

  /** The operand in place `k` behind the nulls is a variable that holds the value. */
  ghost predicate Passes(call: Instruction, n: nat, k: nat, v: Option<Meaning.Value>, store: Store) {
    1 + n + k < |call.operands| && (
    var o := call.operands[1 + n + k];
    o.Local? && o.v in store && v == Some(store[o.v]))
  }

  /** Where simple arguments are passed, the variable in place `k` of the call holds the value of
      argument `k`, although the code of later arguments rebinds names. */
  lemma CallPasses(st: State, f: string, args: seq<Expr>, env: Meaning.Env, store: Store)
    requires Ready(st) && SimpleArgs(st, args, env) && Related(env, st.varEnv, store) && StoreOk(st, store)
    requires VisitExpr(st, FunctionCall(f, args)).Some? && Valued(env, args)
    ensures After(st, args).Some? && Straight(st, After(st, args).value)
    ensures var code := LastBlock(VisitExpr(st, FunctionCall(f, args)).value).instructions;
      var m := ExecAll(store, Code(st, After(st, args).value));
      code != [] && m.Going? &&
      forall k: nat :: k < |args| ==> Passes(code[|code| - 1], |args|, k, Meaning.Eval(Wrap32, env, args[k]), m.store)
  {
    hide VisitExpr, ExecAll, Related, Code, Meaning.Eval, ArgVar, After;
    CallLowered(st, f, args);
    ArgsRun(st, args, env, store);
    var code := LastBlock(VisitExpr(st, FunctionCall(f, args)).value).instructions;
    var s1 := ExecAll(store, Code(st, After(st, args).value)).store;
    forall k: nat | k < |args| ensures Passes(code[|code| - 1], |args|, k, Meaning.Eval(Wrap32, env, args[k]), s1) {
      assert ArgHolds(st, args, k, env, s1);
      assert code[|code| - 1].operands[1 + |args| + k] == Local(ArgVar(st, args, k).value);
    }
  }

  // ---- Which functions are visible --------------------------------------------------------

  ghost predicate Defines(items: seq<Item>, f: string) {
    exists i <- items :: i.Function? && i.fname == f
  }

  ghost predicate Declares(items: seq<Item>, f: string) {
    exists i <- items :: i.FunctionDecl? && i.fname == f
  }

  lemma ItemVisible(order: Order, st: State, item: Item, f: string)
    requires TopLevel(st) && IsOrder(order) && VisitItem(order, st, item).Some?
    ensures Find(VisitItem(order, st, item).value.fnEnv, f) ==
      if item.Function? && item.fname == f then Some(Defined)
      else if item.FunctionDecl? && item.fname == f && Find(st.fnEnv, f).None? then Some(Declared)
      else Find(st.fnEnv, f)
  {
    match item
    case GlobalDecl(_) =>
    case FunctionDecl(g) =>
      if Find(st.fnEnv, g).None? { FindInsert(st.fnEnv, g, Declared, f); }
    case Function(g, params, code) =>
      if Find(st.fnEnv, g).Some? { FindUpdate(st.fnEnv, g, Defined, f); } else { FindInsert(st.fnEnv, g, Defined, f); }
      FunctionPops(order, st, item);
  }

  lemma FunctionPops(order: Order, st: State, item: Item)
    requires TopLevel(st) && IsOrder(order) && item.Function? && VisitItem(order, st, item).Some?
    ensures VisitItem(order, st, item).value.fnEnv == AddFunctionDefinition(st, item.fname).fnEnv
  {
    hide AddFunctionDefinition, VisitParams, VisitList, AddBlock;
    var st0 := AddFunctionDefinition(st, item.fname);
    DefinitionReady(st, item.fname);
    var st1 := PushEnv(AddBlock(st0, "entry"));
    assert st1.fnEnv == st0.fnEnv + [map[]];
  }

  lemma DefinitionReady(st: State, f: string)
    requires TopLevel(st)
    ensures TopLevel(AddFunctionDefinition(st, f)) && HasFunction(AddFunctionDefinition(st, f))
  {}

  /** Behind the items of a program, a call can be lowered to exactly the functions that are
      declared or defined in it, and a definition counts more than a declaration. */
  lemma {:induction false} ProgramVisible(order: Order, st: State, items: seq<Item>, f: string)
    requires TopLevel(st) && IsOrder(order) && VisitItems(order, st, items).Some?
    ensures Find(VisitItems(order, st, items).value.fnEnv, f) ==
      if Defines(items, f) then Some(Defined)
      else if Find(st.fnEnv, f).None? && Declares(items, f) then Some(Declared)
      else Find(st.fnEnv, f)
    decreases |items|
  {
    hide VisitItem, Find;
    if items != [] {
      ItemVisible(order, st, items[0], f);
      ProgramVisible(order, VisitItem(order, st, items[0]).value, items[1..], f);
      assert items == [items[0]] + items[1..];
      assert items[0] in items;
      assert Defines(items, f) <==> (items[0].Function? && items[0].fname == f) || Defines(items[1..], f);
      assert Declares(items, f) <==> (items[0].FunctionDecl? && items[0].fname == f) || Declares(items[1..], f);
    }
  }
}
