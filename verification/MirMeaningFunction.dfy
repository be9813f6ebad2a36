/** A whole function with a straight-line body: its entry block, started on the arguments,
    does what the body means. */
module MirMeaningFunction {
  import opened Ast
  import opened Statements
  import opened Scopes
  import opened Mir
  import opened MirFactory
  import opened MirBuilder
  import Meaning
  import opened MirMachine
  import opened Words
  import opened Sequences
  import opened MirMeaning
  import opened MirMeaningBody

  // ---- Parameters -------------------------------------------------------------------------

  /** The names of a call: each parameter stands for its argument. */
  function Call(env: Meaning.Env, params: seq<string>, args: seq<Meaning.Value>): Meaning.Env
    requires |params| == |args|
    decreases |params|
  {
    if params == [] then env else Call(env[params[0] := args[0]], params[1..], args[1..])
  }

  /** Every parameter takes two variables, its own and that of its binding. */
  function Arguments(first: VarId, args: seq<Meaning.Value>): Store
    decreases |args|
  {
    if args == [] then map[] else Arguments(first + 2, args[1..])[first := args[0]]
  }

  /** The arguments still to be bound are in the store, and the variables between them are free. */
  ghost predicate Waiting(first: VarId, args: seq<Meaning.Value>, store: Store)
    decreases |args|
  {
    args != [] ==>
      && first in store && store[first] == args[0] && first + 1 !in store
      && Waiting(first + 2, args[1..], store)
  }

  ghost predicate Room(st: State, args: seq<Meaning.Value>, store: Store) {
    Waiting(st.varId, args, store) && forall v :: v in store ==> v < st.varId + 2 * |args|
  }

  lemma {:induction false} WaitingOther(first: VarId, args: seq<Meaning.Value>, store: Store, v: VarId, value: Meaning.Value)
    requires Waiting(first, args, store) && v < first
    ensures Waiting(first, args, store[v := value])
    decreases |args|
  {
    if args != [] { WaitingOther(first + 2, args[1..], store, v, value); }
  }

  lemma {:induction false} ArgumentsWait(first: VarId, args: seq<Meaning.Value>)
    ensures Waiting(first, args, Arguments(first, args))
    ensures forall v :: v in Arguments(first, args) ==> first <= v < first + 2 * |args|
    decreases |args|
  {
    if args != [] {
      ArgumentsWait(first + 2, args[1..]);
      WaitingOther(first + 2, args[1..], Arguments(first + 2, args[1..]), first, args[0]);
    }
  }

  lemma ParamCode(st: State)
    requires HasBlock(st)
    ensures Straight(st, AddParam(st)) && Code(st, AddParam(st)) == []
  {}

  lemma {:induction false} ParamsRun(st: State, params: seq<string>, args: seq<Meaning.Value>, env: Meaning.Env, store: Store)
    requires Ready(st) && |params| == |args| && VisitParams(st, params).Some?
    requires Related(env, st.varEnv, store) && Room(st, args, store)
    ensures Lowered(st, store, VisitParams(st, params).value, Meaning.Running(Call(env, params, args)))
    decreases |params|
  {
    hide Related, VarBind, ExecAll;
    if params == [] {
      EmptyBody(st, store, env);
    } else {
      var p := st.varId;
      var st1 := AddParam(st);
      var st2 := VarBind(st1, params[0], p).value;
      ParamCode(st);
      BindCode(st1, params[0], p);
      BindRuns(env, st1, store, params[0], p);
      CodeTrans(st, st1, st2);
      var store' := store[st1.varId := args[0]];
      WaitingOther(p + 2, args[1..], store, p + 1, args[0]);
      ParamsRun(st2, params[1..], args[1..], env[params[0] := args[0]], store');
      var st3 := VisitParams(st2, params[1..]).value;
      CodeTrans(st, st2, st3);
      ExecConcat(store, Code(st, st2), Code(st2, st3));
    }
  }

  function SetOf(names: seq<string>): set<string> {
    set x | x in names
  }

  lemma {:induction false} ParamsNamed(st: State, params: seq<string>, bound: set<string>, inner: set<string>)
    requires Ready(st) && NamesAre(st, bound, inner)
    ensures VisitParams(st, params).Some? <==> Distinct(params) && SetOf(params) !! inner
    ensures VisitParams(st, params).Some? ==>
      NamesAre(VisitParams(st, params).value, bound + SetOf(params), inner + SetOf(params))
    decreases |params|
  {
    hide NamesAre, VarBind, Find;
    if params == [] {
      assert bound + SetOf(params) == bound && inner + SetOf(params) == inner;
    } else {
      var x := params[0];
      var st1 := AddParam(st);
      SameNamesAre(st, st1, bound, inner);
      BindNamed(st1, x, st.varId, bound, inner);
      assert params == [x] + params[1..];
      assert SetOf(params) == {x} + SetOf(params[1..]);
      if VarBind(st1, x, st.varId).Some? {
        var st2 := VarBind(st1, x, st.varId).value;
        ParamsNamed(st2, params[1..], bound + {x}, inner + {x});
        assert bound + {x} + SetOf(params[1..]) == bound + SetOf(params);
        assert inner + {x} + SetOf(params[1..]) == inner + SetOf(params);
        DistinctTail(params);
      }
    }
  }

  lemma SameNamesAre(st: State, st': State, bound: set<string>, inner: set<string>)
    requires NamesAre(st, bound, inner) && st'.varEnv == st.varEnv
    ensures NamesAre(st', bound, inner)
  {}

  // ---- Functions --------------------------------------------------------------------------

  /** The state at the start of a function's body. */
  function Entry(st: State, f: string): State
    requires TopLevel(st)
  {
    PushEnv(AddBlock(AddFunctionDefinition(st, f), "entry"))
  }

  /** The body sees the names that are visible already, and has a scope of its own. */
  lemma EntryNames(st: State, f: string)
    requires TopLevel(st)
    ensures Ready(Entry(st, f)) && LastBlock(Entry(st, f)).instructions == []
    ensures NamesAre(Entry(st, f), Flat(st.varEnv).Keys, {}) && Entry(st, f).varEnv == st.varEnv + [map[]]
    ensures Entry(st, f).varId == st.varId && Entry(st, f).globals == st.globals
  {
    forall x ensures Find(Entry(st, f).varEnv, x) == Find(st.varEnv, x) { FindPush(st.varEnv, x); }
    forall x ensures x in Flat(st.varEnv) <==> Find(st.varEnv, x).Some? { FindIsFlat(st.varEnv, x); }
    hide Find, Flat;
  }

  ghost predicate SimpleFunction(globals: set<string>, params: seq<string>, code: seq<Stmt>) {
    Meaning.SimpleBody(code) && NoGlobals(globals, code) && SetOf(params) !! globals
  }

  /** A straight-line function is lowered exactly when its parameters are distinct and every
      name is bound before it is used, and at most once in a scope. The names that are visible
      before the function count as bound. */
  lemma FunctionLowers(order: Order, st: State, f: string, params: seq<string>, code: seq<Stmt>)
    requires TopLevel(st) && IsOrder(order) && SimpleFunction(st.globals, params, code)
    ensures VisitItem(order, st, Function(f, params, code)).Some? <==>
      Distinct(params) && Meaning.WellNamed(Flat(st.varEnv).Keys + SetOf(params), SetOf(params), code)
  {
    hide Find, Flat, VisitParams, VisitList, NamesAre, Meaning.WellNamed, Meaning.SimpleBody, NoGlobals;
    var st1, bound := Entry(st, f), Flat(st.varEnv).Keys;
    EntryNames(st, f);
    ParamsNamed(st1, params, bound, {});
    if VisitParams(st1, params).Some? {
      assert {} + SetOf(params) == SetOf(params);
      BodyLowers(order, VisitParams(st1, params).value, code, bound + SetOf(params), SetOf(params));
    }
  }

  /** What a run of the machine shows of an outcome. */
  predicate SameOutcome(m: Machine, want: Meaning.Outcome) {
    match want
    case Stuck => m.Failed?
    case Returned(r) => m == Finished(r)
    case Running(_) => m.Going?
  }

  lemma {:induction false} CallNames(env: Meaning.Env, params: seq<string>, args: seq<Meaning.Value>)
    requires |params| == |args|
    ensures Call(env, params, args).Keys == env.Keys + SetOf(params)
    decreases |params|
  {
    if params == [] {
      assert SetOf(params) == {};
    } else {
      CallNames(env[params[0] := args[0]], params[1..], args[1..]);
      assert params == [params[0]] + params[1..];
      assert SetOf(params) == {params[0]} + SetOf(params[1..]);
    }
  }

  /** A straight-line function with distinct parameters in which every name is bound before it is
      used is lowered, whatever was lowered before it; and started on any arguments, its entry
      block has the outcome of the body in which each parameter stands for its argument. */
  lemma FunctionMeaning(order: Order, st: State, f: string, params: seq<string>, code: seq<Stmt>, args: seq<Meaning.Value>)
    requires TopLevel(st) && IsOrder(order) && SimpleFunction(st.globals, params, code) && |params| == |args|
    requires Distinct(params) && Meaning.WellNamed(SetOf(params), SetOf(params), code)
    ensures VisitItem(order, st, Function(f, params, code)).Some? && HasBlock(VisitItem(order, st, Function(f, params, code)).value)
    ensures SameOutcome(
      ExecAll(Arguments(st.varId, args), LastBlock(VisitItem(order, st, Function(f, params, code)).value).instructions),
      Meaning.RunBody(Wrap32, Call(map[], params, args), code))
  {
    NamedLowers(order, st, f, params, code);
    FunctionParts(order, st, f, params, code);
    EntryNames(st, f);
    var store, st1 := Arguments(st.varId, args), Entry(st, f);
    hide *;
    ArgumentsRoom(st1, args);
    FunctionRuns(order, st1, params, code, args, store);
    WholeBlock(st1, store, VisitList(order, VisitParams(st1, params).value, code).value, VisitItem(order, st, Function(f, params, code)).value,
      Meaning.RunBody(Wrap32, Call(map[], params, args), code));
  }

  /** Names that are visible already do no harm. */
  lemma NamedLowers(order: Order, st: State, f: string, params: seq<string>, code: seq<Stmt>)
    requires TopLevel(st) && IsOrder(order) && SimpleFunction(st.globals, params, code)
    requires Distinct(params) && Meaning.WellNamed(SetOf(params), SetOf(params), code)
    ensures VisitItem(order, st, Function(f, params, code)).Some?
  {
    hide VisitItem, Flat, SetOf, Distinct, Meaning.WellNamed;
    Meaning.MoreNames(SetOf(params), Flat(st.varEnv).Keys + SetOf(params), SetOf(params), code);
    FunctionLowers(order, st, f, params, code);
  }

  /** The steps of lowering a function. */
  lemma FunctionParts(order: Order, st: State, f: string, params: seq<string>, code: seq<Stmt>)
    requires TopLevel(st) && IsOrder(order) && VisitItem(order, st, Function(f, params, code)).Some?
    ensures Ready(Entry(st, f)) && VisitParams(Entry(st, f), params).Some?
    ensures VisitList(order, VisitParams(Entry(st, f), params).value, code).Some?
    ensures var st3 := VisitList(order, VisitParams(Entry(st, f), params).value, code).value;
      && VisitItem(order, st, Function(f, params, code)).value.functions == st3.functions
      && VisitItem(order, st, Function(f, params, code)).value.varEnv == st3.varEnv[..|st3.varEnv| - 1]
  {
    hide VisitParams, VisitList, AddBlock, AddFunctionDefinition;
  }

  lemma FunctionRuns(order: Order, st: State, params: seq<string>, code: seq<Stmt>, args: seq<Meaning.Value>, store: Store)
    requires Ready(st) && IsOrder(order) && SimpleFunction(st.globals, params, code) && |params| == |args| && Room(st, args, store)
    requires Meaning.WellNamed(SetOf(params), SetOf(params), code)
    requires VisitParams(st, params).Some? && VisitList(order, VisitParams(st, params).value, code).Some?
    ensures Lowered(st, store, VisitList(order, VisitParams(st, params).value, code).value,
                    Meaning.RunBody(Wrap32, Call(map[], params, args), code))
  {
    hide Find, Straight, Code, VisitParams, VisitList, Meaning.WellNamed, Meaning.SimpleBody, NoGlobals, Related, Meaning.RunBody, ExecAll, Room;
    var env := Call(map[], params, args);
    NothingRelated(st.varEnv, store);
    CallNames(map[], params, args);
    assert env.Keys == SetOf(params);
    var st2 := VisitParams(st, params).value;
    ParamsRun(st, params, args, map[], store);
    SameGlobals(st, st2);
    BodyRuns(order, st2, code, SetOf(params), env, ExecAll(store, Code(st, st2)).store);
    BodyStraight(order, st2, code);
    LoweredThen(st, store, st2, Meaning.Running(env), VisitList(order, st2, code).value, Meaning.RunBody(Wrap32, env, code));
  }

  lemma SameGlobals(a: State, b: State)
    requires Straight(a, b)
    ensures b.globals == a.globals
  {}

  lemma ArgumentsRoom(st: State, args: seq<Meaning.Value>)
    ensures Room(st, args, Arguments(st.varId, args))
  {
    ArgumentsWait(st.varId, args);
  }

  lemma NothingRelated(names: Stack<Site>, store: Store)
    ensures Related(map[], names, store)
  {}

  lemma WholeBlock(a: State, store: Store, b: State, c: State, want: Meaning.Outcome)
    requires HasBlock(a) && Lowered(a, store, b, want) && LastBlock(a).instructions == [] && c.functions == b.functions
    ensures HasBlock(c) && SameOutcome(ExecAll(store, LastBlock(c).instructions), want)
  {
    assert LastBlock(c).instructions == Code(a, b);
    hide ExecAll;
  }

  // ---- Literals ---------------------------------------------------------------------------

  /** A written integer keeps its value exactly when it fits in 31 bits. */
  lemma LiteralExact(n: nat)
    ensures Wrap32(n) == n <==> n < 0x8000_0000
  {}

  predicate LiteralsFit(e: Expr)
    requires Meaning.Simple(e)
  {
    match e
    case Literal(lit) => lit.IntLit? ==> lit.n < 0x8000_0000
    case Identifier(_) => true
    case Prefix(_, x) => LiteralsFit(x)
    case Infix(_, l, r) => LiteralsFit(l) && LiteralsFit(r)
  }

  function ReadExact(n: int): int {
    n
  }

  lemma {:induction false} FittingLiterals(env: Meaning.Env, e: Expr)
    requires Meaning.Simple(e) && LiteralsFit(e)
    ensures Meaning.Eval(Wrap32, env, e) == Meaning.Eval(ReadExact, env, e)
    decreases e
  {
    match e
    case Literal(_) =>
    case Identifier(_) =>
    case Prefix(_, x) => FittingLiterals(env, x);
    case Infix(_, l, r) =>
      FittingLiterals(env, l);
      FittingLiterals(env, r);
  }

  predicate StmtLiteralsFit(s: Stmt)
    requires Meaning.SimpleStmt(s)
  {
    match s
    case Let(_, init) => LiteralsFit(init.value)
    case Var(_, init) => LiteralsFit(init.value)
    case Assign(_, _, value) => LiteralsFit(value)
    case ExprStmt(e) => LiteralsFit(e)
    case Return(result) => result.Some? ==> LiteralsFit(result.value)
  }

  /** When every literal fits, a body means the same as with literals of any size: what the
      machine does is then what the source says. */
  lemma {:induction false} FittingBody(env: Meaning.Env, ss: seq<Stmt>)
    requires Meaning.SimpleBody(ss) && forall i :: 0 <= i < |ss| ==> StmtLiteralsFit(ss[i])
    ensures Meaning.RunBody(Wrap32, env, ss) == Meaning.RunBody(ReadExact, env, ss)
    decreases |ss|
  {
    if ss != [] {
      var s := ss[0];
      assert StmtLiteralsFit(s);
      match s {
        case Let(_, init) => FittingLiterals(env, init.value);
        case Var(_, init) => FittingLiterals(env, init.value);
        case Assign(op, target, value) =>
          FittingLiterals(env, value);
          if op != Regular { FittingLiterals(env, Infix(Meaning.AssignMeaning(op), target, value)); }
        case ExprStmt(e) => FittingLiterals(env, e);
        case Return(result) => if result.Some? { FittingLiterals(env, result.value); }
      }
      var first := Meaning.Run(Wrap32, env, s);
      if first.Running? { FittingBody(first.env, ss[1..]); }
    }
  }

  /** With literals below 2^31 the entry block has the outcome that the source says. */
  lemma FunctionExact(order: Order, st: State, f: string, params: seq<string>, code: seq<Stmt>, args: seq<Meaning.Value>)
    requires TopLevel(st) && IsOrder(order) && SimpleFunction(st.globals, params, code) && |params| == |args|
    requires Distinct(params) && Meaning.WellNamed(SetOf(params), SetOf(params), code)
    requires forall i :: 0 <= i < |code| ==> StmtLiteralsFit(code[i])
    ensures VisitItem(order, st, Function(f, params, code)).Some? && HasBlock(VisitItem(order, st, Function(f, params, code)).value)
    ensures SameOutcome(
      ExecAll(Arguments(st.varId, args), LastBlock(VisitItem(order, st, Function(f, params, code)).value).instructions),
      Meaning.RunBody(ReadExact, Call(map[], params, args), code))
  {
    FittingBody(Call(map[], params, args), code);
    hide Meaning.RunBody, VisitItem, ExecAll, Arguments, SimpleFunction, Meaning.WellNamed, StmtLiteralsFit, SetOf, Distinct, SameOutcome;
    FunctionMeaning(order, st, f, params, code, args);
  }
}
