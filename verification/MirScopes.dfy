/** Which scopes lowering leaves behind, and when it gives the names in scope back. */
module MirScopes {
  import opened Ast
  import opened Statements
  import opened Scopes
  import opened Sequences
  import opened Mir
  import opened MirFactory
  import opened MirBuilder
  import Meaning
  import opened MirMeaning
  import opened MirMeaningBody
  import opened MirMeaningFunction
  import opened MirNames

  // ---- Scopes that stay behind ------------------------------------------------------------

  /** Every `If` with an alternative leaves the scope of its first branch behind, unless an `If`
      without one puts the environment back around it. Alternatives are lowered from the same
      environment as the first branch and leave nothing of their own. */
  function LeftBehind(s: Stmt): nat
    decreases s, 1
  {
    match s
    case If(first, _, onTrue, onFalse) =>
      (if first.None? then 0 else LeftBehind(first.value)) + (if onFalse.NoElse? then 0 else 1 + AllLeftBehind(onTrue))
    case Loop(first, _, post, body) =>
      (if first.None? then 0 else LeftBehind(first.value)) + (if post.None? then 0 else LeftBehind(post.value)) + AllLeftBehind(body)
    case _ => 0
  }

  function AllLeftBehind(ss: seq<Stmt>): nat
    decreases ss, 0
  {
    if ss == [] then 0 else LeftBehind(ss[0]) + AllLeftBehind(ss[1..])
  }

  /** How many scopes a statement adds can be read off the statement. */
  lemma {:induction false} StmtScopes(order: Order, st: State, s: Stmt)
    requires Ready(st) && IsOrder(order) && VisitStmt(order, st, s).Some?
    ensures |VisitStmt(order, st, s).value.varEnv| == |st.varEnv| + LeftBehind(s)
    decreases s, 2
  {
    hide VisitExpr, VisitBinding, VisitAssignment, VisitStep, VisitCondition, VisitBranches, VisitLoop, RequireLastVar, Emit, SameNames;
    match s
    case If(_, _, _, _) => IfLeaves(order, st, s);
    case Loop(_, _, _, _) => LoopLeaves(order, st, s);
    case _ => PlainLeaves(order, st, s);
  }

  lemma PlainLeaves(order: Order, st: State, s: Stmt)
    requires Ready(st) && IsOrder(order) && VisitStmt(order, st, s).Some? && !s.If? && !s.Loop?
    ensures |VisitStmt(order, st, s).value.varEnv| == |st.varEnv|
  {
    hide VisitExpr, RequireLastVar, Find, VisitAssignment, SameNames;
    if s.Assign? {
      AssignmentNames(st, s.aop, s.target, s.value);
      SameDepth(st.varEnv, VisitStmt(order, st, s).value.varEnv);
    }
  }

  lemma {:induction false} ListScopes(order: Order, st: State, ss: seq<Stmt>)
    requires Ready(st) && IsOrder(order) && VisitList(order, st, ss).Some?
    ensures |VisitList(order, st, ss).value.varEnv| == |st.varEnv| + AllLeftBehind(ss)
    decreases ss, 0
  {
    hide VisitStmt;
    if ss != [] {
      StmtScopes(order, st, ss[0]);
      ListScopes(order, VisitStmt(order, st, ss[0]).value, ss[1..]);
    }
  }

  lemma {:induction false} NewEnvScopes(order: Order, st: State, ss: seq<Stmt>)
    requires Ready(st) && IsOrder(order) && VisitInNewEnv(order, st, ss).Some?
    ensures var visited := VisitInNewEnv(order, st, ss).value;
      |visited.0.varEnv| == |st.varEnv| + AllLeftBehind(ss) && |visited.1| == |st.varEnv| + 1 + AllLeftBehind(ss)
    decreases ss, 1
  {
    hide VisitList;
    ListScopes(order, PushEnv(st), ss);
  }

  lemma {:induction false} IfLeaves(order: Order, st: State, s: Stmt)
    requires Ready(st) && IsOrder(order) && s.If? && VisitStmt(order, st, s).Some?
    ensures |VisitStmt(order, st, s).value.varEnv| == |st.varEnv| + LeftBehind(s)
    decreases s, 1
  {
    hide VisitCondition, VisitBranch, VisitInNewEnv, AddBlock, AddOperands, MergeEnvs, InsertJump, JoinBranches, SameNames;
    var st1 := st;
    if s.first.Some? {
      st1 := VisitStmt(order, st, s.first.value).value;
      StmtScopes(order, st, s.first.value);
    }
    var st2 := VisitCondition(st1, s.cond).value;
    assert |st2.varEnv| == |st1.varEnv| by { ConditionNames(st1, s.cond); SameDepth(st1.varEnv, st2.varEnv); }
    if s.onFalse.Else? { BranchScopes(order, st2, "if_then", LastRef(st2), |Instructions(st2, LastRef(st2))| - 1, s.onTrue); }
  }

  lemma SameDepth(a: Stack<Site>, b: Stack<Site>)
    requires SameNames(a, b)
    ensures |a| == |b|
  {}

  lemma {:induction false} BranchScopes(order: Order, st: State, prefix: string, branch: BlockRef, place: nat, code: seq<Stmt>)
    requires Ready(st) && IsOrder(order) && VisitBranch(order, st, prefix, branch, place, code).Some?
    ensures |VisitBranch(order, st, prefix, branch, place, code).value.env| == |st.varEnv| + 1 + AllLeftBehind(code)
    decreases code, 2
  {
    hide VisitInNewEnv, AddBlock, AddOperands;
    NewEnvScopes(order, AddOperands(AddBlock(st, prefix), branch, place, [Label(LastRef(AddBlock(st, prefix)))]), code);
  }

  lemma {:induction false} LoopLeaves(order: Order, st: State, s: Stmt)
    requires Ready(st) && IsOrder(order) && s.Loop? && VisitStmt(order, st, s).Some?
    ensures |VisitStmt(order, st, s).value.varEnv| == |st.varEnv| + LeftBehind(s)
    decreases s, 1
  {
    hide VisitCondition, VisitExpr, VisitInNewEnv, EnterBlock, AddBlock, AddOperands, CloseBlock, SameNames;
    var st0 := VisitStmt(order, st, s.first.value).value;
    StmtScopes(order, st, s.first.value);
    var st1 := EnterBlock(st0, "loop_cond");
    EnterNames(st0, "loop_cond");
    var st2 := VisitCondition(st1, s.test.value).value;
    ConditionNames(st1, s.test.value);
    SameDepth(st1.varEnv, st2.varEnv);
    var st3 := AddBlock(st2, "loop_expr");
    var st4 := VisitStmt(order, st3, s.post.value).value;
    StmtScopes(order, st3, s.post.value);
    var st5 := CloseBlock(st4, LastRef(st3), LastRef(st1), "loop_body");
    CloseNames(st4, LastRef(st3), LastRef(st1), "loop_body");
    var visited := VisitInNewEnv(order, st5, s.body).value;
    NewEnvScopes(order, st5, s.body);
    CloseNames(visited.0, LastRef(st5), LastRef(st3), "loop_merge");
  }

  /** An `If` gives the number of scopes back exactly when it has no alternative, and then, with
      nothing to initialise, all names are as they were behind its condition. */
  lemma IfScopes(order: Order, st: State, s: Stmt)
    requires Ready(st) && IsOrder(order) && s.If? && VisitStmt(order, st, s).Some?
    ensures |VisitStmt(order, st, s).value.varEnv| == |st.varEnv| <==>
      s.onFalse.NoElse? && (s.first.Some? ==> LeftBehind(s.first.value) == 0)
    ensures BeforeTest(order, st, s).Some? && VisitCondition(BeforeTest(order, st, s).value, s.cond).Some?
    ensures s.onFalse.NoElse? ==>
      VisitStmt(order, st, s).value.varEnv == VisitCondition(BeforeTest(order, st, s).value, s.cond).value.varEnv
  {
    hide VisitCondition, VisitBranch, MergeEnvs, AddBlock, InsertJump, JoinBranches;
    StmtScopes(order, st, s);
  }

  /** Lowering a function gives the names in scope back exactly when no `If` of its leaves a
      scope behind; otherwise it leaves as many scopes as stay behind in its body. */
  lemma FunctionScopes(order: Order, st: State, f: string, params: seq<string>, code: seq<Stmt>)
    requires TopLevel(st) && IsOrder(order) && VisitItem(order, st, Function(f, params, code)).Some?
    ensures var st' := VisitItem(order, st, Function(f, params, code)).value;
      && |st'.varEnv| == |st.varEnv| + AllLeftBehind(code) && SameNames(st.varEnv, st'.varEnv[..|st.varEnv|])
      && (SameNames(st.varEnv, st'.varEnv) <==> AllLeftBehind(code) == 0)
  {
    FunctionParts(order, st, f, params, code);
    EntryNames(st, f);
    hide Entry, VisitItem, VisitParams, VisitList, NamesAre, Inside, AllLeftBehind;
    var st1 := Entry(st, f);
    var st2 := VisitParams(st1, params).value;
    ParamsInside(st1, params);
    var st3 := VisitList(order, st2, code).value;
    ListScopes(order, st2, code);
    ListNames(order, st2, code);
    InsideTrans(st1.varEnv, st2.varEnv, st3.varEnv);
    OuterNames(st.varEnv, st3.varEnv);
    assert VisitItem(order, st, Function(f, params, code)).value.varEnv == st3.varEnv[..|st3.varEnv| - 1];
  }

  /** Only the scope that was pushed can have new names. */
  lemma OuterNames(a: Stack<Site>, b: Stack<Site>)
    requires Inside(a + [map[]], b)
    ensures |b| > |a| && SameNames(a, b[..|a|])
  {
    forall i | 0 <= i < |a| ensures b[i].Keys == a[i].Keys { assert (a + [map[]])[i] == a[i]; }
  }

  lemma {:induction false} ParamsInside(st: State, params: seq<string>)
    requires Ready(st) && VisitParams(st, params).Some?
    ensures var st' := VisitParams(st, params).value; Inside(st.varEnv, st'.varEnv) && |st'.varEnv| == |st.varEnv|
    decreases |params|
  {
    if params != [] {
      var st1 := VarBind(AddParam(st), params[0], st.varId).value;
      assert Inside(st.varEnv, st1.varEnv) by { hide EmitResult, AddParam; assert AddParam(st).varEnv == st.varEnv by { ParamEnv(st); } }
      hide VarBind, AddParam, Inside;
      ParamsInside(st1, params[1..]);
      InsideTrans(st.varEnv, st1.varEnv, VisitParams(st1, params[1..]).value.varEnv);
    }
  }

  lemma ParamEnv(st: State)
    requires HasFunction(st)
    ensures AddParam(st).varEnv == st.varEnv
  {}

  function ItemLeaves(i: Item): nat {
    if i.Function? then AllLeftBehind(i.code) else 0
  }

  function ItemsLeave(items: seq<Item>): nat {
    if items == [] then 0 else ItemLeaves(items[0]) + ItemsLeave(items[1..])
  }

  lemma {:induction false} ItemsScopes(order: Order, st: State, items: seq<Item>)
    requires TopLevel(st) && IsOrder(order) && VisitItems(order, st, items).Some?
    ensures var st' := VisitItems(order, st, items).value;
      |st'.varEnv| == |st.varEnv| + ItemsLeave(items) && SameNames(st.varEnv, st'.varEnv[..|st.varEnv|])
    decreases |items|
  {
    if items != [] {
      var st1 := VisitItem(order, st, items[0]).value;
      match items[0] {
        case Function(f, params, code) => FunctionScopes(order, st, f, params, code);
        case _ =>
      }
      assert |st1.varEnv| == |st.varEnv| + ItemLeaves(items[0]) && SameNames(st.varEnv, st1.varEnv[..|st.varEnv|]);
      hide VisitItem, AllLeftBehind;
      ItemsScopes(order, st1, items[1..]);
      var st2 := VisitItems(order, st1, items[1..]).value;
      forall i | 0 <= i < |st.varEnv| ensures st2.varEnv[i].Keys == st.varEnv[i].Keys {
        assert st1.varEnv[..|st.varEnv|][i] == st1.varEnv[i] && st2.varEnv[..|st1.varEnv|][i] == st2.varEnv[i];
      }
    }
  }

  /** Behind a whole program no name is visible and no scope is open but the first one, exactly
      when no function leaves a scope behind. */
  lemma ProgramScopes(order: Order, items: seq<Item>)
    requires IsOrder(order) && VisitItems(order, INITIAL, items).Some?
    ensures VisitItems(order, INITIAL, items).value.varEnv == [map[]] <==> ItemsLeave(items) == 0
  {
    ItemsScopes(order, INITIAL, items);
    hide VisitItems, ItemsLeave;
    var env := VisitItems(order, INITIAL, items).value.varEnv;
    assert env[..1][0] == env[0];
  }

  // ---- A straight-line function leaves everything as it was -------------------------------

  /** Nothing outside of the innermost scope changes. */
  ghost predicate InnerOnly(a: Stack<Site>, b: Stack<Site>) {
    a != [] && |b| == |a| && b[..|a| - 1] == a[..|a| - 1]
  }

  function Inner(st: State): set<string>
    requires st.varEnv != []
  {
    st.varEnv[|st.varEnv| - 1].Keys
  }

  lemma {:induction false} ExprInner(st: State, e: Expr)
    requires Ready(st) && Meaning.Simple(e) && Meaning.Names(e) !! st.globals && Meaning.Names(e) <= Inner(st) && VisitExpr(st, e).Some?
    ensures var st' := VisitExpr(st, e).value; InnerOnly(st.varEnv, st'.varEnv) && Inner(st') == Inner(st) && st'.globals == st.globals
    decreases e
  {
    hide EmitResult, RequireLastVar, VisitLogical;
    match e
    case Literal(lit) => LiteralNames(st, lit);
    case Identifier(x) => RefInner(st, x);
    case Prefix(op, x) =>
      var st1 := VisitExpr(st, x).value;
      ExprInner(st, x);
      ResultNames(st1, ISub, [IntConst(0), Local(RequireLastVar(st1).value)]);
    case Infix(op, l, r) =>
      var st1 := VisitExpr(st, l).value;
      ExprInner(st, l);
      var st2 := VisitExpr(st1, r).value;
      ExprInner(st1, r);
      ResultNames(st2, InfixOpcode(op), [Local(RequireLastVar(st1).value), Local(RequireLastVar(st2).value)]);
  }

  lemma RefInner(st: State, x: string)
    requires HasBlock(st) && st.varEnv != [] && x !in st.globals && x in Inner(st) && AddVariableRef(st, x).Some?
    ensures var st' := AddVariableRef(st, x).value; InnerOnly(st.varEnv, st'.varEnv) && Inner(st') == Inner(st) && st'.globals == st.globals
  {
    UpdateInner(st, x, Find(st.varEnv, x).value.v);
  }

  lemma UpdateInner(st: State, x: string, v: VarId)
    requires HasBlock(st) && st.varEnv != [] && x in Inner(st) && AddUpdate(st, x, v).Some?
    ensures var st' := AddUpdate(st, x, v).value; InnerOnly(st.varEnv, st'.varEnv) && Inner(st') == Inner(st) && st'.globals == st.globals
  {}

  lemma StmtInner(order: Order, st: State, s: Stmt)
    requires Ready(st) && IsOrder(order) && Meaning.SimpleStmt(s) && (Meaning.Used(s) + Meaning.Binds(s)) !! st.globals
    requires Meaning.Used(s) <= Inner(st) && VisitStmt(order, st, s).Some?
    ensures var st' := VisitStmt(order, st, s).value;
      InnerOnly(st.varEnv, st'.varEnv) && Inner(st') == Inner(st) + Meaning.Binds(s) && st'.globals == st.globals
  {
    hide VisitExpr, RequireLastVar, EmitResult, AddVariableRef, AddUpdate, VisitAssignment, VisitBinding;
    match s
    case Let(x, init) => BindingInner(st, x, init.value);
    case Var(x, init) => BindingInner(st, x, init.value);
    case Assign(op, target, value) => AssignInner(st, op, target.id, value);
    case ExprStmt(e) => ExprInner(st, e);
    case Return(result) => if result.Some? { ExprInner(st, result.value); }
  }

  lemma BindingInner(st: State, x: string, e: Expr)
    requires Ready(st) && Meaning.Simple(e) && Meaning.Names(e) !! st.globals && Meaning.Names(e) <= Inner(st)
    requires VisitBinding(st, x, Some(e)).Some?
    ensures var st' := VisitBinding(st, x, Some(e)).value;
      InnerOnly(st.varEnv, st'.varEnv) && Inner(st') == Inner(st) + {x} && st'.globals == st.globals
  {
    hide VisitExpr, RequireLastVar, EmitResult;
    ExprInner(st, e);
  }

  lemma AssignInner(st: State, op: AssignOp, x: string, e: Expr)
    requires Ready(st) && Meaning.Simple(e) && (Meaning.Names(e) + {x}) !! st.globals && Meaning.Names(e) + {x} <= Inner(st)
    requires VisitAssignment(st, op, Identifier(x), e).Some?
    ensures var st' := VisitAssignment(st, op, Identifier(x), e).value;
      InnerOnly(st.varEnv, st'.varEnv) && Inner(st') == Inner(st) && st'.globals == st.globals
  {
    hide VisitExpr, RequireLastVar, AddVariableRef, AddUpdate, Emit;
    var st1 := VisitExpr(CreateVar(st), e).value;
    ExprInner(CreateVar(st), e);
    var rv := RequireLastVar(st1).value;
    if op == Regular {
      UpdateInner(st1, x, rv);
    } else {
      var st2 := AddVariableRef(st1, x).value;
      RefInner(st1, x);
      var os := [Local(RequireLastVar(st2).value), Local(rv)];
      EmitResultNames(st2, AssignOpcode(op), os, st.varId);
      if op != ModAssign { UpdateInner(Emit(st2, AssignOpcode(op), os, Some(st.varId)), x, st.varId); }
    }
  }

  lemma {:induction false} BodyInner(order: Order, st: State, ss: seq<Stmt>)
    requires Ready(st) && IsOrder(order) && Meaning.SimpleBody(ss) && NoGlobals(st.globals, ss)
    requires Meaning.WellNamed(Inner(st), Inner(st), ss) && VisitList(order, st, ss).Some?
    ensures InnerOnly(st.varEnv, VisitList(order, st, ss).value.varEnv)
    decreases |ss|
  {
    hide VisitStmt, Meaning.SimpleStmt, Meaning.Used, Meaning.Binds;
    if ss != [] {
      StmtInner(order, st, ss[0]);
      BodyInner(order, VisitStmt(order, st, ss[0]).value, ss[1..]);
    }
  }

  lemma {:induction false} ParamsInner(st: State, params: seq<string>)
    requires Ready(st) && VisitParams(st, params).Some?
    ensures var st' := VisitParams(st, params).value;
      InnerOnly(st.varEnv, st'.varEnv) && Inner(st') == Inner(st) + SetOf(params) && st'.globals == st.globals
    decreases |params|
  {
    if params == [] {
      assert SetOf(params) == {};
    } else {
      var st1 := VarBind(AddParam(st), params[0], st.varId).value;
      ParamInner(st, params[0]);
      hide VarBind, AddParam, SetOf;
      ParamsInner(st1, params[1..]);
      SetOfHead(params);
    }
  }

  lemma SetOfHead(params: seq<string>)
    requires params != []
    ensures SetOf(params) == {params[0]} + SetOf(params[1..])
  {
    assert params == [params[0]] + params[1..];
  }

  lemma ParamInner(st: State, x: string)
    requires Ready(st) && VarBind(AddParam(st), x, st.varId).Some?
    ensures var st' := VarBind(AddParam(st), x, st.varId).value;
      InnerOnly(st.varEnv, st'.varEnv) && Inner(st') == Inner(st) + {x} && st'.globals == st.globals
  {
    ParamEnv(st);
    hide EmitResult, AddParam;
  }

  /** A well-named straight-line function gives back the very environment it found. */
  lemma FunctionRestores(order: Order, st: State, f: string, params: seq<string>, code: seq<Stmt>)
    requires TopLevel(st) && IsOrder(order) && SimpleFunction(st.globals, params, code)
    requires Distinct(params) && Meaning.WellNamed(SetOf(params), SetOf(params), code)
    ensures VisitItem(order, st, Function(f, params, code)).Some?
    ensures VisitItem(order, st, Function(f, params, code)).value.varEnv == st.varEnv
  {
    Meaning.MoreNames(SetOf(params), Flat(st.varEnv).Keys + SetOf(params), SetOf(params), code);
    FunctionLowers(order, st, f, params, code);
    FunctionParts(order, st, f, params, code);
    EntryNames(st, f);
    hide Entry, VisitItem, VisitParams, VisitList, NamesAre, Flat, Meaning.WellNamed, NoGlobals, Meaning.SimpleBody;
    var st2 := VisitParams(Entry(st, f), params).value;
    ParamsInner(Entry(st, f), params);
    assert {} + SetOf(params) == SetOf(params);
    BodyInner(order, st2, code);
  }
}
