/** Statements, bodies and whole functions: lowering succeeds exactly for well-named bodies,
    and running the lowered block has the outcome of the body. */
module MirMeaningBody {
  import opened Ast
  import opened Statements
  import opened Scopes
  import opened Mir
  import opened MirFactory
  import opened MirBuilder
  import Meaning
  import opened MirMachine
  import opened Words
  import opened MirMeaning

  /** The machine's outcome is the body's outcome; while both go on, names keep their values. */
  ghost predicate Agrees(st: State, m: Machine, want: Meaning.Outcome) {
    match want
    case Stuck => m.Failed?
    case Returned(r) => m == Finished(r)
    case Running(env) => m.Going? && Related(env, st.varEnv, m.store) && StoreOk(st, m.store)
  }

  ghost predicate Lowered(st: State, store: Store, st': State, want: Meaning.Outcome) {
    Straight(st, st') && Agrees(st', ExecAll(store, Code(st, st')), want)
  }

  // ---- Single instructions ----------------------------------------------------------------

  lemma BindCode(st: State, x: string, v: VarId)
    requires HasBlock(st) && st.varEnv != []
    ensures VarBind(st, x, v).Some? <==> x !in st.varEnv[|st.varEnv| - 1]
    ensures VarBind(st, x, v).Some? ==> var st' := VarBind(st, x, v).value;
      && Straight(st, st') && Code(st, st') == [Instruction(st.instrId, Bind, [Local(v)], Some(st.varId))]
      && st'.varEnv == Insert(st.varEnv, x, Site(LastRef(st), st.varId)) && st'.varId == st.varId + 1
  {
    EmitResultCode(st, Bind, [Local(v)]);
    hide EmitResult, Insert;
  }

  lemma UpdateCode(st: State, x: string, v: VarId)
    requires HasBlock(st)
    ensures AddUpdate(st, x, v).Some? <==> Find(st.varEnv, x).Some?
    ensures AddUpdate(st, x, v).Some? ==> var st' := AddUpdate(st, x, v).value;
      && Straight(st, st') && Code(st, st') == [Instruction(st.instrId, Opcode.Update, [Local(v)], Some(st.varId))]
      && st'.varEnv == Scopes.Update(st.varEnv, x, Site(LastRef(st), st.varId)) && st'.varId == st.varId + 1
  {
    EmitResultCode(st, Opcode.Update, [Local(v)]);
    hide EmitResult, Find, Scopes.Update;
  }

  lemma InsertRelated(env: Meaning.Env, names: Stack<Site>, store: Store, x: string, s: Site, v: Meaning.Value)
    requires Related(env, names, store) && names != [] && x !in names[|names| - 1] && s.v !in store
    ensures Related(env[x := v], Insert(names, x, s), store[s.v := v])
  {
    forall y ensures Find(Insert(names, x, s), y) == if y == x then Some(s) else Find(names, y) {
      FindInsert(names, x, s, y);
    }
    hide Find, Insert;
  }

  /** Binding a new name to the value of `w`. */
  lemma BindRuns(env: Meaning.Env, st: State, store: Store, x: string, w: VarId)
    requires HasBlock(st) && st.varEnv != [] && VarBind(st, x, w).Some? && w in store
    requires Related(env, st.varEnv, store) && st.varId !in store
    ensures var st' := VarBind(st, x, w).value; var m := ExecAll(store, Code(st, st'));
      m.Going? && m.store == store[st.varId := store[w]] && Related(env[x := store[w]], st'.varEnv, m.store)
  {
    BindCode(st, x, w);
    ExecOne(store, Instruction(st.instrId, Bind, [Local(w)], Some(st.varId)));
    InsertRelated(env, st.varEnv, store, x, Site(LastRef(st), st.varId), store[w]);
    hide VarBind, Related, Insert;
  }

  lemma UpdateRuns(env: Meaning.Env, st: State, store: Store, x: string, w: VarId)
    requires HasBlock(st) && AddUpdate(st, x, w).Some? && w in store && x in env
    requires Related(env, st.varEnv, store) && StoreOk(st, store)
    ensures var st' := AddUpdate(st, x, w).value; Lowered(st, store, st', Meaning.Running(env[x := store[w]]))
  {
    UpdateCode(st, x, w);
    ExecOne(store, Instruction(st.instrId, Opcode.Update, [Local(w)], Some(st.varId)));
    UpdateRelated(env, st.varEnv, store, x, Site(LastRef(st), st.varId), store[w]);
    hide AddUpdate, Related, Scopes.Update;
  }

  /** A value and then more code. */
  lemma LoweredTrans(env: Meaning.Env, a: State, store: Store, b: State, v: Meaning.Value, c: State, want: Meaning.Outcome)
    requires Matches(env, a, store, b, Some(v)) && Lowered(b, ExecAll(store, Code(a, b)).store, c, want)
    ensures Lowered(a, store, c, want)
  {
    CodeTrans(a, b, c);
    ExecConcat(store, Code(a, b), Code(b, c));
    hide Related, Holds, ExecAll, Code;
  }

  lemma LoweredFails(env: Meaning.Env, a: State, store: Store, b: State, c: State)
    requires Matches(env, a, store, b, None) && Straight(b, c)
    ensures Lowered(a, store, c, Meaning.Stuck)
  {
    MatchesFails(env, a, store, b, c);
  }

  // ---- Statements -------------------------------------------------------------------------

  lemma BindingRuns(st: State, x: string, e: Expr, env: Meaning.Env, store: Store)
    requires Ready(st) && Meaning.Simple(e) && Meaning.Names(e) !! st.globals && VisitBinding(st, x, Some(e)).Some?
    requires Meaning.Names(e) <= env.Keys && Related(env, st.varEnv, store) && StoreOk(st, store)
    ensures Lowered(st, store, VisitBinding(st, x, Some(e)).value, Meaning.Bound(env, x, Meaning.Eval(Wrap32, env, e)))
  {
    hide VarBind, Related, ExecAll, VisitExpr, RequireLastVar, Code;
    var st1 := VisitExpr(st, e).value;
    ExprLowers(st, e);
    ExprRuns(st, e, env, store);
    var w := RequireLastVar(st1).value;
    BindCode(st1, x, w);
    var v := Meaning.Eval(Wrap32, env, e);
    if v.None? {
      LoweredFails(env, st, store, st1, VarBind(st1, x, w).value);
    } else {
      var s1 := ExecAll(store, Code(st, st1)).store;
      BindRuns(env, st1, s1, x, w);
      LoweredTrans(env, st, store, st1, v.value, VarBind(st1, x, w).value, Meaning.Running(env[x := v.value]));
    }
  }

  lemma AssignOpcodeMeaning(op: AssignOp, a: Meaning.Value, b: Meaning.Value)
    requires op != Regular
    ensures Alu(AssignOpcode(op), a, b) == Meaning.Apply(Meaning.AssignMeaning(op), a, b)
  {}

  /** The operation of a compound assignment goes into the reserved variable `t`, a copy of which
      the name then stands for. */
  lemma CompoundRuns(env: Meaning.Env, st: State, store: Store, op: AssignOp, x: string, lv: VarId, rv: VarId, t: VarId)
    requires HasBlock(st) && op != Regular && lv in store && rv in store && t !in store && t < st.varId
    requires Related(env, st.varEnv, store) && StoreOk(st, store) && x in env
    ensures var st1 := Emit(st, AssignOpcode(op), [Local(lv), Local(rv)], Some(t));
      AddUpdate(st1, x, t).Some? &&
      Lowered(st, store, AddUpdate(st1, x, t).value,
              Meaning.Bound(env, x, Meaning.Apply(Meaning.AssignMeaning(op), store[lv], store[rv])))
  {
    hide Find, Scopes.Update, ExecAll, Alu, Meaning.Apply;
    var os := [Local(lv), Local(rv)];
    var st1 := Emit(st, AssignOpcode(op), os, Some(t));
    EmitCode(st, AssignOpcode(op), os, Some(t));
    ExecOne(store, Instruction(st.instrId, AssignOpcode(op), os, Some(t)));
    AssignOpcodeMeaning(op, store[lv], store[rv]);
    UpdateCode(st1, x, t);
    var st2 := AddUpdate(st1, x, t).value;
    CodeTrans(st, st1, st2);
    ExecConcat(store, Code(st, st1), Code(st1, st2));
    var v := Alu(AssignOpcode(op), store[lv], store[rv]);
    hide Emit, AddUpdate, Code;
    if v.Some? { UpdateRuns(env, st1, store[t := v.value], x, t); }
  }

  /** Reserving the result variable first makes no difference. */
  lemma FromReserved(st: State, store: Store, st': State, want: Meaning.Outcome)
    requires HasBlock(st) && Lowered(CreateVar(st), store, st', want)
    ensures Lowered(st, store, st', want)
  {
    assert Code(st, st') == Code(CreateVar(st), st');
    hide ExecAll;
  }

  lemma RegularRuns(st: State, x: string, e: Expr, env: Meaning.Env, store: Store)
    requires Ready(st) && Meaning.Simple(e) && (Meaning.Names(e) + {x}) !! st.globals
    requires VisitAssignment(st, Regular, Identifier(x), e).Some?
    requires Meaning.Names(e) + {x} <= env.Keys && Related(env, st.varEnv, store) && StoreOk(st, store)
    ensures Lowered(st, store, VisitAssignment(st, Regular, Identifier(x), e).value, Meaning.Bound(env, x, Meaning.Eval(Wrap32, env, e)))
  {
    hide AddUpdate, ExecAll, VisitExpr, RequireLastVar, Code, Find;
    var c := CreateVar(st);
    var st1 := VisitExpr(c, e).value;
    ExprLowers(c, e);
    ExprRuns(c, e, env, store);
    var w := RequireLastVar(st1).value;
    UpdateCode(st1, x, w);
    var st2 := AddUpdate(st1, x, w).value;
    var v := Meaning.Eval(Wrap32, env, e);
    hide Related;
    if v.None? {
      LoweredFails(env, c, store, st1, st2);
    } else {
      UpdateRuns(env, st1, ExecAll(store, Code(c, st1)).store, x, w);
      LoweredTrans(env, c, store, st1, v.value, st2, Meaning.Running(env[x := v.value]));
    }
    FromReserved(st, store, st2, Meaning.Bound(env, x, v));
  }

  lemma CompoundStmtRuns(st: State, op: AssignOp, x: string, e: Expr, env: Meaning.Env, store: Store, st': State)
    requires Meaning.Simple(e) && op != Regular && op != ModAssign
    requires Ready(st) && (Meaning.Names(e) + {x}) !! st.globals && VisitAssignment(st, op, Identifier(x), e) == Some(st')
    requires Meaning.Names(e) + {x} <= env.Keys && Related(env, st.varEnv, store) && StoreOk(st, store)
    ensures Lowered(st, store, st', Meaning.Bound(env, x, Meaning.Eval(Wrap32, env, Infix(Meaning.AssignMeaning(op), Identifier(x), e))))
  {
    hide AddUpdate, ExecAll, VisitExpr, RequireLastVar, Code, Find, AddVariableRef, Emit, Related, Meaning.Apply;
    var c := CreateVar(st);
    var st1 := VisitExpr(c, e).value;
    var rv := RequireLastVar(st1).value;
    var st2 := AddVariableRef(st1, x).value;
    var lv := RequireLastVar(st2).value;
    var st3 := AddUpdate(Emit(st2, AssignOpcode(op), [Local(lv), Local(rv)], Some(st.varId)), x, st.varId).value;
    var want := Meaning.Eval(Wrap32, env, Infix(Meaning.AssignMeaning(op), Identifier(x), e));
    ExprLowers(c, e);
    ExprRuns(c, e, env, store);
    var v := Meaning.Eval(Wrap32, env, e);
    if v.None? {
      CompoundCode(st1, x, op, rv, st.varId);
      LoweredFails(env, c, store, st1, st3);
    } else {
      var s1 := ExecAll(store, Code(c, st1)).store;
      RefRuns(env, st1, s1, x);
      var s2 := ExecAll(s1, Code(st1, st2)).store;
      CompoundRuns(env, st2, s2, op, x, lv, rv, st.varId);
      assert s2[rv] == v.value && s2[lv] == env[x];
      assert Meaning.Eval(Wrap32, env, Identifier(x)) == Some(env[x]);
      assert want == Meaning.Apply(Meaning.AssignMeaning(op), env[x], v.value);
      LoweredTrans(env, st1, s1, st2, env[x], st3, Meaning.Bound(env, x, want));
      LoweredTrans(env, c, store, st1, v.value, st3, Meaning.Bound(env, x, want));
    }
    FromReserved(st, store, st3, Meaning.Bound(env, x, want));
  }

  /** Even when the value of the right side is missing, the code behind it is straight. */
  lemma CompoundCode(st: State, x: string, op: AssignOp, rv: VarId, t: VarId)
    requires HasBlock(st) && op != Regular && x !in st.globals && AddVariableRef(st, x).Some?
    requires RequireLastVar(AddVariableRef(st, x).value).Some?
    ensures var st2 := AddVariableRef(st, x).value; var lv := RequireLastVar(st2).value;
      var st3 := Emit(st2, AssignOpcode(op), [Local(lv), Local(rv)], Some(t));
      AddUpdate(st3, x, t).Some? ==> Straight(st, AddUpdate(st3, x, t).value)
  {
    RefCode(st, x);
    var st2 := AddVariableRef(st, x).value;
    var lv := RequireLastVar(st2).value;
    var st3 := Emit(st2, AssignOpcode(op), [Local(lv), Local(rv)], Some(t));
    EmitCode(st2, AssignOpcode(op), [Local(lv), Local(rv)], Some(t));
    UpdateCode(st3, x, t);
    hide AddVariableRef, Emit, AddUpdate, Find;
    CodeTrans(st, st2, st3);
  }

  lemma ReturnRuns(order: Order, st: State, s: Stmt, env: Meaning.Env, store: Store)
    requires Ready(st) && IsOrder(order) && s.Return? && Meaning.SimpleStmt(s) && (Meaning.Used(s) + Meaning.Binds(s)) !! st.globals
    requires VisitStmt(order, st, s).Some? && Meaning.Used(s) <= env.Keys && Related(env, st.varEnv, store) && StoreOk(st, store)
    ensures Lowered(st, store, VisitStmt(order, st, s).value, Meaning.Run(Wrap32, env, s))
  {
    hide ExecAll, VisitExpr, RequireLastVar, Code, Emit, Related;
    if s.result.None? {
      EmitCode(st, ReturnOp, [], None);
      ExecOne(store, Instruction(st.instrId, ReturnOp, [], None));
    } else {
      var e := s.result.value;
      var st1 := VisitExpr(st, e).value;
      ExprLowers(st, e);
      ExprRuns(st, e, env, store);
      var os := [Local(RequireLastVar(st1).value)];
      var st2 := Emit(st1, ReturnOp, os, None);
      EmitCode(st1, ReturnOp, os, None);
      var v := Meaning.Eval(Wrap32, env, e);
      if v.None? {
        LoweredFails(env, st, store, st1, st2);
      } else {
        var s1 := ExecAll(store, Code(st, st1)).store;
        ExecOne(s1, Instruction(st1.instrId, ReturnOp, os, None));
        LoweredTrans(env, st, store, st1, v.value, st2, Meaning.Returned(v));
      }
    }
  }

  lemma StmtRuns(order: Order, st: State, s: Stmt, env: Meaning.Env, store: Store)
    requires Ready(st) && IsOrder(order) && Meaning.SimpleStmt(s) && (Meaning.Used(s) + Meaning.Binds(s)) !! st.globals
    requires VisitStmt(order, st, s).Some? && Meaning.Used(s) <= env.Keys && Related(env, st.varEnv, store) && StoreOk(st, store)
    ensures Lowered(st, store, VisitStmt(order, st, s).value, Meaning.Run(Wrap32, env, s))
  {
    hide ExecAll, VisitExpr, Code, Related, VisitBinding, VisitAssignment, Meaning.Eval, StoreOk;
    match s
    case Let(x, init) => BindingRuns(st, x, init.value, env, store);
    case Var(x, init) => BindingRuns(st, x, init.value, env, store);
    case Assign(op, target, value) =>
      if op == Regular { RegularRuns(st, target.id, value, env, store); }
      else { CompoundStmtRuns(st, op, target.id, value, env, store, VisitAssignment(st, op, target, value).value); }
    case ExprStmt(e) => ExprStmtRuns(st, e, env, store);
    case Return(_) => ReturnRuns(order, st, s, env, store);
  }

  lemma ExprStmtRuns(st: State, e: Expr, env: Meaning.Env, store: Store)
    requires Ready(st) && Meaning.Simple(e) && Meaning.Names(e) !! st.globals && VisitExpr(st, e).Some?
    requires Meaning.Names(e) <= env.Keys && Related(env, st.varEnv, store) && StoreOk(st, store)
    ensures Lowered(st, store, VisitExpr(st, e).value, if Meaning.Eval(Wrap32, env, e).None? then Meaning.Stuck else Meaning.Running(env))
  {
    hide Related, ExecAll, VisitExpr, Code;
    ExprRuns(st, e, env, store);
  }

  // ---- When a body is lowered -------------------------------------------------------------

  /** `bound` are the visible names, `inner` those of the innermost scope. */
  ghost predicate NamesAre(st: State, bound: set<string>, inner: set<string>) {
    st.varEnv != [] && (forall x :: x in bound <==> Find(st.varEnv, x).Some?) && inner == st.varEnv[|st.varEnv| - 1].Keys
  }

  lemma NamesKept(a: State, b: State, bound: set<string>, inner: set<string>)
    requires NamesAre(a, bound, inner) && SameNames(a.varEnv, b.varEnv)
    ensures NamesAre(b, bound, inner)
  {
    forall x ensures Find(a.varEnv, x).Some? <==> Find(b.varEnv, x).Some? {
      SameNamesFind(a.varEnv, b.varEnv, x);
    }
    hide Find;
  }

  lemma ExprNamed(st: State, e: Expr, bound: set<string>, inner: set<string>)
    requires Ready(st) && Meaning.Simple(e) && Meaning.Names(e) !! st.globals && NamesAre(st, bound, inner)
    ensures VisitExpr(st, e).Some? <==> Meaning.Names(e) <= bound
    ensures VisitExpr(st, e).Some? ==> var st' := VisitExpr(st, e).value;
      Straight(st, st') && NamesAre(st', bound, inner) && RequireLastVar(st').Some?
  {
    hide VisitExpr, Find;
    ExprLowers(st, e);
    if VisitExpr(st, e).Some? { NamesKept(st, VisitExpr(st, e).value, bound, inner); }
  }

  lemma BindNamed(st: State, x: string, v: VarId, bound: set<string>, inner: set<string>)
    requires HasBlock(st) && NamesAre(st, bound, inner)
    ensures VarBind(st, x, v).Some? <==> x !in inner
    ensures VarBind(st, x, v).Some? ==> NamesAre(VarBind(st, x, v).value, bound + {x}, inner + {x})
  {
    BindCode(st, x, v);
    var s := Site(LastRef(st), st.varId);
    if x !in inner {
      forall y ensures Find(Insert(st.varEnv, x, s), y) == if y == x then Some(s) else Find(st.varEnv, y) {
        FindInsert(st.varEnv, x, s, y);
      }
    }
    hide VarBind, Find;
  }

  lemma BindingNamed(st: State, x: string, e: Expr, bound: set<string>, inner: set<string>)
    requires Ready(st) && Meaning.Simple(e) && Meaning.Names(e) !! st.globals && NamesAre(st, bound, inner)
    ensures VisitBinding(st, x, Some(e)).Some? <==> Meaning.Names(e) <= bound && x !in inner
    ensures VisitBinding(st, x, Some(e)).Some? ==> var st' := VisitBinding(st, x, Some(e)).value;
      Straight(st, st') && NamesAre(st', bound + {x}, inner + {x})
  {
    ExprNamed(st, e, bound, inner);
    if VisitExpr(st, e).Some? {
      var st1 := VisitExpr(st, e).value;
      var w := RequireLastVar(st1).value;
      BindNamed(st1, x, w, bound, inner);
      BindCode(st1, x, w);
      hide VarBind, VisitExpr;
      if x !in inner { CodeTrans(st, st1, VarBind(st1, x, w).value); }
    }
  }

  lemma UpdateNamed(st: State, x: string, v: VarId, bound: set<string>, inner: set<string>)
    requires HasBlock(st) && NamesAre(st, bound, inner)
    ensures AddUpdate(st, x, v).Some? <==> x in bound
    ensures AddUpdate(st, x, v).Some? ==> var st' := AddUpdate(st, x, v).value; Straight(st, st') && NamesAre(st', bound, inner)
  {
    UpdateCode(st, x, v);
    if x in bound {
      hide AddUpdate;
      NamesKept(st, AddUpdate(st, x, v).value, bound, inner);
    }
  }

  lemma AssignNamed(st: State, op: AssignOp, x: string, e: Expr, bound: set<string>, inner: set<string>)
    requires Ready(st) && Meaning.Simple(e) && (Meaning.Names(e) + {x}) !! st.globals && NamesAre(st, bound, inner) && op != ModAssign
    ensures VisitAssignment(st, op, Identifier(x), e).Some? <==> Meaning.Names(e) + {x} <= bound
    ensures VisitAssignment(st, op, Identifier(x), e).Some? ==> var st' := VisitAssignment(st, op, Identifier(x), e).value;
      Straight(st, st') && NamesAre(st', bound, inner)
  {
    hide VisitExpr, AddUpdate, Emit, AddVariableRef, Find, Code;
    var c := CreateVar(st);
    assert NamesAre(c, bound, inner) && Straight(st, c);
    ExprNamed(c, e, bound, inner);
    if VisitExpr(c, e).Some? {
      var st1 := VisitExpr(c, e).value;
      CodeTrans(st, c, st1);
      var rv := RequireLastVar(st1).value;
      if op == Regular {
        UpdateNamed(st1, x, rv, bound, inner);
        if x in bound { CodeTrans(st, st1, AddUpdate(st1, x, rv).value); }
      } else {
        CompoundNamed(st1, op, x, rv, st.varId, bound, inner);
        if x in bound { CodeTrans(st, st1, VisitAssignment(st, op, Identifier(x), e).value); }
      }
    }
  }

  lemma CompoundNamed(st: State, op: AssignOp, x: string, rv: VarId, t: VarId, bound: set<string>, inner: set<string>)
    requires HasBlock(st) && NamesAre(st, bound, inner) && x !in st.globals && op != Regular
    ensures AddVariableRef(st, x).Some? <==> x in bound
    ensures AddVariableRef(st, x).Some? ==> RequireLastVar(AddVariableRef(st, x).value).Some?
    ensures AddVariableRef(st, x).Some? ==>
      var st2 := AddVariableRef(st, x).value;
      var st3 := AddUpdate(Emit(st2, AssignOpcode(op), [Local(RequireLastVar(st2).value), Local(rv)], Some(t)), x, t);
      st3.Some? && Straight(st, st3.value) && NamesAre(st3.value, bound, inner)
  {
    if x in bound {
      RefCode(st, x);
      var st2 := AddVariableRef(st, x).value;
      NamesKept(st, st2, bound, inner);
      var os := [Local(RequireLastVar(st2).value), Local(rv)];
      EmitCode(st2, AssignOpcode(op), os, Some(t));
      var st3 := Emit(st2, AssignOpcode(op), os, Some(t));
      hide AddVariableRef, Emit, AddUpdate, Find;
      UpdateNamed(st3, x, t, bound, inner);
      CompoundCode(st, x, op, rv, t);
    }
  }

  /** A statement is lowered exactly when the names it needs are bound and the one it binds is
      free in the innermost scope. */
  lemma StmtNamed(order: Order, st: State, s: Stmt, bound: set<string>, inner: set<string>)
    requires Ready(st) && IsOrder(order) && Meaning.SimpleStmt(s) && (Meaning.Used(s) + Meaning.Binds(s)) !! st.globals
    requires NamesAre(st, bound, inner)
    ensures VisitStmt(order, st, s).Some? <==> Meaning.Used(s) <= bound && Meaning.Binds(s) !! inner
    ensures VisitStmt(order, st, s).Some? ==> var st' := VisitStmt(order, st, s).value;
      Straight(st, st') && NamesAre(st', bound + Meaning.Binds(s), inner + Meaning.Binds(s))
  {
    hide VisitExpr, VisitBinding, VisitAssignment, Emit, NamesAre;
    assert !s.Let? && !s.Var? ==> bound + Meaning.Binds(s) == bound && inner + Meaning.Binds(s) == inner;
    match s
    case Let(x, init) => BindingNamed(st, x, init.value, bound, inner);
    case Var(x, init) => BindingNamed(st, x, init.value, bound, inner);
    case Assign(op, target, value) => AssignNamed(st, op, target.id, value, bound, inner);
    case ExprStmt(e) => ExprNamed(st, e, bound, inner);
    case Return(_) => ReturnNamed(order, st, s, bound, inner);
  }

  lemma ReturnNamed(order: Order, st: State, s: Stmt, bound: set<string>, inner: set<string>)
    requires Ready(st) && IsOrder(order) && s.Return? && Meaning.SimpleStmt(s) && (Meaning.Used(s) + Meaning.Binds(s)) !! st.globals && NamesAre(st, bound, inner)
    ensures VisitStmt(order, st, s).Some? <==> (s.result.Some? ==> Meaning.Names(s.result.value) <= bound)
    ensures VisitStmt(order, st, s).Some? ==> Straight(st, VisitStmt(order, st, s).value) && NamesAre(VisitStmt(order, st, s).value, bound, inner)
  {
    hide Emit, VisitExpr, Find;
    if s.result.None? {
      EmitCode(st, ReturnOp, [], None);
    } else {
      ExprNamed(st, s.result.value, bound, inner);
      if VisitExpr(st, s.result.value).Some? {
        var st1 := VisitExpr(st, s.result.value).value;
        var os := [Local(RequireLastVar(st1).value)];
        EmitCode(st1, ReturnOp, os, None);
        CodeTrans(st, st1, Emit(st1, ReturnOp, os, None));
      }
    }
  }

  // ---- Bodies -----------------------------------------------------------------------------

  ghost predicate NoGlobals(globals: set<string>, ss: seq<Stmt>)
    requires Meaning.SimpleBody(ss)
  {
    forall i :: 0 <= i < |ss| ==> (Meaning.Used(ss[i]) + Meaning.Binds(ss[i])) !! globals
  }

  /** Lowering succeeds exactly for the bodies whose names are in order. */
  lemma {:induction false} BodyLowers(order: Order, st: State, ss: seq<Stmt>, bound: set<string>, inner: set<string>)
    requires Ready(st) && IsOrder(order) && Meaning.SimpleBody(ss) && NoGlobals(st.globals, ss) && NamesAre(st, bound, inner)
    ensures VisitList(order, st, ss).Some? <==> Meaning.WellNamed(bound, inner, ss)
    ensures VisitList(order, st, ss).Some? ==> Straight(st, VisitList(order, st, ss).value)
    decreases |ss|
  {
    hide VisitStmt, NamesAre, Meaning.SimpleStmt, Meaning.Used, Meaning.Binds;
    if ss != [] {
      StmtNamed(order, st, ss[0], bound, inner);
      if VisitStmt(order, st, ss[0]).Some? {
        var st1 := VisitStmt(order, st, ss[0]).value;
        BodyLowers(order, st1, ss[1..], bound + Meaning.Binds(ss[0]), inner + Meaning.Binds(ss[0]));
        if VisitList(order, st1, ss[1..]).Some? { CodeTrans(st, st1, VisitList(order, st1, ss[1..]).value); }
      }
    }
  }

  /** Straight code after code that ended the run, or after code that goes on. */
  lemma LoweredThen(a: State, store: Store, b: State, first: Meaning.Outcome, c: State, want: Meaning.Outcome)
    requires Lowered(a, store, b, first) && Straight(b, c)
    requires if first.Running? then Lowered(b, ExecAll(store, Code(a, b)).store, c, want) else want == first
    ensures Lowered(a, store, c, want)
  {
    CodeTrans(a, b, c);
    ExecConcat(store, Code(a, b), Code(b, c));
    hide Related, ExecAll, Code;
  }

  /** Running the code of a lowered body has the body's outcome: it fails, returns a value, or
      goes on with every name's variable holding the name's value. Other names may be visible. */
  lemma {:induction false} BodyRuns(order: Order, st: State, ss: seq<Stmt>, inner: set<string>, env: Meaning.Env, store: Store)
    requires Ready(st) && IsOrder(order) && Meaning.SimpleBody(ss) && NoGlobals(st.globals, ss)
    requires VisitList(order, st, ss).Some? && Meaning.WellNamed(env.Keys, inner, ss)
    requires Related(env, st.varEnv, store) && StoreOk(st, store)
    ensures Lowered(st, store, VisitList(order, st, ss).value, Meaning.RunBody(Wrap32, env, ss))
    decreases |ss|
  {
    hide VisitStmt, Related, StoreOk, Meaning.SimpleStmt, Meaning.Used, Meaning.Binds, Meaning.Run, Code;
    if ss == [] {
      EmptyBody(st, store, env);
    } else {
      var st1 := VisitStmt(order, st, ss[0]).value;
      StmtRuns(order, st, ss[0], env, store);
      var st2 := VisitList(order, st1, ss[1..]).value;
      BodyStraight(order, st1, ss[1..]);
      var first := Meaning.Run(Wrap32, env, ss[0]);
      if first.Running? {
        Meaning.RunNames(Wrap32, env, ss[0]);
        BodyRuns(order, st1, ss[1..], inner + Meaning.Binds(ss[0]), first.env, ExecAll(store, Code(st, st1)).store);
      }
      LoweredThen(st, store, st1, first, st2, Meaning.RunBody(Wrap32, env, ss));
    }
  }

  lemma EmptyBody(st: State, store: Store, env: Meaning.Env)
    requires HasBlock(st) && Related(env, st.varEnv, store) && StoreOk(st, store)
    ensures Lowered(st, store, st, Meaning.Running(env))
  {
    assert Code(st, st) == [];
  }

  lemma BodyStraight(order: Order, st: State, ss: seq<Stmt>)
    requires Ready(st) && IsOrder(order) && Meaning.SimpleBody(ss) && NoGlobals(st.globals, ss) && VisitList(order, st, ss).Some?
    ensures Straight(st, VisitList(order, st, ss).value)
  {
    var bound := Flat(st.varEnv).Keys;
    forall x ensures x in bound <==> Find(st.varEnv, x).Some? { FindIsFlat(st.varEnv, x); }
    hide Find, Flat, VisitList;
    BodyLowers(order, st, ss, bound, st.varEnv[|st.varEnv| - 1].Keys);
  }
}
