/** Where the lowering does not do what the source means, and exactly what it does instead. */
module MirLimits {
  import opened Ast
  import opened Statements
  import opened Scopes
  import opened Mir
  import opened MirFactory
  import opened MirBuilder
  import Meaning
  import opened MirMachine
  import opened Words
  import opened MirMeaning
  import opened MirMeaningBody

  /** A call produces no variable. */
  lemma CallIsEmpty(st: State, call: Expr)
    requires Ready(st) && call.FunctionCall?
    ensures VisitExpr(st, call).Some? ==> RequireLastVar(VisitExpr(st, call).value).None?
  {
    var visited := VisitArgs(st, call.args);
    if visited.Some? && AddCall(visited.value.0, call.callee, visited.value.1).Some? {
      EmitCode(visited.value.0, CallOp, CallOperands(call.callee, visited.value.1), None);
    }
    hide VisitArgs, RequireLastVar, Emit;
  }

  /** So it is no operand of a prefix operator, nor on either side of an infix one. */
  lemma CallNoOperand(st: State, op: InfixOp, call: Expr, e: Expr)
    requires Ready(st) && call.FunctionCall?
    ensures VisitExpr(st, Infix(op, call, e)).None? && VisitExpr(st, Infix(op, e, call)).None?
    ensures VisitExpr(st, Prefix(Positive, call)).None? && VisitExpr(st, Prefix(Negative, call)).None?
  {
    CallIsEmpty(st, call);
    if op == And || op == Or {
      CallNoLeftTerm(st, op, call, e);
      CallNoRightTerm(st, op, e, call);
    } else {
      CallNoRight(st, op, e, call);
    }
    hide RequireLastVar, VisitLogical;
  }

  lemma CallNoRight(st: State, op: InfixOp, e: Expr, call: Expr)
    requires Ready(st) && call.FunctionCall? && op != And && op != Or
    ensures VisitExpr(st, Infix(op, e, call)).None?
  {
    hide RequireLastVar, VisitLogical, EmitResult;
    if VisitExpr(st, e).Some? { CallIsEmpty(VisitExpr(st, e).value, call); }
  }

  lemma CallNoLeftTerm(st: State, op: InfixOp, call: Expr, e: Expr)
    requires Ready(st) && call.FunctionCall?
    ensures VisitLogical(st, op, call, e).None?
  {
    hide VisitExpr, RequireLastVar, EnterBlock, AddBlock, FinishLogical, EmitResult;
    CallIsEmpty(EnterBlock(st, LogicalName(op) + "_left_term"), call);
    assert VisitLeftTerm(st, op, call).None?;
  }

  lemma CallNoRightTerm(st: State, op: InfixOp, e: Expr, call: Expr)
    requires Ready(st) && call.FunctionCall?
    ensures VisitLogical(st, op, e, call).None?
  {
    hide VisitExpr, RequireLastVar, VisitLeftTerm, AddBlock, FinishLogical;
    var t := VisitLeftTerm(st, op, e);
    if t.Some? { CallIsEmpty(AddBlock(t.value.st, LogicalName(op) + "_right_term"), call); }
  }

  /** It is no argument, in whatever place. */
  lemma {:induction false} CallNoArgument(st: State, args: seq<Expr>, i: nat)
    requires Ready(st) && i < |args| && args[i].FunctionCall?
    ensures VisitArgs(st, args).None?
    decreases i
  {
    hide VisitExpr, RequireLastVar;
    if i == 0 {
      CallIsEmpty(st, args[0]);
    } else if VisitExpr(st, args[0]).Some? {
      CallNoArgument(VisitExpr(st, args[0]).value, args[1..], i - 1);
    }
  }

  /** And it is no initial, assigned or returned value, no place to step, and no condition. */
  lemma CallNoValue(order: Order, st: State, call: Expr, s: Stmt)
    requires Ready(st) && IsOrder(order) && call.FunctionCall?
    requires match s
      case Let(_, init) => init == Some(call)
      case Var(_, init) => init == Some(call)
      case Assign(_, _, value) => value == call
      case Increment(x) => x == call
      case Decrement(x) => x == call
      case Return(result) => result == Some(call)
      case If(_, cond, _, _) => cond == call
      case Loop(_, test, _, _) => test == Some(call)
      case _ => false
    ensures VisitStmt(order, st, s).None?
  {
    hide VisitExpr, RequireLastVar, EnterBlock;
    CallIsEmpty(st, call);
    CallIsEmpty(CreateVar(st), call);
    match s
    case If(first, cond, _, _) =>
      var st1 := BeforeTest(order, st, s);
      if st1.Some? { CallIsEmpty(st1.value, call); }
    case Loop(first, _, post, _) =>
      if first.Some? && post.Some? && VisitStmt(order, st, first.value).Some? {
        CallIsEmpty(EnterBlock(VisitStmt(order, st, first.value).value, "loop_cond"), call);
      }
    case _ =>
  }

  /** `x %= e` evaluates both sides and their remainder, and forgets it: `x` keeps its value. */
  lemma RemainderForgotten(st: State, x: string, e: Expr, env: Meaning.Env, store: Store)
    requires Ready(st) && Meaning.Simple(e) && (Meaning.Names(e) + {x}) !! st.globals
    requires VisitAssignment(st, ModAssign, Identifier(x), e).Some?
    requires Meaning.Names(e) + {x} <= env.Keys && Related(env, st.varEnv, store) && StoreOk(st, store)
    ensures Lowered(st, store, VisitAssignment(st, ModAssign, Identifier(x), e).value,
                    if Meaning.Eval(Wrap32, env, Infix(Modulo, Identifier(x), e)).None? then Meaning.Stuck else Meaning.Running(env))
  {
    hide ExecAll, VisitExpr, RequireLastVar, Code, Find, AddVariableRef, Emit, Related, Meaning.Apply, Alu;
    var c := CreateVar(st);
    var st1 := VisitExpr(c, e).value;
    var rv := RequireLastVar(st1).value;
    var st2 := AddVariableRef(st1, x).value;
    var lv := RequireLastVar(st2).value;
    var os := [Local(lv), Local(rv)];
    var st3 := Emit(st2, IMod, os, Some(st.varId));
    var want := if Meaning.Eval(Wrap32, env, Infix(Modulo, Identifier(x), e)).None? then Meaning.Stuck else Meaning.Running(env);
    ExprLowers(c, e);
    ExprRuns(c, e, env, store);
    RefCode(st1, x) by { hide *; SameNamesFind(c.varEnv, st1.varEnv, x); NameFound(env, c.varEnv, store, x); }
    EmitCode(st2, IMod, os, Some(st.varId));
    CodeTrans(st1, st2, st3);
    var v := Meaning.Eval(Wrap32, env, e);
    if v.None? {
      LoweredFails(env, c, store, st1, st3);
    } else {
      var s1 := ExecAll(store, Code(c, st1)).store;
      RefRuns(env, st1, s1, x);
      var s2 := ExecAll(s1, Code(st1, st2)).store;
      assert Meaning.Eval(Wrap32, env, Identifier(x)) == Some(env[x]);
      RemainderRuns(env, st2, s2, lv, rv, st.varId);
      LoweredTrans(env, st1, s1, st2, env[x], st3, want);
      LoweredTrans(env, c, store, st1, v.value, st3, want);
    }
    FromReserved(st, store, st3, want);
  }

  lemma NameFound(env: Meaning.Env, names: Stack<Site>, store: Store, x: string)
    requires Related(env, names, store) && x in env
    ensures Find(names, x).Some?
  {}

  lemma RemainderRuns(env: Meaning.Env, st: State, store: Store, lv: VarId, rv: VarId, t: VarId)
    requires HasBlock(st) && lv in store && rv in store && t !in store && t < st.varId
    requires Related(env, st.varEnv, store) && StoreOk(st, store)
    ensures Lowered(st, store, Emit(st, IMod, [Local(lv), Local(rv)], Some(t)),
      if Meaning.Apply(Modulo, store[lv], store[rv]).None? then Meaning.Stuck else Meaning.Running(env))
  {
    hide Find, ExecAll, Alu, Meaning.Apply;
    EmitCode(st, IMod, [Local(lv), Local(rv)], Some(t));
    ExecOne(store, Instruction(st.instrId, IMod, [Local(lv), Local(rv)], Some(t)));
    OpcodeMeaning(Modulo, store[lv], store[rv]);
    hide Emit, Code;
  }

  /** `x++` and `x--` compute the next and the previous number in an instruction without a result:
      nothing can refer to it, and every name keeps its value. */
  lemma StepForgotten(order: Order, st: State, s: Stmt, env: Meaning.Env, store: Store)
    requires Ready(st) && IsOrder(order) && (s.Increment? || s.Decrement?) && Meaning.Simple(s.place) && Meaning.Names(s.place) !! st.globals
    requires VisitStmt(order, st, s).Some? && Meaning.Names(s.place) <= env.Keys && Related(env, st.varEnv, store) && StoreOk(st, store)
    requires Meaning.Eval(Wrap32, env, s.place).Some?
    ensures VisitExpr(st, s.place).Some?
    ensures var st1 := VisitExpr(st, s.place).value; var st' := VisitStmt(order, st, s).value;
      && Straight(st, st1) && Straight(st1, st') && |Code(st1, st')| == 1
      && ExecAll(store, Code(st, st1)).Going? && Related(env, st'.varEnv, ExecAll(store, Code(st, st1)).store)
    ensures var st1 := VisitExpr(st, s.place).value; var x := Code(st1, VisitStmt(order, st, s).value)[0];
      && x.result.None?
      && MirMachine.Result(ExecAll(store, Code(st, st1)).store, x) ==
           Meaning.Apply(if s.Increment? then Add else Subtract, Meaning.Eval(Wrap32, env, s.place).value, Meaning.IntV(1))
  {
    hide ExecAll, VisitExpr, RequireLastVar, Code, Emit, Related, Meaning.Apply, Alu, Meaning.Eval;
    var st1 := VisitExpr(st, s.place).value;
    var lv := RequireLastVar(st1).value;
    var op := if s.Increment? then IAdd else ISub;
    ExprRuns(st, s.place, env, store);
    EmitCode(st1, op, [Local(lv), IntConst(1)], None);
    OpcodeMeaning(if s.Increment? then Add else Subtract, Meaning.Eval(Wrap32, env, s.place).value, Meaning.IntV(1));
  }
}
