/** Lowering any program gives a module of SSA shape: statements, and the theorem. */
module MirProgram {
  import opened Ast
  import opened Statements
  import opened Scopes
  import opened Mir
  import opened MirFactory
  import opened MirLabels
  import opened MirBuilder
  import opened MirShape
  import opened MirSteps
  import opened MirSsa

  // ---- Simple statements ------------------------------------------------------------------

  lemma BindingKeeps(st: State, ix: Index, x: string, init: Option<Expr>) returns (ix': Index)
    requires Inv(st, ix) && Ready(st) && VisitBinding(st, x, init).Some?
    ensures Kept(st, ix, VisitBinding(st, x, init).value, ix')
  {
    hide Inv, Step, VisitExpr, VarBind, RequireLastVar;
    var st1 := VisitExpr(st, init.value).value;
    var ix1 := ExprKeeps(st, ix, init.value);
    KeptLast(st, ix, st1, ix1);
    ix' := VarBindKeeps(st, ix, st1, ix1, x, RequireLastVar(st1).value);
  }

  lemma StepKeeps(st: State, ix: Index, op: Opcode, x: Expr) returns (ix': Index)
    requires Inv(st, ix) && Ready(st) && VisitStep(st, op, x).Some?
    ensures Kept(st, ix, VisitStep(st, op, x).value, ix')
  {
    hide Inv, Step, VisitExpr, Emit, RequireLastVar;
    var st1 := VisitExpr(st, x).value;
    var ix1 := ExprKeeps(st, ix, x);
    KeptLast(st, ix, st1, ix1);
    ix' := EmitKept(st, ix, st1, ix1, op, [Local(RequireLastVar(st1).value), IntConst(1)]);
  }

  lemma ReturnKeeps(order: Order, st: State, ix: Index, s: Stmt) returns (ix': Index)
    requires Inv(st, ix) && Ready(st) && IsOrder(order) && s.Return? && VisitStmt(order, st, s).Some?
    ensures Kept(st, ix, VisitStmt(order, st, s).value, ix')
  {
    KeptRefl(st, ix);
    hide Inv, Step, VisitExpr, Emit, RequireLastVar;
    match s
    case Return(None) => ix' := EmitKept(st, ix, st, ix, ReturnOp, []);
    case Return(Some(e)) =>
      var st1 := VisitExpr(st, e).value;
      var ix1 := ExprKeeps(st, ix, e);
      KeptLast(st, ix, st1, ix1);
      ix' := EmitKept(st, ix, st1, ix1, ReturnOp, [Local(RequireLastVar(st1).value)]);
  }

  /** The result variable is reserved before either side is visited, and still free after it. */
  lemma AssignmentKeeps(st: State, ix: Index, op: AssignOp, target: Expr, value: Expr) returns (ix': Index)
    requires Inv(st, ix) && Ready(st) && VisitAssignment(st, op, target, value).Some?
    ensures Kept(st, ix, VisitAssignment(st, op, target, value).value, ix')
  {
    hide Inv, Step, VisitExpr, AddUpdate, AddVariableRef, RequireLastVar, Emit;
    var c := CreateVar(st);
    KeptRefl(st, ix);
    ReserveKeeps(st, ix, st, ix);
    var st1 := VisitExpr(c, value).value;
    var ix1 := ExprKeeps(c, ix, value);
    KeptLast(c, ix, st1, ix1);
    KeptTrans(st, ix, c, ix, st1, ix1);
    if op == Regular {
      ix' := AddUpdateKeeps(st, ix, st1, ix1, target.id, RequireLastVar(st1).value);
    } else {
      var st2 := AddVariableRef(st1, target.id).value;
      var ix2 := AddVariableRefKeeps(c, ix, st1, ix1, target.id);
      KeptLast(c, ix, st2, ix2);
      KeptTrans(st, ix, c, ix, st2, ix2);
      ReservedFree(st, ix, st2, ix2);
      var os := [Local(RequireLastVar(st2).value), Local(RequireLastVar(st1).value)];
      UsableOperands(st2, ix2, LastRef(st2).fn, os);
      var ix3 := EmitKeeps(st, ix, st2, ix2, AssignOpcode(op), os, Some(st.varId));
      var st3 := Emit(st2, AssignOpcode(op), os, Some(st.varId));
      ix' := ix3;
      if op != ModAssign { ix' := AddUpdateKeeps(st, ix, st3, ix3, target.id, st.varId); }
    }
  }

  lemma ReservedFree(st: State, ix: Index, b: State, ib: Index)
    requires Inv(st, ix) && Kept(CreateVar(st), ix, b, ib)
    ensures st.varId !in ib.def && st.varId < b.varId
  {
    Fresh(st, ix);
    hide Inv;
  }

  // ---- Control flow -----------------------------------------------------------------------

  lemma {:induction false} StmtKeeps(order: Order, st: State, ix: Index, s: Stmt) returns (ix': Index)
    requires Inv(st, ix) && Ready(st) && IsOrder(order) && VisitStmt(order, st, s).Some?
    ensures Kept(st, ix, VisitStmt(order, st, s).value, ix')
    decreases s, 2
  {
    hide Inv, Step, Emit, VisitExpr, VisitBinding, VisitAssignment, VisitStep, VisitBranches, VisitLoop, VisitCondition;
    KeptRefl(st, ix);
    match s
    case Let(x, init) => ix' := BindingKeeps(st, ix, x, init);
    case Var(x, init) => ix' := BindingKeeps(st, ix, x, init);
    case Assign(op, target, value) => ix' := AssignmentKeeps(st, ix, op, target, value);
    case Increment(x) => ix' := StepKeeps(st, ix, IAdd, x);
    case Decrement(x) => ix' := StepKeeps(st, ix, ISub, x);
    case ExprStmt(e) => ix' := ExprKeeps(st, ix, e);
    case Return(_) => ix' := ReturnKeeps(order, st, ix, s);
    case If(_, _, _, _) => ix' := IfKeeps(order, st, ix, s);
    case Loop(_, _, _, _) => ix' := LoopKeeps(order, st, ix, s);
    case Break => ix' := EmitKept(st, ix, st, ix, BreakOp, []);
    case Continue => ix' := EmitKept(st, ix, st, ix, ContinueOp, []);
    case Defer(_) => ix' := ix;
  }

  lemma {:induction false} ListKeeps(order: Order, st: State, ix: Index, ss: seq<Stmt>) returns (ix': Index)
    requires Inv(st, ix) && Ready(st) && IsOrder(order) && VisitList(order, st, ss).Some?
    ensures Kept(st, ix, VisitList(order, st, ss).value, ix')
    decreases ss, 0
  {
    hide Inv, Step, VisitStmt;
    KeptRefl(st, ix);
    ix' := ix;
    if ss != [] {
      var st1 := VisitStmt(order, st, ss[0]).value;
      var ix1 := StmtKeeps(order, st, ix, ss[0]);
      ix' := ListKeeps(order, st1, ix1, ss[1..]);
      KeptTrans(st, ix, st1, ix1, VisitList(order, st1, ss[1..]).value, ix');
    }
  }

  lemma EnvOf(st: State, ix: Index)
    requires Inv(st, ix)
    ensures EnvOk(st, ix, st.varEnv)
  {}

  /** A sound environment that was saved stays sound. */
  lemma SavedEnv(a: State, ia: Index, b: State, ib: Index, env: Stack<Site>)
    requires Kept(a, ia, b, ib) && EnvOk(a, ia, env)
    ensures EnvOk(b, ib, env)
  {
    hide Inv, EnvOk;
    EnvStep(a, ia, b, ib, env);
  }

  lemma {:induction false} NewEnvKeeps(order: Order, st: State, ix: Index, ss: seq<Stmt>) returns (ix': Index)
    requires Inv(st, ix) && Ready(st) && IsOrder(order) && VisitInNewEnv(order, st, ss).Some?
    ensures var visited := VisitInNewEnv(order, st, ss).value;
      Kept(st, ix, visited.0, ix') && EnvOk(visited.0, ix', visited.1)
    decreases ss, 1
  {
    hide Inv, Step, VisitList, EnvOk;
    KeptRefl(st, ix);
    PushKeeps(st, ix, st, ix);
    var st1 := VisitList(order, PushEnv(st), ss).value;
    ix' := ListKeeps(order, PushEnv(st), ix, ss);
    KeptTrans(st, ix, PushEnv(st), ix, st1, ix');
    PopKeeps(st, ix, st1, ix');
    EnvOf(st1, ix');
    SameFunctions(st1, PopEnv(st1).value);
    hide SameCode;
    EnvStep(st1, ix', PopEnv(st1).value, ix', st1.varEnv);
  }

  lemma ResultGoesLast(st: State, op: Opcode, operands: seq<Operand>)
    requires HasBlock(st)
    ensures var st' := EmitResult(st, op, operands);
      LastRef(st') == LastRef(st) && |LastBlock(st').instructions| - 1 == |Instructions(st, LastRef(st))|
  {
    LastIsBlock(EmitResult(st, op, operands));
    EmitFrame(CreateVar(st), op, operands, Some(st.varId));
  }

  lemma ConditionKeeps(st: State, ix: Index, cond: Expr) returns (ix': Index)
    requires Inv(st, ix) && Ready(st) && VisitCondition(st, cond).Some?
    ensures var st' := VisitCondition(st, cond).value;
      Kept(st, ix, st', ix') && !IsPlace(st, LastRef(st'), |LastBlock(st').instructions| - 1)
  {
    hide Inv, Step, VisitExpr, EmitResult, RequireLastVar;
    var st1 := VisitExpr(st, cond).value;
    var ix1 := ExprKeeps(st, ix, cond);
    KeptLast(st, ix, st1, ix1);
    NoPlaceYet(st, ix, st1, ix1);
    ResultGoesLast(st1, CondJump, [Local(RequireLastVar(st1).value)]);
    ix' := EmitResultKept(st, ix, st1, ix1, CondJump, [Local(RequireLastVar(st1).value)]);
  }

  lemma {:induction false} IfKeeps(order: Order, st: State, ix: Index, s: Stmt) returns (ix': Index)
    requires Inv(st, ix) && Ready(st) && IsOrder(order) && s.If? && VisitStmt(order, st, s).Some?
    ensures Kept(st, ix, VisitStmt(order, st, s).value, ix')
    decreases s, 1
  {
    hide Inv, Step, VisitCondition, VisitBranches;
    KeptRefl(st, ix);
    var st1, ix1 := st, ix;
    if s.first.Some? {
      st1 := VisitStmt(order, st, s.first.value).value;
      ix1 := StmtKeeps(order, st, ix, s.first.value);
    }
    var st2 := VisitCondition(st1, s.cond).value;
    var ix2 := ConditionKeeps(st1, ix1, s.cond);
    KeptTrans(st, ix, st1, ix1, st2, ix2);
    ix' := BranchesKeep(order, st1, ix1, st2, ix2, s);
    KeptTrans(st, ix, st1, ix1, VisitBranches(order, st2, s).value, ix');
  }

  /** A lowered branch, with its jump still to come. */
  ghost predicate BranchOk(st0: State, b: Branch, st: State, ix: Index) {
    && Pending(st, ix, b.jump, b.block) && b.jump >= st0.instrId
    && !IsBlock(st0, b.block) && b.block.fn == |st0.functions| - 1 && EnvOk(st, ix, b.env)
  }

  lemma {:induction false} BranchKeeps(order: Order, st0: State, ix0: Index, st: State, ix: Index, prefix: string, branch: BlockRef, place: nat, code: seq<Stmt>)
    returns (ix': Index)
    requires Inv(st0, ix0) && Kept(st0, ix0, st, ix) && Ready(st) && IsOrder(order) && branch.fn == LastRef(st).fn
    requires !IsPlace(st0, branch, place)
    requires VisitBranch(order, st, prefix, branch, place, code).Some?
    ensures var b := VisitBranch(order, st, prefix, branch, place, code).value;
      && Kept(st0, ix0, b.st, ix') && BranchOk(st0, b, b.st, ix') && !IsBlock(st, b.block) && b.block != LastRef(st)
      && (forall o :: BranchOk(st0, o, st, ix) ==> BranchOk(st0, o, b.st, ix') && o.jump != b.jump && o.block != b.block)
      && Extends(ix, ix') && (forall q :: IsBlock(st, q) ==> IsBlock(b.st, q))
    decreases code, 2
  {
    hide Inv, Step, AddBlock, AddOperands, VisitInNewEnv, IsBlock, Pending, EnvOk;
    var st1 := AddBlock(st, prefix);
    NewBlockKept(st0, ix0, st, ix, prefix);
    var st2 := AddOperands(st1, branch, place, [Label(LastRef(st1))]);
    AddOperandsKept(st0, ix0, st1, ix, branch, place, [Label(LastRef(st1))]);
    var visited := VisitInNewEnv(order, st2, code).value;
    ix' := NewEnvKeeps(order, st2, ix, code);
    KeptTrans(st0, ix0, st2, ix, visited.0, ix');
    KeptWaits(st2, ix, visited.0, ix');
    SealKept(st0, ix0, visited.0, ix', LastRef(st1));
    var last := ReserveInstr(visited.0);
    EnvStep(visited.0, ix', last, ix', visited.1);
    forall o | BranchOk(st0, o, st, ix)
      ensures BranchOk(st0, o, last, ix') && o.jump != visited.0.instrId && o.block != LastRef(st1)
    {
      EnvStep(st, ix, last, ix', o.env);
    }
  }

  lemma RestoreKept(st0: State, ix0: Index, st: State, ix: Index, env: Stack<Site>)
    requires Kept(st0, ix0, st, ix) && EnvOk(st, ix, env)
    ensures var st' := st.(varEnv := env);
      && Kept(st0, ix0, st', ix) && LastRef(st') == LastRef(st)
      && (forall b :: BranchOk(st0, b, st, ix) ==> BranchOk(st0, b, st', ix))
  {
    var st' := st.(varEnv := env);
    hide Inv, Step;
    SetEnvKeeps(st0, ix0, st, ix, st');
    SameFunctions(st, st');
    forall b | BranchOk(st0, b, st, ix) ensures BranchOk(st0, b, st', ix) {
      PendingSameCode(st, ix, st', b.jump, b.block);
      hide SameCode;
      EnvStep(st, ix, st', ix, b.env) by { assert forall r :: IsBlock(st, r) ==> IsBlock(st', r); }
    }
  }

  /** The merge block: branches stay as they are, and their blocks come before it. */
  lemma MergeBlockKept(st0: State, ix0: Index, st: State, ix: Index)
    requires Kept(st0, ix0, st, ix)
    ensures var st' := AddBlock(st, "if_merge");
      && Kept(st0, ix0, st', ix) && IsBlock(st', LastRef(st')) && LastRef(st').fn == |st0.functions| - 1
      && (forall b :: BranchOk(st0, b, st, ix) ==> BranchOk(st0, b, st', ix) && b.block != LastRef(st'))
      && (forall q :: IsBlock(st, q) ==> IsBlock(st', q))
  {
    var st' := AddBlock(st, "if_merge");
    NewBlockKept(st0, ix0, st, ix, "if_merge");
    hide Inv, Step, AddBlock, Pending, IsBlock, EnvOk;
    forall b | BranchOk(st0, b, st, ix) ensures BranchOk(st0, b, st', ix) {
      EnvStep(st, ix, st', ix, b.env);
    }
  }

  lemma JoinKeeps(order: Order, st0: State, ix0: Index, st: State, ix: Index, t: Branch, e: Branch) returns (ix': Index)
    requires Kept(st0, ix0, st, ix) && Ready(st) && IsOrder(order) && t.env != []
    requires BranchOk(st0, t, st, ix) && BranchOk(st0, e, st, ix) && t.jump != e.jump && t.block != e.block
    ensures Kept(st0, ix0, JoinBranches(order, st, t, e), ix')
  {
    hide Inv, Step, AddBlock, Pending, IsBlock, EnvOk, InsertJump, MergeEnvs;
    var st1 := AddBlock(st, "if_merge");
    MergeBlockKept(st0, ix0, st, ix);
    var merge := LastRef(st1);
    var st2 := InsertJump(InsertJump(st1, t.jump, t.block, merge), e.jump, e.block, merge);
    var ix2 := TwoJumpsKeep(st0, ix0, st1, ix, t.jump, t.block, e.jump, e.block, merge);
    InsertKeepsBlock(st1, t.jump, t.block, merge);
    InsertKeepsBlock(InsertJump(st1, t.jump, t.block, merge), e.jump, e.block, merge);
    EnvStep(st1, ix, st2, ix2, t.env);
    EnvStep(st1, ix, st2, ix2, e.env);
    ix' := MergeEnvsKeep(order, st0, ix0, st2, ix2, t.env, e.env);
    var merged := MergeEnvs(order, st2, t.env, e.env);
    RestoreKept(st0, ix0, merged.0, ix', merged.1);
  }

  lemma JoinOneKeeps(order: Order, st0: State, ix0: Index, st: State, ix: Index, t: Branch, env: Stack<Site>) returns (ix': Index)
    requires Kept(st0, ix0, st, ix) && Ready(st) && IsOrder(order) && BranchOk(st0, t, st, ix) && EnvOk(st, ix, env)
    ensures var st2 := AddBlock(st, "if_merge"); var st3 := InsertJump(st2, t.jump, t.block, LastRef(st2));
      && HasBlock(st3) && Kept(st0, ix0, MergeEnvs(order, st3, env, t.env).0.(varEnv := env), ix')
  {
    hide Inv, Step, AddBlock, Pending, IsBlock, EnvOk, InsertJump, MergeEnvs;
    var st2 := AddBlock(st, "if_merge");
    MergeBlockKept(st0, ix0, st, ix);
    var st3 := InsertJump(st2, t.jump, t.block, LastRef(st2));
    var ix3 := InsertJumpKeeps(st0, ix0, st2, ix, t.jump, t.block, LastRef(st2));
    InsertKeepsBlock(st2, t.jump, t.block, LastRef(st2));
    EnvStep(st2, ix, st3, ix3, t.env);
    EnvStep(st, ix, st3, ix3, env);
    ix' := MergeEnvsKeep(order, st0, ix0, st3, ix3, env, t.env);
    var merged := MergeEnvs(order, st3, env, t.env);
    EnvStep(st3, ix3, merged.0, ix', env);
    RestoreKept(st0, ix0, merged.0, ix', env);
  }

  /** The conditional jump is younger than `st0`. */
  lemma {:induction false} BranchesKeep(order: Order, st0: State, ix0: Index, st: State, ix: Index, s: Stmt) returns (ix': Index)
    requires Inv(st0, ix0) && Kept(st0, ix0, st, ix) && Ready(st) && IsOrder(order) && s.If? && LastBlock(st).instructions != []
    requires !IsPlace(st0, LastRef(st), |LastBlock(st).instructions| - 1) && VisitBranches(order, st, s).Some?
    ensures Kept(st0, ix0, VisitBranches(order, st, s).value, ix')
    decreases s, 0
  {
    hide Inv, Step, VisitBranch, AddBlock, InsertJump, MergeEnvs, JoinBranches, EnvOk, BranchOk, IsPlace, IsBlock;
    EnvOf(st, ix);
    LastIsBlock(st);
    var branch := LastRef(st);
    var place := |Instructions(st, branch)| - 1;
    var t := VisitBranch(order, st, "if_then", branch, place, s.onTrue).value;
    var ix1 := BranchKeeps(order, st0, ix0, st, ix, "if_then", branch, place, s.onTrue);
    EnvStep(st, ix, t.st, ix1, st.varEnv);
    RestoreKept(st0, ix0, t.st, ix1, st.varEnv);
    var st1 := t.st.(varEnv := st.varEnv);
    KeptSameFn(st0, ix0, st, ix);
    KeptSameFn(st0, ix0, st1, ix1);
    if s.onFalse.NoElse? {
      EnvStep(t.st, ix1, st1, ix1, st.varEnv) by { SameFunctions(t.st, st1); }
      ix' := JoinOneKeeps(order, st0, ix0, st1, ix1, t, st.varEnv);
    } else {
      ix' := ElseKeeps(order, st0, ix0, st1, ix1, t, branch, place, s.onFalse.code);
    }
  }

  lemma KeptSameFn(st0: State, ix0: Index, st: State, ix: Index)
    requires Kept(st0, ix0, st, ix)
    ensures LastRef(st).fn == |st0.functions| - 1
  {
    hide Inv;
  }

  lemma {:induction false} ElseKeeps(order: Order, st0: State, ix0: Index, st: State, ix: Index, t: Branch, branch: BlockRef, place: nat, code: seq<Stmt>)
    returns (ix': Index)
    requires Inv(st0, ix0) && Kept(st0, ix0, st, ix) && Ready(st) && IsOrder(order) && branch.fn == LastRef(st).fn
    requires !IsPlace(st0, branch, place)
    requires BranchOk(st0, t, st, ix) && t.env != [] && VisitBranch(order, st, "if_alt", branch, place, code).Some?
    ensures var e := VisitBranch(order, st, "if_alt", branch, place, code).value;
      Kept(st0, ix0, JoinBranches(order, e.st, t, e), ix')
    decreases code, 3
  {
    hide Inv, Step, VisitBranch, JoinBranches, BranchOk;
    var e := VisitBranch(order, st, "if_alt", branch, place, code).value;
    var ix1 := BranchKeeps(order, st0, ix0, st, ix, "if_alt", branch, place, code);
    ix' := JoinKeeps(order, st0, ix0, e.st, ix1, t, e);
  }

  lemma PlacesStay(a: State, ia: Index, b: State, ib: Index)
    requires Kept(a, ia, b, ib)
    ensures InstrsKept(a, b)
  {
    hide Inv;
  }

  lemma CloseKept(st0: State, ix0: Index, st: State, ix: Index, r: BlockRef, target: BlockRef, prefix: string) returns (ix': Index)
    requires Kept(st0, ix0, st, ix) && Ready(st) && IsBlock(st, r) && IsBlock(st, target)
    requires !IsBlock(st0, r) && r.fn == target.fn
    ensures var st' := CloseBlock(st, r, target, prefix);
      && Kept(st0, ix0, st', ix') && IsBlock(st', LastRef(st')) && !IsBlock(st0, LastRef(st'))
      && LastRef(st').fn == |st0.functions| - 1 && (forall q :: IsBlock(st, q) ==> IsBlock(st', q))
  {
    hide Inv, Step, AddBlock, InsertJump, Pending, IsBlock;
    var st1 := ReserveInstr(st);
    SealKept(st0, ix0, st, ix, r);
    ix' := InsertJumpKeeps(st0, ix0, st1, ix, st.instrId, r, target);
    InsertKeepsBlock(st1, st.instrId, r, target);
    NewBlockKept(st0, ix0, InsertJump(st1, st.instrId, r, target), ix', prefix);
  }

  lemma {:induction false} LoopKeeps(order: Order, st: State, ix: Index, s: Stmt) returns (ix': Index)
    requires Inv(st, ix) && Ready(st) && IsOrder(order) && s.Loop? && VisitStmt(order, st, s).Some?
    ensures Kept(st, ix, VisitStmt(order, st, s).value, ix')
    decreases s, 1
  {
    hide Inv, Step, VisitLoop;
    var st1 := VisitStmt(order, st, s.first.value).value;
    var ix1 := StmtKeeps(order, st, ix, s.first.value);
    ix' := LoopBehindKeeps(order, st1, ix1, s);
    KeptTrans(st, ix, st1, ix1, VisitLoop(order, st1, s).value, ix');
  }

  lemma {:induction false} LoopBehindKeeps(order: Order, st: State, ix: Index, s: Stmt) returns (ix': Index)
    requires Inv(st, ix) && Ready(st) && IsOrder(order) && s.Loop? && s.test.Some? && s.post.Some?
    requires VisitLoop(order, st, s).Some?
    ensures Kept(st, ix, VisitLoop(order, st, s).value, ix')
    decreases s, 0
  {
    hide Inv, Step, EnterBlock, VisitCondition, AddBlock, VisitStmt, CloseBlock, VisitInNewEnv, AddOperands, IsBlock, EnvOk, Pending, Late;
    var st1 := EnterBlock(st, "loop_cond");
    var ix1 := EnterBlockKeeps(st, ix, "loop_cond");
    var st2 := VisitCondition(st1, s.test.value).value;
    var ix2 := ConditionKeeps(st1, ix1, s.test.value);
    KeptTrans(st, ix, st1, ix1, st2, ix2);
    KeptWaits(st1, ix1, st2, ix2);
    var st3 := AddBlock(st2, "loop_expr");
    NewBlockKept(st, ix, st2, ix2, "loop_expr");
    var st4 := VisitStmt(order, st3, s.post.value).value;
    var ix4 := StmtKeeps(order, st3, ix2, s.post.value);
    KeptTrans(st, ix, st3, ix2, st4, ix4);
    KeptWaits(st3, ix2, st4, ix4);
    var st5 := CloseBlock(st4, LastRef(st3), LastRef(st1), "loop_body");
    var ix5 := CloseKept(st, ix, st4, ix4, LastRef(st3), LastRef(st1), "loop_body");
    var visited := VisitInNewEnv(order, st5, s.body).value;
    var ix6 := NewEnvKeeps(order, st5, ix5, s.body);
    KeptTrans(st, ix, st5, ix5, visited.0, ix6);
    KeptWaits(st5, ix5, visited.0, ix6);
    var st6 := CloseBlock(visited.0, LastRef(st5), LastRef(st3), "loop_merge");
    ix' := CloseKept(st, ix, visited.0, ix6, LastRef(st5), LastRef(st3), "loop_merge");
    LastIsBlock(st2);
    PlacesStay(st, ix, st1, ix1);
    AddOperandsKept(st, ix, st6, ix', LastRef(st2), |Instructions(st2, LastRef(st2))| - 1, [Label(LastRef(st5)), Label(LastRef(st6))]);
  }

  /** Whatever statements follow, an emitted instruction keeps its place and its operands,
      although conditional jumps are completed and other jumps inserted late. */
  lemma EmittedStays(order: Order, st: State, ix: Index, ss: seq<Stmt>)
    requires Inv(st, ix) && Ready(st) && IsOrder(order) && VisitList(order, st, ss).Some?
    ensures InstrsKept(st, VisitList(order, st, ss).value)
  {
    hide Inv;
    var ix' := ListKeeps(order, st, ix, ss);
    PlacesStay(st, ix, VisitList(order, st, ss).value, ix');
  }

  // ---- Programs ---------------------------------------------------------------------------

  lemma ParamKeeps(st: State, ix: Index, name: string) returns (ix': Index)
    requires Inv(st, ix) && Ready(st) && VarBind(AddParam(st), name, st.varId).Some?
    ensures var st' := VarBind(AddParam(st), name, st.varId).value; HasBlock(st') && Kept(st, ix, st', ix') && Inv(st', ix')
  {
    KeptRefl(st, ix);
    hide Inv, Step, Insert, Find, EmitResult, AddParam;
    var ix1 := AddParamKeeps(st, ix, st, ix);
    ix' := VarBindKeeps(st, ix, AddParam(st), ix1, name, st.varId);
  }

  lemma {:induction false} ParamsKeep(st: State, ix: Index, params: seq<string>) returns (ix': Index)
    requires Inv(st, ix) && Ready(st) && VisitParams(st, params).Some?
    ensures Kept(st, ix, VisitParams(st, params).value, ix')
    decreases |params|
  {
    KeptRefl(st, ix);
    hide Inv, Step, VarBind, AddParam, Kept;
    ix' := ix;
    if params != [] {
      var st2 := VarBind(AddParam(st), params[0], st.varId).value;
      var ix2 := ParamKeeps(st, ix, params[0]);
      ix' := ParamsKeep(st2, ix2, params[1..]);
      KeptTrans(st, ix, st2, ix2, VisitParams(st2, params[1..]).value, ix');
    }
  }

  lemma ItemKeeps(order: Order, st: State, ix: Index, item: Item) returns (ix': Index)
    requires Inv(st, ix) && TopLevel(st) && IsOrder(order) && VisitItem(order, st, item).Some?
    ensures Inv(VisitItem(order, st, item).value, ix')
  {
    StepRefl(st, ix);
    hide Step;
    match item
    case FunctionDecl(f) =>
      SetEnvKeeps(st, ix, st, ix, AddFunctionDeclaration(st, f));
      ix' := ix;
    case GlobalDecl(x) =>
      SameFunctions(st, VisitItem(order, st, item).value);
      GrowKeeps(st, ix, st, ix, VisitItem(order, st, item).value);
      ix' := ix;
    case Function(f, params, code) => ix' := FunctionKeeps(order, st, ix, f, params, code);
  }

  lemma FunctionKeeps(order: Order, st: State, ix: Index, f: string, params: seq<string>, code: seq<Stmt>) returns (ix': Index)
    requires Inv(st, ix) && TopLevel(st) && IsOrder(order) && VisitItem(order, st, Function(f, params, code)).Some?
    ensures Inv(VisitItem(order, st, Function(f, params, code)).value, ix')
  {
    hide Inv, Step, VisitParams, VisitList;
    var st0 := AddFunctionDefinition(st, f);
    AddFunctionKeeps(st, ix, f);
    StepRefl(st0, ix);
    AddBlockKeeps(st0, ix, st0, ix, "entry");
    PushKeeps(st0, ix, AddBlock(st0, "entry"), ix);
    var st1 := PushEnv(AddBlock(st0, "entry"));
    var st2 := VisitParams(st1, params).value;
    var ix2 := ParamsKeep(st1, ix, params);
    var st3 := VisitList(order, st2, code).value;
    ix' := ListKeeps(order, st2, ix2, code);
    PopKeeps(st2, ix2, st3, ix');
  }

  lemma {:induction false} ItemsKeep(order: Order, st: State, ix: Index, items: seq<Item>) returns (ix': Index)
    requires Inv(st, ix) && TopLevel(st) && IsOrder(order) && VisitItems(order, st, items).Some?
    ensures Inv(VisitItems(order, st, items).value, ix')
    decreases |items|
  {
    hide Inv, VisitItem;
    ix' := ix;
    if items != [] {
      var ix1 := ItemKeeps(order, st, ix, items[0]);
      ix' := ItemsKeep(order, VisitItem(order, st, items[0]).value, ix1, items[1..]);
    }
  }

  // ---- The shape, without an index --------------------------------------------------------

  ghost predicate IsParamVar(st: State, v: VarId) {
    exists f: nat, p: nat :: IsParam(st, f, p) && st.functions[f].params[p] == v
  }

  ghost predicate Yields(st: State, r: BlockRef, i: nat, v: VarId) {
    IsPlace(st, r, i) && Get(st, r, i).result == Some(v)
  }

  /** A parameter, or the result of an instruction emitted before `id`. */
  ghost predicate Earlier(st: State, v: VarId, id: nat) {
    IsParamVar(st, v) || exists r, i: nat :: Yields(st, r, i, v) && Get(st, r, i).id < id
  }

  /** The result of an instruction in block `b`, or of a PHI. */
  ghost predicate From(st: State, b: BlockRef, v: VarId) {
    exists r, i: nat :: Yields(st, r, i, v) && (r == b || Get(st, r, i).op == Phi)
  }

  ghost predicate SoundOperand(st: State, r: BlockRef, x: Instruction, o: Operand) {
    match o
    case Local(v) => Earlier(st, v, x.id)
    case PhiArg(b, v) => Earlier(st, v, x.id) && IsBlock(st, b) && From(st, b, v)
    case Label(t) => IsBlock(st, t) && t.fn == r.fn
    case NullLocal => x.op == CallOp
    case _ => true
  }

  ghost predicate UniqueIds(st: State) {
    forall r, i: nat, q, k: nat :: IsPlace(st, r, i) && IsPlace(st, q, k) && Get(st, r, i).id == Get(st, q, k).id ==> r == q && i == k
  }

  /** A variable is the result of one instruction at most, and then it is no parameter. */
  ghost predicate UniqueResults(st: State) {
    && (forall r, i: nat, q, k: nat, v :: Yields(st, r, i, v) && Yields(st, q, k, v) ==> r == q && i == k)
    && (forall r, i: nat, v :: Yields(st, r, i, v) ==> !IsParamVar(st, v))
  }

  ghost predicate SoundOperands(st: State) {
    forall r, i: nat, o :: IsPlace(st, r, i) && o in Get(st, r, i).operands ==> SoundOperand(st, r, Get(st, r, i), o)
  }

  /** Every name stands for a parameter or a result that is there already. */
  ghost predicate SoundNames(st: State) {
    forall k :: Find(st.varEnv, k).Some? ==> Earlier(st, Find(st.varEnv, k).value.v, st.instrId)
  }

  /** Looking up a block's label in its function finds that block, and no other block of the
      module has the label. */
  ghost predicate UniqueLabels(st: State) {
    && (forall r :: IsBlock(st, r) ==> FindBlockIn(st.functions[r.fn].blocks, BlockName(st, r)) == Some(r.block))
    && (forall r, q :: IsBlock(st, r) && IsBlock(st, q) && BlockName(st, r) == BlockName(st, q) ==> r == q)
  }

  ghost predicate Ssa(st: State) {
    UniqueLabels(st) && UniqueIds(st) && Increasing(st) && UniqueResults(st) && SoundOperands(st) && SoundNames(st)
  }

  lemma DefinedIsEarlier(st: State, ix: Index, v: VarId, id: nat)
    requires Inv(st, ix) && DefinedBefore(ix, v, id)
    ensures Earlier(st, v, id)
  {
    hide InstrOk, Increasing;
    assert DefOk(st, ix, v);
    match ix.def[v]
    case Parameter(f, p) => assert IsParam(st, f, p);
    case Result(n) => assert Yields(st, ix.at[n].r, ix.at[n].i, v);
  }

  lemma ComputedIsFrom(st: State, ix: Index, b: BlockRef, v: VarId)
    requires Inv(st, ix) && ComputedIn(ix, v, b)
    ensures From(st, b, v)
  {
    hide InstrOk, Increasing;
    assert DefOk(st, ix, v);
    var n := ix.def[v].id;
    assert Yields(st, ix.at[n].r, ix.at[n].i, v);
  }

  lemma OperandIsSound(st: State, ix: Index, r: BlockRef, i: nat, o: Operand)
    requires Inv(st, ix) && IsPlace(st, r, i) && o in Get(st, r, i).operands
    ensures SoundOperand(st, r, Get(st, r, i), o)
  {
    hide Earlier, From, IsPlace, Get, Increasing, IndexOk;
    var x := Get(st, r, i);
    assert InstrOk(st, ix, r, i);
    var k :| 0 <= k < |x.operands| && x.operands[k] == o;
    assert OperandOk(st, ix, r.fn, x.id, x.operands[k]);
    if o.Local? || o.PhiArg? { DefinedIsEarlier(st, ix, o.v, x.id); }
    if o.PhiArg? { ComputedIsFrom(st, ix, o.block, o.v); }
  }

  lemma InvUnique(st: State, ix: Index)
    requires Inv(st, ix)
    ensures UniqueIds(st) && UniqueResults(st)
  {
    hide OperandsOk, Increasing, IndexOk;
    assert forall r, i: nat :: IsPlace(st, r, i) ==> InstrOk(st, ix, r, i);
    hide IsPlace, Get, IsParam;
    forall r, i: nat, q, k: nat | IsPlace(st, r, i) && IsPlace(st, q, k) && Get(st, r, i).id == Get(st, q, k).id
      ensures r == q && i == k
    {
      assert InstrOk(st, ix, r, i) && InstrOk(st, ix, q, k);
    }
    forall r, i: nat, q, k: nat, v | Yields(st, r, i, v) && Yields(st, q, k, v) ensures r == q && i == k {
      assert InstrOk(st, ix, r, i) && InstrOk(st, ix, q, k);
    }
    forall r, i: nat, v | Yields(st, r, i, v) ensures !IsParamVar(st, v) {
      assert InstrOk(st, ix, r, i);
    }
  }

  lemma InvIsSsa(st: State, ix: Index)
    requires Inv(st, ix)
    ensures Ssa(st)
  {
    InvUnique(st, ix);
    Fresh(st, ix);
    assert UniqueLabels(st) by {
      hide CodeOk, EnvOk;
      forall r | IsBlock(st, r) ensures FindBlockIn(st.functions[r.fn].blocks, BlockName(st, r)) == Some(r.block) {
        FindLabel(st, r);
      }
    }
    assert EnvOk(st, ix, st.varEnv);
    assert Increasing(st);
    hide Inv, Increasing, UniqueLabels, UniqueIds, UniqueResults, Earlier, IsPlace, Get, SoundOperand, EnvOk;
    forall r, i: nat, o | IsPlace(st, r, i) && o in Get(st, r, i).operands ensures SoundOperand(st, r, Get(st, r, i), o) {
      OperandIsSound(st, ix, r, i, o);
    }
    forall k | Find(st.varEnv, k).Some? ensures Earlier(st, Find(st.varEnv, k).value.v, st.instrId) {
      FindOk(st, ix, st.varEnv, k);
      DefinedIsEarlier(st, ix, Find(st.varEnv, k).value.v, st.instrId);
    }
  }

  lemma InitialInv()
    ensures Inv(INITIAL, EMPTY)
  {}

  /** Whatever the program and whatever order hash maps are walked in: if lowering succeeds,
      the module is in SSA shape. */
  lemma SsaShape(order: Order, items: seq<Item>)
    requires IsOrder(order) && VisitItems(order, INITIAL, items).Some?
    ensures Ssa(VisitItems(order, INITIAL, items).value)
  {
    InitialInv();
    hide Inv, Ssa, VisitItems;
    var ix := ItemsKeep(order, INITIAL, EMPTY, items);
    InvIsSsa(VisitItems(order, INITIAL, items).value, ix);
  }
}
