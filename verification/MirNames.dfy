/** What lowering does to the names in scope, and what an `If` with an alternative makes of the
    names around it. */
module MirNames {
  import opened Ast
  import opened Statements
  import opened Scopes
  import opened Mir
  import opened MirFactory
  import opened MirBuilder
  import opened MirMeaning
  import opened MirMerge

  // ---- Expressions bind nothing -----------------------------------------------------------

  lemma SameTrans(a: Stack<Site>, b: Stack<Site>, c: Stack<Site>)
    requires SameNames(a, b) && SameNames(b, c)
    ensures SameNames(a, c)
  {}

  lemma RefNames(st: State, x: string)
    requires HasBlock(st) && AddVariableRef(st, x).Some?
    ensures SameNames(st.varEnv, AddVariableRef(st, x).value.varEnv)
  {
    hide Find;
  }

  lemma {:induction false} ExprNames(st: State, e: Expr)
    requires Ready(st) && VisitExpr(st, e).Some?
    ensures SameNames(st.varEnv, VisitExpr(st, e).value.varEnv)
    decreases e, 1
  {
    hide AddVariableRef, EmitResult, RequireLastVar, VisitLogical, SameNames, AddCall;
    SameRefl(st.varEnv);
    match e
    case Literal(lit) => LiteralNames(st, lit);
    case Identifier(x) => RefNames(st, x);
    case FunctionCall(f, args) =>
      ArgsNames(st, args);
      CallNames(VisitArgs(st, args).value.0, f, VisitArgs(st, args).value.1);
    case Prefix(op, x) =>
      if op == Positive || op == Negative {
        var st1 := VisitExpr(st, x).value;
        ExprNames(st, x);
        ResultNames(st1, ISub, [IntConst(0), Local(RequireLastVar(st1).value)]);
      }
    case Infix(op, l, r) =>
      if op == And || op == Or {
        LogicalNames(st, op, l, r);
      } else {
        var st1 := VisitExpr(st, l).value;
        ExprNames(st, l);
        ExprNames(st1, r);
        var st2 := VisitExpr(st1, r).value;
        SameTrans(st.varEnv, st1.varEnv, st2.varEnv);
        ResultNames(st2, InfixOpcode(op), [Local(RequireLastVar(st1).value), Local(RequireLastVar(st2).value)]);
      }
    case _ =>
  }

  lemma ResultNames(st: State, op: Opcode, os: seq<Operand>)
    requires HasBlock(st)
    ensures EmitResult(st, op, os).varEnv == st.varEnv
  {}

  lemma SameRefl(a: Stack<Site>)
    ensures SameNames(a, a)
  {}

  lemma LiteralNames(st: State, lit: Ast.Literal)
    requires Ready(st) && VisitLiteral(st, lit).Some?
    ensures VisitLiteral(st, lit).value.varEnv == st.varEnv
  {}

  lemma CallNames(st: State, f: string, vars: seq<VarId>)
    requires HasBlock(st) && AddCall(st, f, vars).Some?
    ensures AddCall(st, f, vars).value.varEnv == st.varEnv
  {}

  lemma {:induction false} ArgsNames(st: State, args: seq<Expr>)
    requires Ready(st) && VisitArgs(st, args).Some?
    ensures SameNames(st.varEnv, VisitArgs(st, args).value.0.varEnv)
    decreases args, 1
  {
    hide RequireLastVar, SameNames, VisitExpr;
    SameRefl(st.varEnv);
    if args != [] {
      var st1 := VisitExpr(st, args[0]).value;
      ExprNames(st, args[0]);
      ArgsNames(st1, args[1..]);
      SameTrans(st.varEnv, st1.varEnv, VisitArgs(st1, args[1..]).value.0.varEnv);
    }
  }

  lemma {:induction false} LogicalNames(st: State, op: InfixOp, l: Expr, r: Expr)
    requires Ready(st) && VisitLogical(st, op, l, r).Some?
    ensures SameNames(st.varEnv, VisitLogical(st, op, l, r).value.varEnv)
    decreases Infix(op, l, r), 0
  {
    hide RequireLastVar, SameNames, VisitExpr, VisitLeftTerm, FinishLogical, AddBlock;
    var t := VisitLeftTerm(st, op, l).value;
    LeftNames(st, op, l);
    var st1 := AddBlock(t.st, LogicalName(op) + "_right_term");
    var st2 := VisitExpr(st1, r).value;
    ExprNames(st1, r);
    SameTrans(st.varEnv, t.st.varEnv, st2.varEnv);
    var st3 := AddBlock(ReserveInstr(st2), LogicalName(op) + "_merge");
    FinishNames(st3, op, t, LastRef(st1), RequireLastVar(st2).value, st2.instrId);
  }

  lemma {:induction false} LeftNames(st: State, op: InfixOp, l: Expr)
    requires Ready(st) && VisitLeftTerm(st, op, l).Some?
    ensures SameNames(st.varEnv, VisitLeftTerm(st, op, l).value.st.varEnv)
    decreases l, 2
  {
    hide RequireLastVar, SameNames, VisitExpr, EnterBlock;
    var st1 := EnterBlock(st, LogicalName(op) + "_left_term");
    EnterNames(st, LogicalName(op) + "_left_term");
    ExprNames(st1, l);
  }

  lemma EnterNames(st: State, prefix: string)
    requires Ready(st)
    ensures EnterBlock(st, prefix).varEnv == st.varEnv
  {}

  lemma FinishNames(st: State, op: InfixOp, t: LeftTerm, right: BlockRef, rv: VarId, rightJump: nat)
    requires Ready(st)
    ensures FinishLogical(st, op, t, right, rv, rightJump).varEnv == st.varEnv
  {
    hide AddOperands, InsertJump;
  }

  // ---- Statements bind in the innermost scope ---------------------------------------------

  /** Scopes are only added, and only the innermost one of `a` has new names. */
  ghost predicate Inside(a: Stack<Site>, b: Stack<Site>) {
    && |a| <= |b|
    && (forall i :: 0 <= i < |a| ==> a[i].Keys <= b[i].Keys)
    && (forall i :: 0 <= i < |a| - 1 ==> b[i].Keys == a[i].Keys)
  }

  lemma InsideTrans(a: Stack<Site>, b: Stack<Site>, c: Stack<Site>)
    requires Inside(a, b) && Inside(b, c)
    ensures Inside(a, c)
  {
    forall i | 0 <= i < |a| ensures a[i].Keys <= c[i].Keys { assert a[i].Keys <= b[i].Keys <= c[i].Keys; }
  }

  lemma SameInside(a: Stack<Site>, b: Stack<Site>)
    requires SameNames(a, b)
    ensures Inside(a, b)
  {}

  lemma {:induction false} StmtNames(order: Order, st: State, s: Stmt)
    requires Ready(st) && IsOrder(order) && VisitStmt(order, st, s).Some?
    ensures Inside(st.varEnv, VisitStmt(order, st, s).value.varEnv)
    decreases s, 2
  {
    hide VisitExpr, VisitBinding, VisitAssignment, VisitStep, VisitCondition, VisitBranches, VisitLoop, RequireLastVar, SameNames, Inside, Emit;
    SameRefl(st.varEnv);
    SameInside(st.varEnv, st.varEnv);
    match s
    case Let(x, init) => BindingNames(st, x, init);
    case Var(x, init) => BindingNames(st, x, init);
    case Assign(op, target, value) =>
      AssignmentNames(st, op, target, value);
      SameInside(st.varEnv, VisitStmt(order, st, s).value.varEnv);
    case Increment(x) => StepNames(st, IAdd, x);
    case Decrement(x) => StepNames(st, ISub, x);
    case ExprStmt(e) => ExprNames(st, e); SameInside(st.varEnv, VisitExpr(st, e).value.varEnv);
    case Return(result) => ReturnNames(order, st, s);
    case If(_, _, _, _) => IfNames(order, st, s);
    case Loop(_, _, _, _) => LoopNames(order, st, s);
    case Break => EmitNames(st, BreakOp, []);
    case Continue => EmitNames(st, ContinueOp, []);
    case Defer(_) =>
  }

  lemma EmitNames(st: State, op: Opcode, os: seq<Operand>)
    requires HasBlock(st)
    ensures Emit(st, op, os, None).varEnv == st.varEnv
  {}

  lemma BindingNames(st: State, x: string, init: Option<Expr>)
    requires Ready(st) && VisitBinding(st, x, init).Some?
    ensures Inside(st.varEnv, VisitBinding(st, x, init).value.varEnv)
  {
    hide VisitExpr, RequireLastVar, EmitResult;
    ExprNames(st, init.value);
  }

  lemma AssignmentNames(st: State, op: AssignOp, target: Expr, value: Expr)
    requires Ready(st) && VisitAssignment(st, op, target, value).Some?
    ensures SameNames(st.varEnv, VisitAssignment(st, op, target, value).value.varEnv)
  {
    hide VisitExpr, RequireLastVar, AddVariableRef, AddUpdate, Emit, SameNames, Inside;
    var st1 := VisitExpr(CreateVar(st), value).value;
    ExprNames(CreateVar(st), value);
    var rv := RequireLastVar(st1).value;
    var st' := VisitAssignment(st, op, target, value).value;
    if op == Regular {
      UpdateNames(st1, target.id, rv);
      SameTrans(st.varEnv, st1.varEnv, st'.varEnv);
    } else {
      var st2 := AddVariableRef(st1, target.id).value;
      RefNames(st1, target.id);
      SameTrans(st.varEnv, st1.varEnv, st2.varEnv);
      var os := [Local(RequireLastVar(st2).value), Local(rv)];
      var st3 := Emit(st2, AssignOpcode(op), os, Some(st.varId));
      EmitResultNames(st2, AssignOpcode(op), os, st.varId);
      if op != ModAssign {
        UpdateNames(st3, target.id, st.varId);
        SameTrans(st.varEnv, st2.varEnv, st'.varEnv);
      }
    }
  }

  lemma EmitResultNames(st: State, op: Opcode, os: seq<Operand>, v: VarId)
    requires HasBlock(st)
    ensures Emit(st, op, os, Some(v)).varEnv == st.varEnv
  {}

  lemma UpdateNames(st: State, x: string, v: VarId)
    requires HasBlock(st) && AddUpdate(st, x, v).Some?
    ensures SameNames(st.varEnv, AddUpdate(st, x, v).value.varEnv)
  {
    hide Find;
  }

  lemma StepNames(st: State, op: Opcode, x: Expr)
    requires Ready(st) && VisitStep(st, op, x).Some?
    ensures Inside(st.varEnv, VisitStep(st, op, x).value.varEnv)
  {
    hide VisitExpr, RequireLastVar, Inside, SameNames;
    ExprNames(st, x);
    SameInside(st.varEnv, VisitExpr(st, x).value.varEnv);
  }

  lemma ReturnNames(order: Order, st: State, s: Stmt)
    requires Ready(st) && IsOrder(order) && s.Return? && VisitStmt(order, st, s).Some?
    ensures Inside(st.varEnv, VisitStmt(order, st, s).value.varEnv)
  {
    hide VisitExpr, RequireLastVar, Inside, SameNames, Emit;
    SameRefl(st.varEnv);
    match s
    case Return(None) =>
      EmitNames(st, ReturnOp, []);
      SameInside(st.varEnv, st.varEnv);
    case Return(Some(e)) =>
      ExprNames(st, e);
      var st1 := VisitExpr(st, e).value;
      EmitNames(st1, ReturnOp, [Local(RequireLastVar(st1).value)]);
      SameInside(st.varEnv, st1.varEnv);
  }

  lemma ConditionNames(st: State, cond: Expr)
    requires Ready(st) && VisitCondition(st, cond).Some?
    ensures SameNames(st.varEnv, VisitCondition(st, cond).value.varEnv)
  {
    hide VisitExpr, RequireLastVar, SameNames;
    ExprNames(st, cond);
  }

  lemma {:induction false} ListNames(order: Order, st: State, ss: seq<Stmt>)
    requires Ready(st) && IsOrder(order) && VisitList(order, st, ss).Some?
    ensures Inside(st.varEnv, VisitList(order, st, ss).value.varEnv)
    decreases ss, 0
  {
    hide VisitStmt, Inside, SameNames;
    SameRefl(st.varEnv);
    SameInside(st.varEnv, st.varEnv);
    if ss != [] {
      var st1 := VisitStmt(order, st, ss[0]).value;
      StmtNames(order, st, ss[0]);
      ListNames(order, st1, ss[1..]);
      InsideTrans(st.varEnv, st1.varEnv, VisitList(order, st1, ss[1..]).value.varEnv);
    }
  }

  /** In a scope of its own nothing outside gets a name. */
  lemma {:induction false} NewEnvNames(order: Order, st: State, ss: seq<Stmt>)
    requires Ready(st) && IsOrder(order) && VisitInNewEnv(order, st, ss).Some?
    ensures var visited := VisitInNewEnv(order, st, ss).value;
      && |visited.1| > |st.varEnv| && SameNames(st.varEnv, visited.1[..|st.varEnv|]) && Inside(st.varEnv, visited.0.varEnv)
    decreases ss, 1
  {
    hide VisitList;
    var st1 := VisitList(order, PushEnv(st), ss).value;
    ListNames(order, PushEnv(st), ss);
    forall i | 0 <= i < |st.varEnv| ensures st1.varEnv[i].Keys == st.varEnv[i].Keys {
      assert PushEnv(st).varEnv[i] == st.varEnv[i];
    }
  }

  /** A lowered branch has the names around it, in the same scopes. */
  lemma {:induction false} BranchNames(order: Order, st: State, prefix: string, branch: BlockRef, place: nat, code: seq<Stmt>)
    requires Ready(st) && IsOrder(order) && VisitBranch(order, st, prefix, branch, place, code).Some?
    ensures var b := VisitBranch(order, st, prefix, branch, place, code).value;
      |b.env| > |st.varEnv| && SameNames(st.varEnv, b.env[..|st.varEnv|])
    decreases code, 2
  {
    hide VisitInNewEnv, AddBlock, AddOperands, SameNames;
    NewEnvNames(order, AddOperands(AddBlock(st, prefix), branch, place, [Label(LastRef(AddBlock(st, prefix)))]), code);
  }

  lemma MergedNames(order: Order, st: State, e1: Stack<Site>, e2: Stack<Site>)
    requires HasBlock(st) && IsOrder(order)
    ensures SameNames(e1, MergeEnvs(order, st, e1, e2).1)
  {
    hide MergeEnvs, Straight, Code, CutAll;
    var d := MergeEnvsSpec(order, st, e1, e2);
  }

  lemma {:induction false} IfNames(order: Order, st: State, s: Stmt)
    requires Ready(st) && IsOrder(order) && s.If? && VisitStmt(order, st, s).Some?
    ensures Inside(st.varEnv, VisitStmt(order, st, s).value.varEnv)
    decreases s, 1
  {
    hide VisitCondition, VisitBranches, Inside, SameNames;
    var st1 := st;
    SameRefl(st.varEnv);
    SameInside(st.varEnv, st.varEnv);
    if s.first.Some? {
      st1 := VisitStmt(order, st, s.first.value).value;
      StmtNames(order, st, s.first.value);
    }
    var st2 := VisitCondition(st1, s.cond).value;
    ConditionNames(st1, s.cond);
    SameInside(st1.varEnv, st2.varEnv);
    InsideTrans(st.varEnv, st1.varEnv, st2.varEnv);
    BranchesNames(order, st2, s);
    InsideTrans(st.varEnv, st2.varEnv, VisitBranches(order, st2, s).value.varEnv);
  }

  lemma {:induction false} BranchesNames(order: Order, st: State, s: Stmt)
    requires Ready(st) && IsOrder(order) && s.If? && LastBlock(st).instructions != [] && VisitBranches(order, st, s).Some?
    ensures Inside(st.varEnv, VisitBranches(order, st, s).value.varEnv)
    decreases s, 0
  {
    hide VisitBranch, MergeEnvs, AddBlock, InsertJump;
    var branch := LastRef(st);
    var place := |Instructions(st, branch)| - 1;
    var t := VisitBranch(order, st, "if_then", branch, place, s.onTrue).value;
    if s.onFalse.Else? {
      BranchNames(order, st, "if_then", branch, place, s.onTrue);
      var e := VisitBranch(order, t.st.(varEnv := st.varEnv), "if_alt", branch, place, s.onFalse.code).value;
      JoinNames(order, e.st, t, e);
      var env := JoinBranches(order, e.st, t, e).varEnv;
      hide JoinBranches;
      forall i | 0 <= i < |st.varEnv| ensures env[i].Keys == st.varEnv[i].Keys {
        assert t.env[..|st.varEnv|][i] == t.env[i];
      }
    }
  }

  lemma JoinNames(order: Order, st: State, t: Branch, e: Branch)
    requires Ready(st) && IsOrder(order) && t.env != []
    ensures SameNames(t.env, JoinBranches(order, st, t, e).varEnv)
  {
    hide MergeEnvs, AddBlock, InsertJump, SameNames;
    var st1 := AddBlock(st, "if_merge");
    var merge := LastRef(st1);
    MergedNames(order, InsertJump(InsertJump(st1, t.jump, t.block, merge), e.jump, e.block, merge), t.env, e.env);
  }

  lemma {:induction false} LoopNames(order: Order, st: State, s: Stmt)
    requires Ready(st) && IsOrder(order) && s.Loop? && VisitStmt(order, st, s).Some?
    ensures Inside(st.varEnv, VisitStmt(order, st, s).value.varEnv)
    decreases s, 1
  {
    hide VisitCondition, VisitExpr, VisitInNewEnv, EnterBlock, AddBlock, AddOperands, CloseBlock, Inside, SameNames;
    var st0 := VisitStmt(order, st, s.first.value).value;
    StmtNames(order, st, s.first.value);
    var st1 := EnterBlock(st0, "loop_cond");
    EnterNames(st0, "loop_cond");
    var st2 := VisitCondition(st1, s.test.value).value;
    ConditionNames(st1, s.test.value);
    SameInside(st1.varEnv, st2.varEnv);
    InsideTrans(st.varEnv, st1.varEnv, st2.varEnv);
    var st3 := AddBlock(st2, "loop_expr");
    var st4 := VisitStmt(order, st3, s.post.value).value;
    StmtNames(order, st3, s.post.value);
    InsideTrans(st.varEnv, st3.varEnv, st4.varEnv);
    var st5 := CloseBlock(st4, LastRef(st3), LastRef(st1), "loop_body");
    CloseNames(st4, LastRef(st3), LastRef(st1), "loop_body");
    var visited := VisitInNewEnv(order, st5, s.body).value;
    NewEnvNames(order, st5, s.body);
    InsideTrans(st.varEnv, st5.varEnv, visited.0.varEnv);
    CloseNames(visited.0, LastRef(st5), LastRef(st3), "loop_merge");
  }

  lemma CloseNames(st: State, r: BlockRef, target: BlockRef, prefix: string)
    requires Ready(st)
    ensures CloseBlock(st, r, target, prefix).varEnv == st.varEnv
  {
    hide InsertJump, AddBlock;
  }

  // ---- The names around an `If` -----------------------------------------------------------

  /** The merge block of `st` selects between two sites of a name, and the result is `v`. */
  ghost predicate Selects(st: State, a: Site, b: Site, v: VarId)
    requires HasBlock(st)
  {
    exists j: nat :: j < |LastBlock(st).instructions| && LastBlock(st).instructions[j].op == Phi
      && LastBlock(st).instructions[j].operands == [PhiArg(a.block, a.v), PhiArg(b.block, b.v)]
      && LastBlock(st).instructions[j].result == Some(v)
  }

  /** Behind the branches a name stands for the variable both agree on, or for a selection
      between the variables it has at the ends of the two. */
  ghost predicate Joined(st: State, e1: Stack<Site>, e2: Stack<Site>, i: nat, k: string) {
    && HasBlock(st) && i < |e1| && i < |e2| && i < |st.varEnv| && k in e1[i] && k in e2[i] && k in st.varEnv[i]
    && (if e1[i][k].v == e2[i][k].v then st.varEnv[i][k] == e1[i][k]
        else Selects(st, e1[i][k], e2[i][k], st.varEnv[i][k].v))
  }

  lemma MergeJoins(order: Order, st: State, e1: Stack<Site>, e2: Stack<Site>, i: nat, k: string)
    requires HasBlock(st) && IsOrder(order) && i < |e1| && i < |e2| && e1[i].Keys <= e2[i].Keys && k in e1[i]
    ensures var merged := MergeEnvs(order, st, e1, e2);
      Joined(merged.0.(varEnv := merged.1), e1, e2, i, k)
  {
    hide MergeEnvs, CutAll, Differing, Selected, Joined, Straight, Code, Selects;
    var d := MergeEnvsSpec(order, st, e1, e2);
    WholeLayer(order, st, e1, e2, i);
    var cuts, r := CutAll(order, st, e1, e2), MergeEnvs(order, st, e1, e2);
    if e1[i][k].v == e2[i][k].v {
      assert !Differs(e1, cuts, (i, k));
      assert r.1[i].Keys == e1[i].Keys;
      AgreedJoins(r.0.(varEnv := r.1), e1, e2, i, k);
    } else {
      assert Differs(e1, cuts, (i, k));
      var j: nat :| j < |d| && d[j] == (i, k);
      assert Selected(st, e1, cuts, r, d[j], j);
      SelectedJoins(st, e1, cuts, e2, r, i, k, j);
    }
  }

  lemma AgreedJoins(st: State, e1: Stack<Site>, e2: Stack<Site>, i: nat, k: string)
    requires HasBlock(st) && i < |e1| && i < |e2| && i < |st.varEnv| && k in e1[i] && k in e2[i] && k in st.varEnv[i]
    requires e1[i][k].v == e2[i][k].v && st.varEnv[i][k] == e1[i][k]
    ensures Joined(st, e1, e2, i, k)
  {}

  lemma SelectedJoins(st: State, e1: Stack<Site>, cuts: Stack<Site>, e2: Stack<Site>, r: (State, Stack<Site>), i: nat, k: string, j: nat)
    requires Selected(st, e1, cuts, r, (i, k), j) && i < |e2| && k in e2[i] && cuts[i][k] == e2[i][k]
    ensures HasBlock(r.0) && Joined(r.0.(varEnv := r.1), e1, e2, i, k)
  {
    var n := |LastBlock(st).instructions|;
    assert LastBlock(r.0).instructions[n + j] == Code(st, r.0)[j];
    assert LastBlock(r.0.(varEnv := r.1)) == LastBlock(r.0);
  }

  lemma JoinJoins(order: Order, st: State, t: Branch, e: Branch, i: nat, k: string)
    requires Ready(st) && IsOrder(order) && t.env != []
    requires i < |t.env| && i < |e.env| && t.env[i].Keys <= e.env[i].Keys && k in t.env[i]
    ensures Joined(JoinBranches(order, st, t, e), t.env, e.env, i, k)
  {
    hide MergeEnvs, AddBlock, InsertJump, Joined;
    var st1 := AddBlock(st, "if_merge");
    var merge := LastRef(st1);
    MergeJoins(order, InsertJump(InsertJump(st1, t.jump, t.block, merge), e.jump, e.block, merge), t.env, e.env, i, k);
  }

  /** An `If` with an alternative joins every name around it, in every scope. */
  lemma {:induction false} IfJoinsNames(order: Order, st: State, s: Stmt, i: nat, k: string)
    requires Ready(st) && IsOrder(order) && s.If? && s.onFalse.Else? && LastBlock(st).instructions != []
    requires VisitBranches(order, st, s).Some? && i < |st.varEnv| && k in st.varEnv[i]
    ensures FirstBranch(order, st, s).Some? && SecondBranch(order, st, s).Some?
    ensures Joined(VisitBranches(order, st, s).value, FirstBranch(order, st, s).value.env, SecondBranch(order, st, s).value.env, i, k)
  {
    hide VisitBranch, Joined, JoinBranches;
    var branch := LastRef(st);
    var place: nat := |Instructions(st, branch)| - 1;
    var t := VisitBranch(order, st, "if_then", branch, place, s.onTrue).value;
    BranchNames(order, st, "if_then", branch, place, s.onTrue);
    var st1 := t.st.(varEnv := st.varEnv);
    var e := VisitBranch(order, st1, "if_alt", branch, place, s.onFalse.code).value;
    BranchNames(order, st1, "if_alt", branch, place, s.onFalse.code);
    assert t.env[..|st.varEnv|][i] == t.env[i] && e.env[..|st.varEnv|][i] == e.env[i];
    JoinJoins(order, e.st, t, e, i, k);
  }
}
