/** Where the parts of short-circuit operators and loops end. The jumps behind them are put into the
    blocks they begin in, so a part reaches what comes next exactly when it stays in one block. */
module MirEnds {
  import opened Ast
  import opened Statements
  import opened Scopes
  import opened Mir
  import opened MirFactory
  import opened MirBuilder
  import opened MirShape
  import opened MirSsa
  import opened MirProgram
  import opened MirBlocks
  import opened MirTargets

  /** The last block does not end with a jump. */
  predicate Unfinished(st: State): (r: bool)
    ensures r ==> HasBlock(st)
  {
    HasBlock(st) && (LastBlock(st).instructions == [] || LastBlock(st).instructions[|LastBlock(st).instructions| - 1].op != Jump)
  }

  lemma SameUnfinished(a: State, b: State)
    requires Unfinished(a) && b.functions == a.functions
    ensures Unfinished(b)
  {}

  // ---- Factory operations -----------------------------------------------------------------

  lemma EmitEnds(st: State, op: Opcode, os: seq<Operand>, result: Option<VarId>)
    requires HasBlock(st) && op != Jump
    ensures Unfinished(Emit(st, op, os, result))
  {
    EmitFrame(st, op, os, result);
    hide Emit;
  }

  lemma ResultEnds(st: State, op: Opcode, os: seq<Operand>)
    requires HasBlock(st) && op != Jump
    ensures Unfinished(EmitResult(st, op, os))
  {
    EmitEnds(CreateVar(st), op, os, Some(st.varId));
    hide Emit, Unfinished;
  }

  lemma BlockEnds(st: State, prefix: string)
    requires HasFunction(st)
    ensures Unfinished(AddBlock(st, prefix))
  {}

  lemma InsertEnds(st: State, id: nat, r: BlockRef, target: BlockRef)
    requires Unfinished(st) && r != LastRef(st)
    ensures var st' := InsertJump(st, id, r, target); Unfinished(st') && LastRef(st') == LastRef(st)
  {
    InsertKeepsBlock(st, id, r, target);
    if IsBlock(st, r) { InsertedJump(st, id, r, target); }
  }

  lemma OperandsEnd(st: State, r: BlockRef, i: nat, os: seq<Operand>)
    requires Unfinished(st)
    ensures Unfinished(AddOperands(st, r, i, os))
  {}

  lemma UpdateEnds(st: State, x: string, v: VarId)
    requires HasBlock(st) && AddUpdate(st, x, v).Some?
    ensures Unfinished(AddUpdate(st, x, v).value)
  {
    ResultEnds(st, Opcode.Update, [Local(v)]);
    hide EmitResult;
  }

  lemma RefEnds(st: State, x: string)
    requires HasBlock(st) && AddVariableRef(st, x).Some?
    ensures Unfinished(AddVariableRef(st, x).value)
  {
    if x in st.globals { ResultEnds(st, Load, [Global(x)]); } else { UpdateEnds(st, x, Find(st.varEnv, x).value.v); }
    hide EmitResult, AddUpdate, Unfinished;
  }

  lemma BindEnds(st: State, x: string, v: VarId)
    requires HasBlock(st) && st.varEnv != [] && VarBind(st, x, v).Some?
    ensures Unfinished(VarBind(st, x, v).value)
  {
    ResultEnds(st, Bind, [Local(v)]);
    hide EmitResult;
  }

  lemma {:induction false} LayerEnds(st: State, first: Layer<Site>, second: Layer<Site>, keys: seq<string>)
    requires Unfinished(st) && forall k <- keys :: k in first
    ensures Unfinished(MergeLayer(st, first, second, keys).0)
    decreases keys
  {
    hide Unfinished, EmitResult;
    if keys != [] && keys[0] in second {
      var a, b := first[keys[0]], second[keys[0]];
      if a.v == b.v {
        LayerEnds(st, first, second, keys[1..]);
      } else {
        var os := [PhiArg(a.block, a.v), PhiArg(b.block, b.v)];
        ResultEnds(st, Phi, os);
        LayerEnds(EmitResult(st, Phi, os), first[keys[0] := a.(v := st.varId)], second, keys[1..]);
      }
    }
  }

  lemma {:induction false} MergeEnds(order: Order, st: State, e1: Stack<Site>, e2: Stack<Site>)
    requires Unfinished(st) && IsOrder(order)
    ensures Unfinished(MergeEnvs(order, st, e1, e2).0)
    decreases e1
  {
    hide Unfinished, MergeLayer;
    if e1 != [] && e2 != [] {
      var keys := order(st, |e1|, e1[0].Keys);
      assert Enumerates(keys, e1[0].Keys);
      LayerEnds(st, e1[0], e2[0], keys);
      MergeEnds(order, MergeLayer(st, e1[0], e2[0], keys).0, e1[1..], e2[1..]);
    }
  }

  // ---- Expressions ------------------------------------------------------------------------

  /** Lowering an expression never leaves a jump at the end. */
  lemma {:induction false} ExprEnds(st: State, e: Expr)
    requires Ready(st) && Unfinished(st) && VisitExpr(st, e).Some?
    ensures Unfinished(VisitExpr(st, e).value)
    decreases e, 1
  {
    hide AddVariableRef, EmitResult, RequireLastVar, VisitLogical, Unfinished, AddCall, VisitLiteral;
    match e
    case Literal(lit) => LiteralEnds(st, lit);
    case Identifier(x) => RefEnds(st, x);
    case FunctionCall(f, args) => CallEnds(VisitArgs(st, args).value.0, f, VisitArgs(st, args).value.1);
    case Prefix(op, x) =>
      if op == Positive || op == Negative {
        var st1 := VisitExpr(st, x).value;
        ExprEnds(st, x);
        ResultEnds(st1, ISub, [IntConst(0), Local(RequireLastVar(st1).value)]);
      }
    case Infix(op, l, r) =>
      if op == And || op == Or {
        LogicalUnfinished(st, op, l, r);
      } else {
        var st2 := VisitExpr(VisitExpr(st, l).value, r).value;
        ResultEnds(st2, InfixOpcode(op), [Local(RequireLastVar(VisitExpr(st, l).value).value), Local(RequireLastVar(st2).value)]);
      }
    case _ =>
  }

  lemma LiteralEnds(st: State, lit: Ast.Literal)
    requires Ready(st) && Unfinished(st) && VisitLiteral(st, lit).Some?
    ensures Unfinished(VisitLiteral(st, lit).value)
  {}

  lemma CallEnds(st: State, f: string, vars: seq<VarId>)
    requires HasBlock(st) && AddCall(st, f, vars).Some?
    ensures Unfinished(AddCall(st, f, vars).value)
  {
    EmitEnds(st, CallOp, CallOperands(f, vars), None);
    hide Emit;
  }

  lemma {:induction false} LogicalUnfinished(st: State, op: InfixOp, l: Expr, r: Expr)
    requires Ready(st) && VisitLogical(st, op, l, r).Some?
    ensures Unfinished(VisitLogical(st, op, l, r).value)
  {
    LogicalParts(st, op, l, r);
    LogicalLater(st, op, l, r);
    hide RequireLastVar, VisitExpr, VisitLeftTerm, FinishLogical, AddBlock, VisitLogical, LogicalName, Unfinished;
    var t := VisitLeftTerm(st, op, l).value;
    var st1 := AddBlock(t.st, LogicalName(op) + "_right_term");
    var st2 := VisitExpr(st1, r).value;
    var st3 := AddBlock(ReserveInstr(st2), LogicalName(op) + "_merge");
    FinishEnds(st3, op, t, LastRef(st1), RequireLastVar(st2).value, st2.instrId);
  }

  /** The merge block comes behind the blocks both terms begin in. */
  lemma LogicalLater(st: State, op: InfixOp, l: Expr, r: Expr)
    requires Ready(st) && VisitLogical(st, op, l, r).Some?
    ensures VisitLeftTerm(st, op, l).Some?
    ensures VisitExpr(AddBlock(VisitLeftTerm(st, op, l).value.st, LogicalName(op) + "_right_term"), r).Some?
    ensures var t := VisitLeftTerm(st, op, l).value; var st1 := AddBlock(t.st, LogicalName(op) + "_right_term");
      var st2 := VisitExpr(st1, r).value; var st3 := AddBlock(ReserveInstr(st2), LogicalName(op) + "_merge");
      t.left.block < LastRef(st1).block <= LastRef(st2).block < LastRef(st3).block
  {
    hide *;
    LogicalParts(st, op, l, r);
    LeftBegins(st, op, l);
    RightLater(VisitLeftTerm(st, op, l).value.st, LogicalName(op) + "_right_term", LogicalName(op) + "_merge", r);
  }

  lemma RightLater(st: State, right: string, merge: string, r: Expr)
    requires Ready(st) && VisitExpr(AddBlock(st, right), r).Some?
    ensures var st1 := AddBlock(st, right); var st2 := VisitExpr(st1, r).value; var st3 := AddBlock(ReserveInstr(st2), merge);
      LastRef(st).block < LastRef(st1).block <= LastRef(st2).block < LastRef(st3).block
  {
    hide VisitExpr, AddBlock, OneBlockExpr;
    var st1 := AddBlock(st, right);
    BlockMoves(st, right);
    var st2 := VisitExpr(st1, r).value;
    ExprMoves(st1, r);
    SameMoves(st2, ReserveInstr(st2));
    BlockMoves(ReserveInstr(st2), merge);
  }

  lemma LeftBegins(st: State, op: InfixOp, l: Expr)
    requires Ready(st) && VisitLeftTerm(st, op, l).Some?
    ensures Ready(VisitLeftTerm(st, op, l).value.st)
    ensures var t := VisitLeftTerm(st, op, l).value; t.left.block <= LastRef(t.st).block && t.branch == LastRef(t.st)
  {
    hide RequireLastVar, VisitExpr, EnterBlock, EmitResult, OneBlockExpr;
    var st1 := EnterBlock(st, LogicalName(op) + "_left_term");
    var st2 := VisitExpr(st1, l).value;
    ExprMoves(st1, l);
    ResultStays(st2, CondJump, []);
    SameMoves(EmitResult(st2, CondJump, []), ReserveInstr(EmitResult(st2, CondJump, [])));
  }

  lemma FinishEnds(st: State, op: InfixOp, t: LeftTerm, right: BlockRef, rv: VarId, rightJump: nat)
    requires Ready(st) && t.left != LastRef(st) && right != LastRef(st)
    ensures Unfinished(FinishLogical(st, op, t, right, rv, rightJump))
  {
    hide AddOperands, InsertJump, EmitResult, Unfinished;
    var merge := LastRef(st);
    var labels := if op == And then [Local(t.leftVar), Label(right), Label(merge)] else [Local(t.leftVar), Label(merge), Label(right)];
    var st1 := AddOperands(st, t.branch, t.place, labels);
    OperandsStay(st, t.branch, t.place, labels);
    var st2 := EmitResult(st1, ConstBool, [BoolConst(op == Or)]);
    ResultStays(st1, ConstBool, [BoolConst(op == Or)]);
    var choice := if op == And then [Local(t.branchVar), Local(rv), Local(st1.varId)] else [Local(t.branchVar), Local(st1.varId), Local(rv)];
    var st3 := EmitResult(st2, Phi, choice);
    ResultStays(st2, Phi, choice);
    ResultEnds(st2, Phi, choice);
    InsertEnds(st3, t.leftJump, t.left, merge);
    InsertEnds(InsertJump(st3, t.leftJump, t.left, merge), rightJump, right, merge);
  }

  // ---- Statements -------------------------------------------------------------------------

  /** Nor does lowering a statement. */
  lemma {:induction false} StmtEnds(order: Order, st: State, s: Stmt)
    requires Ready(st) && IsOrder(order) && Unfinished(st) && VisitStmt(order, st, s).Some?
    ensures Unfinished(VisitStmt(order, st, s).value)
    decreases s, 2
  {
    hide VisitExpr, VisitBinding, VisitAssignment, VisitStep, VisitCondition, VisitBranches, VisitLoop, RequireLastVar, Emit, Unfinished;
    match s
    case Let(x, init) => BindingEnds(st, x, init);
    case Var(x, init) => BindingEnds(st, x, init);
    case Assign(op, target, value) => AssignmentEnds(st, op, target, value);
    case Increment(x) => StepEndsIn(st, IAdd, x);
    case Decrement(x) => StepEndsIn(st, ISub, x);
    case ExprStmt(e) => ExprEnds(st, e);
    case Return(result) =>
      if result.None? { EmitEnds(st, ReturnOp, [], None); }
      else { EmitEnds(VisitExpr(st, result.value).value, ReturnOp, [Local(RequireLastVar(VisitExpr(st, result.value).value).value)], None); }
    case If(_, _, _, _) => IfEnds(order, st, s);
    case Loop(_, _, _, _) => LoopEnds(order, st, s);
    case Break => EmitEnds(st, BreakOp, [], None);
    case Continue => EmitEnds(st, ContinueOp, [], None);
    case Defer(_) =>
  }

  lemma BindingEnds(st: State, x: string, init: Option<Expr>)
    requires Ready(st) && VisitBinding(st, x, init).Some?
    ensures Unfinished(VisitBinding(st, x, init).value)
  {
    hide VisitExpr, RequireLastVar, VarBind, Unfinished;
    var st1 := VisitExpr(st, init.value).value;
    BindEnds(st1, x, RequireLastVar(st1).value);
  }

  lemma StepEndsIn(st: State, op: Opcode, x: Expr)
    requires Ready(st) && op != Jump && VisitStep(st, op, x).Some?
    ensures Unfinished(VisitStep(st, op, x).value)
  {
    hide VisitExpr, RequireLastVar, Emit, Unfinished;
    var st1 := VisitExpr(st, x).value;
    EmitEnds(st1, op, [Local(RequireLastVar(st1).value), IntConst(1)], None);
  }

  lemma AssignmentEnds(st: State, op: AssignOp, target: Expr, value: Expr)
    requires Ready(st) && VisitAssignment(st, op, target, value).Some?
    ensures Unfinished(VisitAssignment(st, op, target, value).value)
  {
    hide VisitExpr, RequireLastVar, AddVariableRef, AddUpdate, Emit, Unfinished;
    var st1 := VisitExpr(CreateVar(st), value).value;
    var rv := RequireLastVar(st1).value;
    if op == Regular {
      UpdateEnds(st1, target.id, rv);
    } else {
      var st2 := AddVariableRef(st1, target.id).value;
      var os := [Local(RequireLastVar(st2).value), Local(rv)];
      EmitEnds(st2, AssignOpcode(op), os, Some(st.varId));
      if op != ModAssign { UpdateEnds(Emit(st2, AssignOpcode(op), os, Some(st.varId)), target.id, st.varId); }
    }
  }

  lemma {:induction false} ListEnds(order: Order, st: State, ss: seq<Stmt>)
    requires Ready(st) && IsOrder(order) && Unfinished(st) && VisitList(order, st, ss).Some?
    ensures Unfinished(VisitList(order, st, ss).value)
    decreases ss, 0
  {
    hide VisitStmt, Unfinished;
    if ss != [] {
      StmtEnds(order, st, ss[0]);
      ListEnds(order, VisitStmt(order, st, ss[0]).value, ss[1..]);
    }
  }

  lemma {:induction false} NewEnvEnds(order: Order, st: State, ss: seq<Stmt>)
    requires Ready(st) && IsOrder(order) && Unfinished(st) && VisitInNewEnv(order, st, ss).Some?
    ensures Unfinished(VisitInNewEnv(order, st, ss).value.0)
    decreases ss, 1
  {
    hide VisitList, Unfinished;
    var st1 := VisitList(order, PushEnv(st), ss).value;
    SameUnfinished(st, PushEnv(st));
    ListEnds(order, PushEnv(st), ss);
    SameUnfinished(st1, PopEnv(st1).value);
  }

  /** What comes behind the branches begins in a block of its own, and merging emits no jumps. */
  lemma IfEnds(order: Order, st: State, s: Stmt)
    requires Ready(st) && IsOrder(order) && s.If? && VisitStmt(order, st, s).Some?
    ensures Unfinished(VisitStmt(order, st, s).value)
  {
    hide VisitCondition, VisitBranches, Unfinished;
    var st1 := BeforeTest(order, st, s).value;
    BranchesEnd(order, VisitCondition(st1, s.cond).value, s);
  }

  lemma BranchesEnd(order: Order, st: State, s: Stmt)
    requires Ready(st) && IsOrder(order) && s.If? && LastBlock(st).instructions != [] && VisitBranches(order, st, s).Some?
    ensures Unfinished(VisitBranches(order, st, s).value)
  {
    hide VisitBranch, MergeEnvs, AddBlock, InsertJump, JoinBranches, Unfinished, OneBlock;
    var branch := LastRef(st);
    var place := |Instructions(st, branch)| - 1;
    var t := VisitBranch(order, st, "if_then", branch, place, s.onTrue).value;
    NotBefore(order, st, "if_then", branch, place, s.onTrue);
    var st1 := t.st.(varEnv := st.varEnv);
    SameMoves(t.st, st1);
    if s.onFalse.NoElse? {
      var st2 := AddBlock(st1, "if_merge");
      BlockMoves(st1, "if_merge");
      BlockEnds(st1, "if_merge");
      InsertEnds(st2, t.jump, t.block, LastRef(st2));
      var st3 := InsertJump(st2, t.jump, t.block, LastRef(st2));
      MergeEnds(order, st3, st.varEnv, t.env);
      SameUnfinished(MergeEnvs(order, st3, st.varEnv, t.env).0, VisitBranches(order, st, s).value);
    } else {
      var e := VisitBranch(order, st1, "if_alt", branch, place, s.onFalse.code).value;
      NotBefore(order, st1, "if_alt", branch, place, s.onFalse.code);
      BranchMoves(order, st1, "if_alt", branch, place, s.onFalse.code);
      JoinEnds(order, e.st, t, e);
    }
  }

  lemma JoinEnds(order: Order, st: State, t: Branch, e: Branch)
    requires Ready(st) && IsOrder(order) && t.env != [] && t.block.block <= LastRef(st).block && e.block.block <= LastRef(st).block
    ensures Unfinished(JoinBranches(order, st, t, e))
  {
    hide MergeEnvs, AddBlock, InsertJump, Unfinished;
    var st1 := AddBlock(st, "if_merge");
    BlockMoves(st, "if_merge");
    BlockEnds(st, "if_merge");
    var merge := LastRef(st1);
    InsertEnds(st1, t.jump, t.block, merge);
    var st2 := InsertJump(st1, t.jump, t.block, merge);
    InsertEnds(st2, e.jump, e.block, merge);
    var st3 := InsertJump(st2, e.jump, e.block, merge);
    MergeEnds(order, st3, t.env, e.env);
    SameUnfinished(MergeEnvs(order, st3, t.env, e.env).0, JoinBranches(order, st, t, e));
  }

  lemma CloseEnds(st: State, r: BlockRef, target: BlockRef, prefix: string)
    requires Ready(st)
    ensures Unfinished(CloseBlock(st, r, target, prefix))
  {
    BlockEnds(InsertJump(ReserveInstr(st), st.instrId, r, target), prefix);
    hide InsertJump, AddBlock;
  }

  lemma LoopEnds(order: Order, st: State, s: Stmt)
    requires Ready(st) && IsOrder(order) && s.Loop? && VisitStmt(order, st, s).Some?
    ensures Unfinished(VisitStmt(order, st, s).value)
  {
    hide VisitLoop, Unfinished;
    VisitLoopEnds(order, VisitStmt(order, st, s.first.value).value, s);
  }

  lemma VisitLoopEnds(order: Order, st: State, s: Stmt)
    requires Ready(st) && IsOrder(order) && s.Loop? && s.test.Some? && s.post.Some? && VisitLoop(order, st, s).Some?
    ensures Unfinished(VisitLoop(order, st, s).value)
  {
    hide VisitCondition, EnterBlock, AddBlock, CloseBlock, VisitInNewEnv, AddOperands, VisitStmt, Unfinished;
    var st1 := EnterBlock(st, "loop_cond");
    var st2 := VisitCondition(st1, s.test.value).value;
    var st3 := AddBlock(st2, "loop_expr");
    var st5 := CloseBlock(VisitStmt(order, st3, s.post.value).value, LastRef(st3), LastRef(st1), "loop_body");
    var visited := VisitInNewEnv(order, st5, s.body).value.0;
    var st6 := CloseBlock(visited, LastRef(st5), LastRef(st3), "loop_merge");
    CloseEnds(visited, LastRef(st5), LastRef(st3), "loop_merge");
    OperandsEnd(st6, LastRef(st2), |Instructions(st2, LastRef(st2))| - 1, [Label(LastRef(st5)), Label(LastRef(st6))]);
  }

  // ---- Where the parts end ----------------------------------------------------------------

  lemma NoJump(a: State, b: State, target: BlockRef)
    requires Unfinished(a) && IsBlock(b, LastRef(a)) && Instructions(b, LastRef(a)) == Instructions(a, LastRef(a))
    ensures !JumpsTo(b, LastRef(a), target)
  {}

  /** The block the right term ends in goes on to the merge block exactly when no short-circuit
      operator is visited in it. */
  lemma RightReachesMerge(st: State, ix: Index, op: InfixOp, l: Expr, r: Expr)
    requires Inv(st, ix) && Ready(st) && (op == And || op == Or) && VisitLogical(st, op, l, r).Some?
    ensures VisitLeftTerm(st, op, l).Some?
    ensures VisitExpr(AddBlock(VisitLeftTerm(st, op, l).value.st, LogicalName(op) + "_right_term"), r).Some?
    ensures var st2 := VisitExpr(AddBlock(VisitLeftTerm(st, op, l).value.st, LogicalName(op) + "_right_term"), r).value;
      var st' := VisitLogical(st, op, l, r).value;
      JumpsTo(st', LastRef(st2), LastRef(st')) <==> OneBlockExpr(r)
  {
    LogicalParts(st, op, l, r);
    hide RequireLastVar, VisitExpr, VisitLeftTerm, FinishLogical, AddBlock, VisitLogical, LogicalName, OneBlockExpr, JumpsTo, Unfinished, ShortCircuits, Inv;
    var t := VisitLeftTerm(st, op, l).value;
    var st1 := AddBlock(t.st, LogicalName(op) + "_right_term");
    var st2 := VisitExpr(st1, r).value;
    ExprMoves(st1, r);
    if OneBlockExpr(r) {
      LogicalFlow(st, ix, op, l, r);
      RightJumps(VisitLogical(st, op, l, r).value, op, t, LastRef(st1), RequireLastVar(st2).value);
    } else {
      RightOpen(st, ix, op, l, r);
    }
  }

  lemma RightJumps(st: State, op: InfixOp, t: LeftTerm, right: BlockRef, rv: VarId)
    requires HasBlock(st) && ShortCircuits(st, op, t.left, right, LastRef(st), t.branch, t.place, t.leftVar, t.branchVar, rv)
    ensures JumpsTo(st, right, LastRef(st))
  {}

  /** A right term that ends elsewhere than it begins is left alone. */
  lemma RightOpen(st: State, ix: Index, op: InfixOp, l: Expr, r: Expr)
    requires Inv(st, ix) && Ready(st) && (op == And || op == Or) && VisitLogical(st, op, l, r).Some? && !OneBlockExpr(r)
    requires VisitLeftTerm(st, op, l).Some?
    requires VisitExpr(AddBlock(VisitLeftTerm(st, op, l).value.st, LogicalName(op) + "_right_term"), r).Some?
    ensures var st2 := VisitExpr(AddBlock(VisitLeftTerm(st, op, l).value.st, LogicalName(op) + "_right_term"), r).value;
      var st' := VisitLogical(st, op, l, r).value;
      !JumpsTo(st', LastRef(st2), LastRef(st'))
  {
    LogicalParts(st, op, l, r);
    LogicalLater(st, op, l, r);
    hide RequireLastVar, VisitExpr, VisitLeftTerm, FinishLogical, AddBlock, VisitLogical, LogicalName, OneBlockExpr, JumpsTo, Unfinished, ShortCircuits, Inv, Step, LeftOk, Branches;
    var t := VisitLeftTerm(st, op, l).value;
    var st1 := AddBlock(t.st, LogicalName(op) + "_right_term");
    var st2 := VisitExpr(st1, r).value;
    var st3 := AddBlock(ReserveInstr(st2), LogicalName(op) + "_merge");
    var q := LastRef(st2);
    LeftBegins(st, op, l);
    BlockMoves(t.st, LogicalName(op) + "_right_term");
    ExprMoves(st1, r);
    BlockEnds(t.st, LogicalName(op) + "_right_term");
    ExprEnds(st1, r);
    LastIsBlock(st2);
    AddBlockPlaces(ReserveInstr(st2), LogicalName(op) + "_merge");
    FinishFrame(st, ix, op, l, r, q);
    NoJump(st2, VisitLogical(st, op, l, r).value, LastRef(VisitLogical(st, op, l, r).value));
  }

  /** Other blocks are as they were when the merge block was begun. */
  lemma FinishFrame(st: State, ix: Index, op: InfixOp, l: Expr, r: Expr, q: BlockRef)
    requires Inv(st, ix) && Ready(st) && (op == And || op == Or) && VisitLogical(st, op, l, r).Some?
    requires VisitLeftTerm(st, op, l).Some?
    requires VisitExpr(AddBlock(VisitLeftTerm(st, op, l).value.st, LogicalName(op) + "_right_term"), r).Some?
    requires var t := VisitLeftTerm(st, op, l).value; var st1 := AddBlock(t.st, LogicalName(op) + "_right_term");
      var st3 := AddBlock(ReserveInstr(VisitExpr(st1, r).value), LogicalName(op) + "_merge");
      IsBlock(st3, q) && q !in {t.branch, t.left, LastRef(st1), LastRef(st3)}
    ensures var st3 := AddBlock(ReserveInstr(VisitExpr(AddBlock(VisitLeftTerm(st, op, l).value.st, LogicalName(op) + "_right_term"), r).value), LogicalName(op) + "_merge");
      var st' := VisitLogical(st, op, l, r).value;
      LastRef(st') == LastRef(st3) && IsBlock(st', q) && Instructions(st', q) == Instructions(st3, q)
  {
    LogicalParts(st, op, l, r);
    hide Inv, AddBlock, FinishLogical, VisitLeftTerm, VisitExpr, RequireLastVar, JumpsTo, ShortCircuits, LeftOk, Step, Branches, VisitLogical, LogicalName;
    var t := VisitLeftTerm(st, op, l).value;
    var ixT := LeftTermKeeps(st, ix, op, l);
    LeftIsBlock(st, t, ixT);
    LeftTermFlow(st, ix, op, l);
    var st1 := AddBlock(t.st, LogicalName(op) + "_right_term");
    var st2 := VisitExpr(st1, r).value;
    var ix3 := RightTermFlow(op, r, t, ixT);
    var st3 := AddBlock(ReserveInstr(st2), LogicalName(op) + "_merge");
    KeptBranch(t.st, ixT, st3, ix3, t.branch, t.place, [], t.branchVar);
    KeptBlocks(t.st, ixT, st3, ix3);
    FinishFlow(st3, op, t, LastRef(st1), RequireLastVar(st2).value, st2.instrId);
  }

  // ---- Loops ------------------------------------------------------------------------------

  /** The states of a lowered loop: behind the test, behind the step, in front of and behind the
      body. */
  datatype LoopStates = LoopStates(cond: BlockRef, tested: State, stepped: State, entered: State, left: State)

  function LoopParts(order: Order, st: State, s: Stmt): (r: Option<LoopStates>)
    requires Ready(st) && IsOrder(order) && s.Loop? && s.test.Some? && s.post.Some?
    ensures r.Some? ==> Ready(r.value.tested) && Ready(r.value.stepped) && Ready(r.value.entered) && Ready(r.value.left)
  {
    var st1 := EnterBlock(st, "loop_cond");
    var st2 :- VisitCondition(st1, s.test.value);
    var st3 := AddBlock(st2, "loop_expr");
    var st4 :- VisitStmt(order, st3, s.post.value);
    var st5 := CloseBlock(st4, LastRef(st3), LastRef(st1), "loop_body");
    var visited :- VisitInNewEnv(order, st5, s.body);
    Some(LoopStates(LastRef(st1), st2, st4, st5, visited.0))
  }

  /** The block its step begins in. */
  function StepBlock(p: LoopStates): BlockRef
    requires HasBlock(p.tested)
  {
    LastRef(AddBlock(p.tested, "loop_expr"))
  }

  lemma LoopFinish(order: Order, st: State, s: Stmt)
    requires Ready(st) && IsOrder(order) && s.Loop? && s.test.Some? && s.post.Some?
    ensures VisitLoop(order, st, s).Some? <==> LoopParts(order, st, s).Some?
    ensures VisitLoop(order, st, s).Some? ==>
      var p := LoopParts(order, st, s).value; var st6 := CloseBlock(p.left, LastRef(p.entered), StepBlock(p), "loop_merge");
      |Instructions(p.tested, LastRef(p.tested))| > 0 &&
      VisitLoop(order, st, s).value ==
        AddOperands(st6, LastRef(p.tested), |Instructions(p.tested, LastRef(p.tested))| - 1, [Label(LastRef(p.entered)), Label(LastRef(st6))])
  {
    hide VisitCondition, EnterBlock, AddBlock, CloseBlock, VisitInNewEnv, AddOperands, VisitStmt;
  }

  /** The order of the blocks of a loop. */
  lemma LoopOrder(order: Order, st: State, s: Stmt)
    requires Ready(st) && IsOrder(order) && s.Loop? && s.test.Some? && s.post.Some? && LoopParts(order, st, s).Some?
    ensures var p := LoopParts(order, st, s).value;
      && p.cond.block <= LastRef(p.tested).block < StepBlock(p).block <= LastRef(p.stepped).block < LastRef(p.entered).block <= LastRef(p.left).block
      && (LastRef(p.stepped) == StepBlock(p) <==> OneBlockStmt(s.post.value))
      && (LastRef(p.left) == LastRef(p.entered) <==> OneBlock(s.body))
      && Unfinished(p.stepped) && Unfinished(p.left)
  {
    hide VisitCondition, EnterBlock, AddBlock, CloseBlock, VisitInNewEnv, AddOperands, VisitStmt, OneBlock, OneBlockStmt, OneBlockExpr, Unfinished;
    var st1 := EnterBlock(st, "loop_cond");
    var st2 := VisitCondition(st1, s.test.value).value;
    ConditionMoves(st1, s.test.value);
    var st3 := AddBlock(st2, "loop_expr");
    BlockMoves(st2, "loop_expr");
    BlockEnds(st2, "loop_expr");
    var st4 := VisitStmt(order, st3, s.post.value).value;
    StmtMoves(order, st3, s.post.value);
    StmtEnds(order, st3, s.post.value);
    var st5 := CloseBlock(st4, LastRef(st3), LastRef(st1), "loop_body");
    CloseMoves(st4, LastRef(st3), LastRef(st1), "loop_body");
    CloseEnds(st4, LastRef(st3), LastRef(st1), "loop_body");
    NewEnvMoves(order, st5, s.body);
    NewEnvEnds(order, st5, s.body);
  }

  lemma EnteredKept(order: Order, st: State, ix: Index, s: Stmt) returns (ix': Index)
    requires Inv(st, ix) && Ready(st) && IsOrder(order) && s.Loop? && s.test.Some? && s.post.Some? && LoopParts(order, st, s).Some?
    ensures var p := LoopParts(order, st, s).value; Inv(p.entered, ix') && IsBlock(p.stepped, StepBlock(p))
  {
    hide Inv, Step, VisitCondition, EnterBlock, AddBlock, CloseBlock, VisitInNewEnv, AddOperands, VisitStmt, IsBlock, Waits;
    var st1 := EnterBlock(st, "loop_cond");
    var ix1 := EnterBlockKeeps(st, ix, "loop_cond");
    var st2 := VisitCondition(st1, s.test.value).value;
    var ix2 := ConditionKeeps(st1, ix1, s.test.value);
    KeptBlocks(st1, ix1, st2, ix2);
    KeptRefl(st2, ix2);
    var st3 := AddBlock(st2, "loop_expr");
    NewBlockKept(st2, ix2, st2, ix2, "loop_expr");
    KeptBlocks(st2, ix2, st3, ix2);
    var st4 := VisitStmt(order, st3, s.post.value).value;
    var ix4 := StmtKeeps(order, st3, ix2, s.post.value);
    KeptBlocks(st3, ix2, st4, ix4);
    KeptTrans(st2, ix2, st3, ix2, st4, ix4);
    ConditionMoves(st1, s.test.value);
    hide OneBlockExpr;
    ix' := CloseKept(st2, ix2, st4, ix4, LastRef(st3), LastRef(st1), "loop_body");
  }

  lemma OperandsFrame(st: State, r: BlockRef, i: nat, os: seq<Operand>, q: BlockRef)
    requires IsBlock(st, q) && q != r
    ensures IsBlock(AddOperands(st, r, i, os), q) && Instructions(AddOperands(st, r, i, os), q) == Instructions(st, q)
  {
    if IsPlace(st, r, i) {
      var instr := Get(st, r, i);
      SetPlaces(st, r, Instructions(st, r)[i := instr.(operands := instr.operands + os)]);
    }
  }

  /** Behind the body only the blocks body and test are in change. */
  lemma LeftFrame(order: Order, st: State, ix: Index, s: Stmt, q: BlockRef)
    requires Inv(st, ix) && Ready(st) && IsOrder(order) && s.Loop? && s.test.Some? && s.post.Some? && VisitLoop(order, st, s).Some?
    requires LoopParts(order, st, s).Some?
    requires var p := LoopParts(order, st, s).value; IsBlock(p.left, q) && q != LastRef(p.entered) && q != LastRef(p.tested)
    ensures var p := LoopParts(order, st, s).value; var st' := VisitLoop(order, st, s).value;
      IsBlock(st', q) && Instructions(st', q) == Instructions(p.left, q)
  {
    LoopFinish(order, st, s);
    var ix5 := EnteredKept(order, st, ix, s);
    var p := LoopParts(order, st, s).value;
    LastIsBlock(p.entered);
    PartsBody(order, st, s);
    hide Inv, Step, LoopParts, VisitLoop, CloseBlock, AddOperands, IsBlock, VisitInNewEnv;
    var ix6 := NewEnvKeeps(order, p.entered, ix5, s.body);
    KeptBlocks(p.entered, ix5, p.left, ix6);
    CloseFlow(p.left, LastRef(p.entered), StepBlock(p), "loop_merge");
    var st6 := CloseBlock(p.left, LastRef(p.entered), StepBlock(p), "loop_merge");
    OperandsFrame(st6, LastRef(p.tested), |Instructions(p.tested, LastRef(p.tested))| - 1, [Label(LastRef(p.entered)), Label(LastRef(st6))], q);
  }

  lemma PartsBody(order: Order, st: State, s: Stmt)
    requires Ready(st) && IsOrder(order) && s.Loop? && s.test.Some? && s.post.Some? && LoopParts(order, st, s).Some?
    ensures var p := LoopParts(order, st, s).value;
      && VisitInNewEnv(order, p.entered, s.body).Some? && VisitInNewEnv(order, p.entered, s.body).value.0 == p.left
      && p.entered == CloseBlock(p.stepped, StepBlock(p), p.cond, "loop_body")
  {
    hide VisitCondition, EnterBlock, AddBlock, CloseBlock, VisitInNewEnv, AddOperands, VisitStmt;
  }

  /** Behind the step only the block it begins in, and the one of the test. */
  lemma SteppedFrame(order: Order, st: State, ix: Index, s: Stmt, q: BlockRef)
    requires Inv(st, ix) && Ready(st) && IsOrder(order) && s.Loop? && s.test.Some? && s.post.Some? && VisitLoop(order, st, s).Some?
    requires LoopParts(order, st, s).Some?
    requires var p := LoopParts(order, st, s).value;
      IsBlock(p.stepped, q) && q != StepBlock(p) && q != LastRef(p.tested) && q != LastRef(p.entered)
    ensures var p := LoopParts(order, st, s).value; var st' := VisitLoop(order, st, s).value;
      IsBlock(st', q) && Instructions(st', q) == Instructions(p.stepped, q)
  {
    var ix5 := EnteredKept(order, st, ix, s);
    var p := LoopParts(order, st, s).value;
    PartsBody(order, st, s);
    hide Inv, Step, LoopParts, VisitLoop, CloseBlock, AddOperands, IsBlock, VisitInNewEnv, JumpsTo;
    CloseFlow(p.stepped, StepBlock(p), p.cond, "loop_body");
    var ix6 := NewEnvKeeps(order, p.entered, ix5, s.body);
    KeptInstructions(p.entered, ix5, p.left, ix6, q);
    LeftFrame(order, st, ix, s, q);
  }

  /** The block the body ends in goes on to the step exactly when the body has no control flow and
      no short-circuit operator; and the block the step ends in goes on to the condition exactly
      when the step has none. */
  lemma LoopReachesStep(order: Order, st: State, ix: Index, s: Stmt)
    requires Inv(st, ix) && Ready(st) && IsOrder(order) && s.Loop? && s.test.Some? && s.post.Some? && VisitLoop(order, st, s).Some?
    ensures LoopParts(order, st, s).Some?
    ensures var p := LoopParts(order, st, s).value; var st' := VisitLoop(order, st, s).value;
      && (JumpsTo(st', LastRef(p.left), StepBlock(p)) <==> OneBlock(s.body))
      && (JumpsTo(st', LastRef(p.stepped), p.cond) <==> OneBlockStmt(s.post.value))
  {
    LoopFinish(order, st, s);
    LoopOrder(order, st, s);
    var p, st' := LoopParts(order, st, s).value, VisitLoop(order, st, s).value;
    LoopJumps(order, st, ix, s);
    hide Inv, LoopParts, VisitLoop, OneBlock, OneBlockStmt, JumpsTo, Unfinished, IsBlock, StepBlock;
    LastIsBlock(p.left);
    LastIsBlock(p.stepped);
    if !OneBlock(s.body) {
      LeftFrame(order, st, ix, s, LastRef(p.left));
      NoJump(p.left, st', StepBlock(p));
    }
    if !OneBlockStmt(s.post.value) {
      SteppedFrame(order, st, ix, s, LastRef(p.stepped));
      NoJump(p.stepped, st', p.cond);
    }
  }

  lemma LoopJumps(order: Order, st: State, ix: Index, s: Stmt)
    requires Inv(st, ix) && Ready(st) && IsOrder(order) && s.Loop? && s.test.Some? && s.post.Some? && VisitLoop(order, st, s).Some?
    requires LoopParts(order, st, s).Some?
    ensures var p := LoopParts(order, st, s).value; var st' := VisitLoop(order, st, s).value;
      JumpsTo(st', LastRef(p.entered), StepBlock(p)) && JumpsTo(st', StepBlock(p), p.cond)
  {
    hide Inv, VisitCondition, EnterBlock, AddBlock, CloseBlock, VisitInNewEnv, AddOperands, VisitStmt, VisitLoop, JumpsTo, Branches, VisitExpr;
    var body, test, cv := LoopFlow(order, st, ix, s);
  }
}
