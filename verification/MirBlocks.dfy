/** Which code stays in one block: whether lowering begins new blocks can be read off the tree. */
module MirBlocks {
  import opened Ast
  import opened Statements
  import opened Scopes
  import opened Mir
  import opened MirFactory
  import opened MirBuilder

  /** No short-circuit operator stands where the expression is visited. */
  predicate OneBlockExpr(e: Expr) {
    match e
    case FunctionCall(_, args) => OneBlockArgs(args)
    case Prefix(op, x) => op == Positive || op == Negative ==> OneBlockExpr(x)
    case Infix(op, l, r) => op != And && op != Or && OneBlockExpr(l) && OneBlockExpr(r)
    case _ => true
  }

  predicate OneBlockArgs(args: seq<Expr>) {
    args == [] || (OneBlockExpr(args[0]) && OneBlockArgs(args[1..]))
  }

  predicate OneBlockOption(e: Option<Expr>) {
    e.Some? ==> OneBlockExpr(e.value)
  }

  predicate OneBlockStmt(s: Stmt) {
    match s
    case Let(_, init) => OneBlockOption(init)
    case Var(_, init) => OneBlockOption(init)
    case Assign(_, _, value) => OneBlockExpr(value)
    case Increment(x) => OneBlockExpr(x)
    case Decrement(x) => OneBlockExpr(x)
    case ExprStmt(e) => OneBlockExpr(e)
    case Return(result) => OneBlockOption(result)
    case If(_, _, _, _) => false
    case Loop(_, _, _, _) => false
    case _ => true
  }

  /** Neither control flow nor a short-circuit operator. */
  predicate OneBlock(code: seq<Stmt>) {
    code == [] || (OneBlockStmt(code[0]) && OneBlock(code[1..]))
  }

  /** The last block is the same, or a later one of the same function. */
  ghost predicate Moves(a: State, b: State, stays: bool) {
    && HasBlock(a) && HasBlock(b) && LastRef(b).fn == LastRef(a).fn
    && if stays then LastRef(b) == LastRef(a) else LastRef(b).block > LastRef(a).block
  }

  lemma MovesTrans(a: State, b: State, c: State, p: bool, q: bool)
    requires Moves(a, b, p) && Moves(b, c, q)
    ensures Moves(a, c, p && q)
  {}

  lemma Stays(st: State)
    requires HasBlock(st)
    ensures Moves(st, st, true)
  {}

  // ---- Factory operations -----------------------------------------------------------------

  lemma EmitStays(st: State, op: Opcode, os: seq<Operand>, result: Option<VarId>)
    requires HasBlock(st)
    ensures Moves(st, Emit(st, op, os, result), true)
  {}

  lemma ResultStays(st: State, op: Opcode, os: seq<Operand>)
    requires HasBlock(st)
    ensures Moves(st, EmitResult(st, op, os), true)
  {}

  lemma UpdateStays(st: State, x: string, v: VarId)
    requires HasBlock(st) && AddUpdate(st, x, v).Some?
    ensures Moves(st, AddUpdate(st, x, v).value, true)
  {
    ResultStays(st, Opcode.Update, [Local(v)]);
    hide EmitResult;
  }

  lemma RefStays(st: State, x: string)
    requires HasBlock(st) && AddVariableRef(st, x).Some?
    ensures Moves(st, AddVariableRef(st, x).value, true)
  {
    if x in st.globals { ResultStays(st, Load, [Global(x)]); } else { UpdateStays(st, x, Find(st.varEnv, x).value.v); }
    hide EmitResult, AddUpdate;
  }

  lemma BindStays(st: State, x: string, v: VarId)
    requires HasBlock(st) && st.varEnv != [] && VarBind(st, x, v).Some?
    ensures Moves(st, VarBind(st, x, v).value, true)
  {
    ResultStays(st, Bind, [Local(v)]);
    hide EmitResult, Insert;
  }

  lemma InsertStays(st: State, id: nat, r: BlockRef, target: BlockRef)
    requires HasBlock(st)
    ensures Moves(st, InsertJump(st, id, r, target), true)
  {}

  lemma OperandsStay(st: State, r: BlockRef, i: nat, os: seq<Operand>)
    requires HasBlock(st)
    ensures Moves(st, AddOperands(st, r, i, os), true)
  {}

  lemma BlockMoves(st: State, prefix: string)
    requires HasBlock(st)
    ensures Moves(st, AddBlock(st, prefix), false)
  {}

  lemma {:induction false} LayerSameLast(st: State, first: Layer<Site>, second: Layer<Site>, keys: seq<string>)
    requires HasBlock(st) && forall k <- keys :: k in first
    ensures LastRef(MergeLayer(st, first, second, keys).0) == LastRef(st)
    decreases keys
  {
    if keys != [] && keys[0] in second {
      var a, b := first[keys[0]], second[keys[0]];
      if a.v == b.v {
        LayerSameLast(st, first, second, keys[1..]);
      } else {
        var os := [PhiArg(a.block, a.v), PhiArg(b.block, b.v)];
        ResultStays(st, Phi, os);
        hide EmitResult;
        LayerSameLast(EmitResult(st, Phi, os), first[keys[0] := a.(v := st.varId)], second, keys[1..]);
      }
    }
  }

  /** Merging goes on in the same block. */
  lemma {:induction false} MergeSameLast(order: Order, st: State, e1: Stack<Site>, e2: Stack<Site>)
    requires HasBlock(st) && IsOrder(order)
    ensures LastRef(MergeEnvs(order, st, e1, e2).0) == LastRef(st)
    decreases e1
  {
    if e1 != [] && e2 != [] {
      hide MergeLayer;
      LayerSameLast(st, e1[0], e2[0], order(st, |e1|, e1[0].Keys));
      MergeSameLast(order, MergeLayer(st, e1[0], e2[0], order(st, |e1|, e1[0].Keys)).0, e1[1..], e2[1..]);
    }
  }

  // ---- Expressions ------------------------------------------------------------------------

  /** Lowering an expression stays in its block exactly when it has no short-circuit operator. */
  lemma {:induction false} ExprMoves(st: State, e: Expr)
    requires Ready(st) && VisitExpr(st, e).Some?
    ensures Moves(st, VisitExpr(st, e).value, OneBlockExpr(e))
    decreases e, 1
  {
    hide AddVariableRef, EmitResult, RequireLastVar, VisitLogical, Moves, AddCall;
    Stays(st);
    match e
    case Literal(lit) => LiteralStays(st, lit);
    case Identifier(x) => RefStays(st, x);
    case FunctionCall(f, args) =>
      ArgsMove(st, args);
      var visited := VisitArgs(st, args).value;
      CallStays(visited.0, f, visited.1);
      MovesTrans(st, visited.0, AddCall(visited.0, f, visited.1).value, OneBlockArgs(args), true);
    case Prefix(op, x) =>
      if op == Positive || op == Negative {
        var st1 := VisitExpr(st, x).value;
        ExprMoves(st, x);
        var os := [IntConst(0), Local(RequireLastVar(st1).value)];
        ResultStays(st1, ISub, os);
        MovesTrans(st, st1, EmitResult(st1, ISub, os), OneBlockExpr(x), true);
      }
    case Infix(op, l, r) =>
      if op == And || op == Or { LogicalMoves(st, op, l, r); } else { InfixMoves(st, op, l, r); }
    case _ =>
  }

  lemma LiteralStays(st: State, lit: Ast.Literal)
    requires Ready(st) && VisitLiteral(st, lit).Some?
    ensures Moves(st, VisitLiteral(st, lit).value, true)
  {}

  lemma CallStays(st: State, f: string, vars: seq<VarId>)
    requires HasBlock(st) && AddCall(st, f, vars).Some?
    ensures Moves(st, AddCall(st, f, vars).value, true)
  {
    EmitStays(st, CallOp, CallOperands(f, vars), None);
    hide Emit;
  }

  lemma {:induction false} InfixMoves(st: State, op: InfixOp, l: Expr, r: Expr)
    requires Ready(st) && op != And && op != Or && VisitExpr(st, Infix(op, l, r)).Some?
    ensures Moves(st, VisitExpr(st, Infix(op, l, r)).value, OneBlockExpr(l) && OneBlockExpr(r))
    decreases Infix(op, l, r), 0
  {
    hide EmitResult, RequireLastVar, VisitLogical, Moves, OneBlockExpr;
    var st1 := VisitExpr(st, l).value;
    ExprMoves(st, l);
    var st2 := VisitExpr(st1, r).value;
    ExprMoves(st1, r);
    MovesTrans(st, st1, st2, OneBlockExpr(l), OneBlockExpr(r));
    var os := [Local(RequireLastVar(st1).value), Local(RequireLastVar(st2).value)];
    ResultStays(st2, InfixOpcode(op), os);
    MovesTrans(st, st2, EmitResult(st2, InfixOpcode(op), os), OneBlockExpr(l) && OneBlockExpr(r), true);
  }

  lemma {:induction false} ArgsMove(st: State, args: seq<Expr>)
    requires Ready(st) && VisitArgs(st, args).Some?
    ensures Moves(st, VisitArgs(st, args).value.0, OneBlockArgs(args))
    decreases args, 1
  {
    hide RequireLastVar, Moves, VisitExpr, OneBlockExpr;
    Stays(st);
    if args != [] {
      var st1 := VisitExpr(st, args[0]).value;
      ExprMoves(st, args[0]);
      ArgsMove(st1, args[1..]);
      MovesTrans(st, st1, VisitArgs(st1, args[1..]).value.0, OneBlockExpr(args[0]), OneBlockArgs(args[1..]));
    }
  }

  lemma EnterMoves(st: State, prefix: string)
    requires Ready(st)
    ensures Moves(st, EnterBlock(st, prefix), false)
  {
    var st1 := Emit(st, Jump, [], None);
    EmitStays(st, Jump, [], None);
    BlockMoves(st1, prefix);
    var st2 := AddBlock(st1, prefix);
    OperandsStay(st2, LastRef(st), |Instructions(st, LastRef(st))|, [Label(LastRef(st2))]);
    hide Emit, AddBlock, AddOperands;
  }

  /** The parts of a lowered short-circuit operator. */
  lemma LogicalParts(st: State, op: InfixOp, l: Expr, r: Expr)
    requires Ready(st) && VisitLogical(st, op, l, r).Some?
    ensures VisitLeftTerm(st, op, l).Some?
    ensures VisitExpr(AddBlock(VisitLeftTerm(st, op, l).value.st, LogicalName(op) + "_right_term"), r).Some?
    ensures var t := VisitLeftTerm(st, op, l).value; var st1 := AddBlock(t.st, LogicalName(op) + "_right_term");
      var st2 := VisitExpr(st1, r).value; var st3 := AddBlock(ReserveInstr(st2), LogicalName(op) + "_merge");
      RequireLastVar(st2).Some? &&
      VisitLogical(st, op, l, r) == Some(FinishLogical(st3, op, t, LastRef(st1), RequireLastVar(st2).value, st2.instrId))
  {
    hide RequireLastVar, VisitExpr, VisitLeftTerm, FinishLogical, AddBlock, LogicalName;
  }

  lemma {:induction false} LogicalMoves(st: State, op: InfixOp, l: Expr, r: Expr)
    requires Ready(st) && VisitLogical(st, op, l, r).Some?
    ensures Moves(st, VisitLogical(st, op, l, r).value, false)
    decreases Infix(op, l, r), 0
  {
    LogicalParts(st, op, l, r);
    hide RequireLastVar, Moves, VisitExpr, VisitLeftTerm, FinishLogical, AddBlock, OneBlockExpr, VisitLogical, LogicalName;
    var t := VisitLeftTerm(st, op, l).value;
    var st1 := AddBlock(t.st, LogicalName(op) + "_right_term");
    var st2 := VisitExpr(st1, r).value;
    var st3 := AddBlock(ReserveInstr(st2), LogicalName(op) + "_merge");
    LeftMoves(st, op, l);
    RightMoves(t.st, LogicalName(op) + "_right_term", LogicalName(op) + "_merge", r);
    MovesTrans(st, t.st, st3, false, false);
    FinishStays(st3, op, t, LastRef(st1), RequireLastVar(st2).value, st2.instrId);
    MovesTrans(st, st3, VisitLogical(st, op, l, r).value, false, true);
  }

  lemma {:induction false} RightMoves(st: State, right: string, merge: string, r: Expr)
    requires Ready(st) && VisitExpr(AddBlock(st, right), r).Some?
    ensures Moves(st, AddBlock(ReserveInstr(VisitExpr(AddBlock(st, right), r).value), merge), false)
    decreases r, 2
  {
    hide Moves, VisitExpr, AddBlock, OneBlockExpr;
    var st1 := AddBlock(st, right);
    BlockMoves(st, right);
    var st2 := VisitExpr(st1, r).value;
    ExprMoves(st1, r);
    MovesTrans(st, st1, st2, false, OneBlockExpr(r));
    SameMoves(st2, ReserveInstr(st2));
    MovesTrans(st, st2, ReserveInstr(st2), false, true);
    BlockMoves(ReserveInstr(st2), merge);
    MovesTrans(st, ReserveInstr(st2), AddBlock(ReserveInstr(st2), merge), false, false);
  }

  lemma SameMoves(a: State, b: State)
    requires HasBlock(a) && b.functions == a.functions
    ensures Moves(a, b, true)
  {}

  lemma {:induction false} LeftMoves(st: State, op: InfixOp, l: Expr)
    requires Ready(st) && VisitLeftTerm(st, op, l).Some?
    ensures Moves(st, VisitLeftTerm(st, op, l).value.st, false)
    decreases l, 2
  {
    hide RequireLastVar, Moves, VisitExpr, EnterBlock, EmitResult, OneBlockExpr;
    var st1 := EnterBlock(st, LogicalName(op) + "_left_term");
    EnterMoves(st, LogicalName(op) + "_left_term");
    var st2 := VisitExpr(st1, l).value;
    ExprMoves(st1, l);
    MovesTrans(st, st1, st2, false, OneBlockExpr(l));
    var st3 := EmitResult(st2, CondJump, []);
    ResultStays(st2, CondJump, []);
    MovesTrans(st, st2, st3, false, true);
    SameMoves(st3, ReserveInstr(st3));
    MovesTrans(st, st3, ReserveInstr(st3), false, true);
  }

  lemma FinishStays(st: State, op: InfixOp, t: LeftTerm, right: BlockRef, rv: VarId, rightJump: nat)
    requires Ready(st)
    ensures Moves(st, FinishLogical(st, op, t, right, rv, rightJump), true)
  {
    hide AddOperands, InsertJump, EmitResult;
    var merge := LastRef(st);
    var labels := if op == And then [Local(t.leftVar), Label(right), Label(merge)] else [Local(t.leftVar), Label(merge), Label(right)];
    var st1 := AddOperands(st, t.branch, t.place, labels);
    OperandsStay(st, t.branch, t.place, labels);
    var st2 := EmitResult(st1, ConstBool, [BoolConst(op == Or)]);
    ResultStays(st1, ConstBool, [BoolConst(op == Or)]);
    var choice := if op == And then [Local(t.branchVar), Local(rv), Local(st1.varId)] else [Local(t.branchVar), Local(st1.varId), Local(rv)];
    var st3 := EmitResult(st2, Phi, choice);
    ResultStays(st2, Phi, choice);
    InsertStays(st3, t.leftJump, t.left, merge);
    InsertStays(InsertJump(st3, t.leftJump, t.left, merge), rightJump, right, merge);
  }

  // ---- Statements -------------------------------------------------------------------------

  /** Lowering a statement stays in its block exactly when that can be read off the statement. */
  lemma {:induction false} StmtMoves(order: Order, st: State, s: Stmt)
    requires Ready(st) && IsOrder(order) && VisitStmt(order, st, s).Some?
    ensures Moves(st, VisitStmt(order, st, s).value, OneBlockStmt(s))
    decreases s, 2
  {
    hide VisitExpr, VisitBinding, VisitAssignment, VisitStep, VisitCondition, VisitBranches, VisitLoop, RequireLastVar, Moves, Emit, OneBlockExpr;
    Stays(st);
    match s
    case Let(x, init) => BindingMoves(st, x, init);
    case Var(x, init) => BindingMoves(st, x, init);
    case Assign(op, target, value) => AssignmentMoves(st, op, target, value);
    case Increment(x) => StepMoves(st, IAdd, x);
    case Decrement(x) => StepMoves(st, ISub, x);
    case ExprStmt(e) => ExprMoves(st, e);
    case Return(_) => ReturnMoves(order, st, s);
    case If(_, _, _, _) => IfMoves(order, st, s);
    case Loop(_, _, _, _) => LoopMoves(order, st, s);
    case Break => EmitStays(st, BreakOp, [], None);
    case Continue => EmitStays(st, ContinueOp, [], None);
    case Defer(_) =>
  }

  lemma BindingMoves(st: State, x: string, init: Option<Expr>)
    requires Ready(st) && VisitBinding(st, x, init).Some?
    ensures Moves(st, VisitBinding(st, x, init).value, OneBlockOption(init))
  {
    hide VisitExpr, RequireLastVar, VarBind, Moves, OneBlockExpr;
    var st1 := VisitExpr(st, init.value).value;
    ExprMoves(st, init.value);
    BindStays(st1, x, RequireLastVar(st1).value);
    MovesTrans(st, st1, VisitBinding(st, x, init).value, OneBlockExpr(init.value), true);
  }

  lemma AssignmentMoves(st: State, op: AssignOp, target: Expr, value: Expr)
    requires Ready(st) && VisitAssignment(st, op, target, value).Some?
    ensures Moves(st, VisitAssignment(st, op, target, value).value, OneBlockExpr(value))
  {
    hide VisitExpr, RequireLastVar, AddVariableRef, AddUpdate, Emit, Moves, OneBlockExpr;
    var c, one := CreateVar(st), OneBlockExpr(value);
    SameMoves(st, c);
    var st1 := VisitExpr(c, value).value;
    ExprMoves(c, value);
    MovesTrans(st, c, st1, true, one);
    var rv := RequireLastVar(st1).value;
    var st' := VisitAssignment(st, op, target, value).value;
    if op == Regular {
      UpdateStays(st1, target.id, rv);
      MovesTrans(st, st1, st', one, true);
    } else {
      var st2 := AddVariableRef(st1, target.id).value;
      RefStays(st1, target.id);
      MovesTrans(st, st1, st2, one, true);
      var os := [Local(RequireLastVar(st2).value), Local(rv)];
      var st3 := Emit(st2, AssignOpcode(op), os, Some(st.varId));
      EmitStays(st2, AssignOpcode(op), os, Some(st.varId));
      MovesTrans(st, st2, st3, one, true);
      if op != ModAssign {
        UpdateStays(st3, target.id, st.varId);
        MovesTrans(st, st3, st', one, true);
      }
    }
  }

  lemma StepMoves(st: State, op: Opcode, x: Expr)
    requires Ready(st) && VisitStep(st, op, x).Some?
    ensures Moves(st, VisitStep(st, op, x).value, OneBlockExpr(x))
  {
    hide VisitExpr, RequireLastVar, Emit, Moves, OneBlockExpr;
    var st1 := VisitExpr(st, x).value;
    ExprMoves(st, x);
    EmitStays(st1, op, [Local(RequireLastVar(st1).value), IntConst(1)], None);
    MovesTrans(st, st1, VisitStep(st, op, x).value, OneBlockExpr(x), true);
  }

  lemma ReturnMoves(order: Order, st: State, s: Stmt)
    requires Ready(st) && IsOrder(order) && s.Return? && VisitStmt(order, st, s).Some?
    ensures Moves(st, VisitStmt(order, st, s).value, OneBlockOption(s.result))
  {
    hide VisitExpr, RequireLastVar, Emit, Moves, OneBlockExpr;
    match s
    case Return(None) => EmitStays(st, ReturnOp, [], None);
    case Return(Some(e)) =>
      var st1 := VisitExpr(st, e).value;
      ExprMoves(st, e);
      EmitStays(st1, ReturnOp, [Local(RequireLastVar(st1).value)], None);
      MovesTrans(st, st1, VisitStmt(order, st, s).value, OneBlockExpr(e), true);
  }

  lemma ConditionMoves(st: State, cond: Expr)
    requires Ready(st) && VisitCondition(st, cond).Some?
    ensures Moves(st, VisitCondition(st, cond).value, OneBlockExpr(cond))
  {
    hide VisitExpr, RequireLastVar, EmitResult, Moves, OneBlockExpr;
    var st1 := VisitExpr(st, cond).value;
    ExprMoves(st, cond);
    ResultStays(st1, CondJump, [Local(RequireLastVar(st1).value)]);
    MovesTrans(st, st1, VisitCondition(st, cond).value, OneBlockExpr(cond), true);
  }

  lemma {:induction false} ListMoves(order: Order, st: State, ss: seq<Stmt>)
    requires Ready(st) && IsOrder(order) && VisitList(order, st, ss).Some?
    ensures Moves(st, VisitList(order, st, ss).value, OneBlock(ss))
    decreases ss, 0
  {
    hide VisitStmt, Moves, OneBlockStmt;
    Stays(st);
    if ss != [] {
      var st1 := VisitStmt(order, st, ss[0]).value;
      StmtMoves(order, st, ss[0]);
      ListMoves(order, st1, ss[1..]);
      MovesTrans(st, st1, VisitList(order, st1, ss[1..]).value, OneBlockStmt(ss[0]), OneBlock(ss[1..]));
    }
  }

  lemma {:induction false} NewEnvMoves(order: Order, st: State, ss: seq<Stmt>)
    requires Ready(st) && IsOrder(order) && VisitInNewEnv(order, st, ss).Some?
    ensures Moves(st, VisitInNewEnv(order, st, ss).value.0, OneBlock(ss))
    decreases ss, 1
  {
    hide VisitList, Moves, OneBlock;
    var st1 := VisitList(order, PushEnv(st), ss).value;
    SameMoves(st, PushEnv(st));
    ListMoves(order, PushEnv(st), ss);
    MovesTrans(st, PushEnv(st), st1, true, OneBlock(ss));
    SameMoves(st1, PopEnv(st1).value);
    MovesTrans(st, st1, PopEnv(st1).value, OneBlock(ss), true);
  }

  /** A branch ends in the block it begins in exactly when its code stays in one block. */
  lemma {:induction false} BranchMoves(order: Order, st: State, prefix: string, branch: BlockRef, place: nat, code: seq<Stmt>)
    requires Ready(st) && IsOrder(order) && VisitBranch(order, st, prefix, branch, place, code).Some?
    ensures var b := VisitBranch(order, st, prefix, branch, place, code).value;
      Moves(st, b.st, false) && (LastRef(b.st) == b.block <==> OneBlock(code))
    decreases code, 2
  {
    hide VisitInNewEnv, AddBlock, AddOperands, OneBlock;
    var st1 := AddBlock(st, prefix);
    BlockMoves(st, prefix);
    var st2 := AddOperands(st1, branch, place, [Label(LastRef(st1))]);
    OperandsStay(st1, branch, place, [Label(LastRef(st1))]);
    NewEnvMoves(order, st2, code);
  }

  lemma {:induction false} IfMoves(order: Order, st: State, s: Stmt)
    requires Ready(st) && IsOrder(order) && s.If? && VisitStmt(order, st, s).Some?
    ensures Moves(st, VisitStmt(order, st, s).value, false)
    decreases s, 1
  {
    hide VisitCondition, VisitBranches, Moves, OneBlockExpr, OneBlockStmt;
    var st1, one := st, true;
    Stays(st);
    if s.first.Some? {
      st1, one := VisitStmt(order, st, s.first.value).value, OneBlockStmt(s.first.value);
      StmtMoves(order, st, s.first.value);
    }
    var st2 := VisitCondition(st1, s.cond).value;
    ConditionMoves(st1, s.cond);
    MovesTrans(st, st1, st2, one, OneBlockExpr(s.cond));
    BranchesMove(order, st2, s);
    MovesTrans(st, st2, VisitBranches(order, st2, s).value, one && OneBlockExpr(s.cond), false);
  }

  lemma {:induction false} BranchesMove(order: Order, st: State, s: Stmt)
    requires Ready(st) && IsOrder(order) && s.If? && LastBlock(st).instructions != [] && VisitBranches(order, st, s).Some?
    ensures Moves(st, VisitBranches(order, st, s).value, false)
    decreases s, 0
  {
    hide VisitBranch, MergeEnvs, AddBlock, InsertJump, Moves, JoinBranches;
    var branch := LastRef(st);
    var place := |Instructions(st, branch)| - 1;
    var t := VisitBranch(order, st, "if_then", branch, place, s.onTrue).value;
    BranchMoves(order, st, "if_then", branch, place, s.onTrue);
    var st1 := t.st.(varEnv := st.varEnv);
    SameMoves(t.st, st1);
    MovesTrans(st, t.st, st1, false, true);
    if s.onFalse.NoElse? {
      JoinOneMoves(order, st1, t, st.varEnv);
      MovesTrans(st, st1, VisitBranches(order, st, s).value, false, false);
    } else {
      var e := VisitBranch(order, st1, "if_alt", branch, place, s.onFalse.code).value;
      BranchMoves(order, st1, "if_alt", branch, place, s.onFalse.code);
      MovesTrans(st, st1, e.st, false, false);
      JoinMoves(order, e.st, t, e);
      MovesTrans(st, e.st, VisitBranches(order, st, s).value, false, false);
    }
  }

  lemma JoinOneMoves(order: Order, st: State, t: Branch, env: Stack<Site>)
    requires Ready(st) && IsOrder(order)
    ensures var st2 := AddBlock(st, "if_merge"); var st3 := InsertJump(st2, t.jump, t.block, LastRef(st2));
      HasBlock(st3) && Moves(st, MergeEnvs(order, st3, env, t.env).0.(varEnv := env), false)
  {
    hide MergeEnvs, AddBlock, InsertJump;
    var st2 := AddBlock(st, "if_merge");
    BlockMoves(st, "if_merge");
    InsertStays(st2, t.jump, t.block, LastRef(st2));
    MergeSameLast(order, InsertJump(st2, t.jump, t.block, LastRef(st2)), env, t.env);
  }

  lemma JoinMoves(order: Order, st: State, t: Branch, e: Branch)
    requires Ready(st) && IsOrder(order) && t.env != []
    ensures Moves(st, JoinBranches(order, st, t, e), false)
  {
    hide MergeEnvs, AddBlock, InsertJump;
    var st1 := AddBlock(st, "if_merge");
    BlockMoves(st, "if_merge");
    var merge := LastRef(st1);
    InsertStays(st1, t.jump, t.block, merge);
    InsertStays(InsertJump(st1, t.jump, t.block, merge), e.jump, e.block, merge);
    MergeSameLast(order, InsertJump(InsertJump(st1, t.jump, t.block, merge), e.jump, e.block, merge), t.env, e.env);
  }

  lemma CloseMoves(st: State, r: BlockRef, target: BlockRef, prefix: string)
    requires Ready(st)
    ensures Moves(st, CloseBlock(st, r, target, prefix), false)
  {
    InsertStays(ReserveInstr(st), st.instrId, r, target);
    BlockMoves(InsertJump(ReserveInstr(st), st.instrId, r, target), prefix);
    hide InsertJump, AddBlock;
  }

  lemma {:induction false} LoopMoves(order: Order, st: State, s: Stmt)
    requires Ready(st) && IsOrder(order) && s.Loop? && VisitStmt(order, st, s).Some?
    ensures Moves(st, VisitStmt(order, st, s).value, false)
    decreases s, 1
  {
    hide VisitCondition, VisitExpr, VisitInNewEnv, EnterBlock, AddBlock, AddOperands, CloseBlock, Moves, OneBlockExpr, OneBlockStmt, OneBlock;
    var st0 := VisitStmt(order, st, s.first.value).value;
    StmtMoves(order, st, s.first.value);
    var st1 := EnterBlock(st0, "loop_cond");
    EnterMoves(st0, "loop_cond");
    MovesTrans(st, st0, st1, OneBlockStmt(s.first.value), false);
    var st2 := VisitCondition(st1, s.test.value).value;
    ConditionMoves(st1, s.test.value);
    MovesTrans(st, st1, st2, false, OneBlockExpr(s.test.value));
    var st3 := AddBlock(st2, "loop_expr");
    BlockMoves(st2, "loop_expr");
    MovesTrans(st, st2, st3, false, false);
    var st4 := VisitStmt(order, st3, s.post.value).value;
    StmtMoves(order, st3, s.post.value);
    MovesTrans(st, st3, st4, false, OneBlockStmt(s.post.value));
    var st5 := CloseBlock(st4, LastRef(st3), LastRef(st1), "loop_body");
    CloseMoves(st4, LastRef(st3), LastRef(st1), "loop_body");
    MovesTrans(st, st4, st5, false, false);
    var visited := VisitInNewEnv(order, st5, s.body).value;
    NewEnvMoves(order, st5, s.body);
    MovesTrans(st, st5, visited.0, false, OneBlock(s.body));
    var st6 := CloseBlock(visited.0, LastRef(st5), LastRef(st3), "loop_merge");
    CloseMoves(visited.0, LastRef(st5), LastRef(st3), "loop_merge");
    MovesTrans(st, visited.0, st6, false, false);
    var os := [Label(LastRef(st5)), Label(LastRef(st6))];
    OperandsStay(st6, LastRef(st2), |Instructions(st2, LastRef(st2))| - 1, os);
    MovesTrans(st, st6, VisitStmt(order, st, s).value, false, true);
  }
}
