/** Lowering any program gives a module of SSA shape. */
module MirSsa {
  import opened Ast
  import opened Statements
  import opened Scopes
  import opened Mir
  import opened MirFactory
  import opened Words
  import opened MirBuilder
  import MirBlocks
  import opened MirShape
  import opened MirSteps

  /** Both facts that every visit keeps. */
  ghost predicate Kept(st0: State, ix0: Index, st: State, ix: Index) {
    Inv(st, ix) && Step(st0, ix0, st, ix) && HasBlock(st0) && HasBlock(st)
  }

  lemma KeptTrans(a: State, ia: Index, b: State, ib: Index, c: State, ic: Index)
    requires Kept(a, ia, b, ib) && Kept(b, ib, c, ic)
    ensures Kept(a, ia, c, ic) && Extends(ib, ic)
  {
    hide Inv;
    StepTrans(a, ia, b, ib, c, ic);
  }

  lemma KeptRefl(st: State, ix: Index)
    requires Inv(st, ix) && HasBlock(st)
    ensures Kept(st, ix, st, ix)
  {
    StepRefl(st, ix);
  }

  /** Emitting an instruction whose operands are plain, and possibly a fresh result. */
  lemma EmitResultKept(st0: State, ix0: Index, st: State, ix: Index, op: Opcode, os: seq<Operand>) returns (ix': Index)
    requires Kept(st0, ix0, st, ix) && forall k :: 0 <= k < |os| ==> Usable(st, ix, LastRef(st).fn, os[k])
    ensures Kept(st0, ix0, EmitResult(st, op, os), ix') && st.varId in ix'.def && Extends(ix, ix')
  {
    hide Inv, Step, Usable, Extends;
    UsableOperands(st, ix, LastRef(st).fn, os);
    ix' := EmitResultKeeps(st0, ix0, st, ix, op, os);
  }

  lemma EmitKept(st0: State, ix0: Index, st: State, ix: Index, op: Opcode, os: seq<Operand>) returns (ix': Index)
    requires Kept(st0, ix0, st, ix) && forall k :: 0 <= k < |os| ==> Usable(st, ix, LastRef(st).fn, os[k])
    ensures Kept(st0, ix0, Emit(st, op, os, None), ix') && Extends(ix, ix')
  {
    hide Inv, Step, Usable, Extends;
    UsableOperands(st, ix, LastRef(st).fn, os);
    ix' := EmitKeeps(st0, ix0, st, ix, op, os, None);
  }

  // ---- Expressions ------------------------------------------------------------------------

  lemma LiteralKeeps(st: State, ix: Index, lit: Ast.Literal) returns (ix': Index)
    requires Inv(st, ix) && Ready(st) && VisitLiteral(st, lit).Some?
    ensures Kept(st, ix, VisitLiteral(st, lit).value, ix')
  {
    KeptRefl(st, ix);
    hide Inv, Kept, EmitResult;
    match lit
    case IntLit(n) => ix' := EmitResultKept(st, ix, st, ix, ConstInt, [IntConst(Wrap32(n))]);
    case FloatLit(d) => ix' := EmitResultKept(st, ix, st, ix, ConstFloat, [FloatConst(d)]);
    case BoolLit(b) => ix' := EmitResultKept(st, ix, st, ix, ConstBool, [BoolConst(b)]);
    case CharLit(_) => ix' := ix;
  }

  lemma {:induction false} ExprKeeps(st: State, ix: Index, e: Expr) returns (ix': Index)
    requires Inv(st, ix) && Ready(st) && VisitExpr(st, e).Some?
    ensures Kept(st, ix, VisitExpr(st, e).value, ix')
    decreases e, 1
  {
    hide Inv, EmitResult, Emit, VisitLogical, VisitArgs, AddVariableRef, AddCall, VisitLiteral, Usable;
    KeptRefl(st, ix);
    match e
    case Literal(lit) => ix' := LiteralKeeps(st, ix, lit);
    case Identifier(x) => ix' := AddVariableRefKeeps(st, ix, st, ix, x);
    case FunctionCall(f, args) => ix' := CallKeeps(st, ix, f, args);
    case Prefix(op, x) => ix' := PrefixKeeps(st, ix, op, x);
    case Infix(op, l, r) =>
      if op == And || op == Or { ix' := LogicalKeeps(st, ix, op, l, r); }
      else { ix' := InfixKeeps(st, ix, op, l, r); }
    case _ => ix' := ix;
  }

  lemma {:induction false} CallKeeps(st: State, ix: Index, f: string, args: seq<Expr>) returns (ix': Index)
    requires Inv(st, ix) && Ready(st) && VisitExpr(st, FunctionCall(f, args)).Some?
    ensures Kept(st, ix, VisitExpr(st, FunctionCall(f, args)).value, ix')
    decreases args, 1
  {
    hide Inv, AddCall, Step;
    var visited := VisitArgs(st, args).value;
    var ix1 := ArgsKeep(st, ix, args);
    ix' := AddCallKeeps(st, ix, visited.0, ix1, f, visited.1);
  }

  lemma {:induction false} ArgsKeep(st: State, ix: Index, args: seq<Expr>) returns (ix': Index)
    requires Inv(st, ix) && Ready(st) && VisitArgs(st, args).Some?
    ensures var visited := VisitArgs(st, args).value;
      Kept(st, ix, visited.0, ix') && forall k :: 0 <= k < |visited.1| ==> visited.1[k] in ix'.def
    decreases args, 0
  {
    KeptRefl(st, ix);
    hide Inv, VisitExpr, Step, Kept, RequireLastVar;
    ix' := ix;
    if args != [] {
      var st1 := VisitExpr(st, args[0]).value;
      var v := RequireLastVar(st1).value;
      var rest := VisitArgs(st1, args[1..]).value;
      assert VisitArgs(st, args).value == (rest.0, [v] + rest.1);
      hide VisitArgs;
      var ix1 := ExprKeeps(st, ix, args[0]);
      KeptLast(st, ix, st1, ix1);
      ix' := ArgsKeep(st1, ix1, args[1..]);
      KeptTrans(st, ix, st1, ix1, rest.0, ix');
    }
  }

  lemma KeptLast(st0: State, ix0: Index, st: State, ix: Index)
    requires Kept(st0, ix0, st, ix)
    ensures Inv(st, ix) && (RequireLastVar(st).Some? ==> RequireLastVar(st).value in ix.def)
  {
    hide Inv;
    if RequireLastVar(st).Some? { LastVarDefined(st, ix); }
  }

  lemma {:induction false} PrefixKeeps(st: State, ix: Index, op: PrefixOp, x: Expr) returns (ix': Index)
    requires Inv(st, ix) && Ready(st) && VisitExpr(st, Prefix(op, x)).Some?
    ensures Kept(st, ix, VisitExpr(st, Prefix(op, x)).value, ix')
    decreases x, 2
  {
    KeptRefl(st, ix);
    hide Inv, Kept, EmitResult, RequireLastVar, VisitLogical;
    ix' := ix;
    if op == Positive || op == Negative {
      var st1 := VisitExpr(st, x).value;
      ix' := ExprKeeps(st, ix, x);
      KeptLast(st, ix, st1, ix');
      if op == Negative {
        ix' := NegationKept(st, ix, st1, ix', RequireLastVar(st1).value);
      }
    }
  }

  lemma NegationKept(st0: State, ix0: Index, st: State, ix: Index, v: VarId) returns (ix': Index)
    requires Inv(st0, ix0) && Ready(st0) && Kept(st0, ix0, st, ix) && Ready(st) && v in ix.def
    ensures Kept(st0, ix0, EmitResult(st, ISub, [IntConst(0), Local(v)]), ix')
  {
    hide Inv, Kept, EmitResult;
    ix' := EmitResultKept(st0, ix0, st, ix, ISub, [IntConst(0), Local(v)]);
  }

  lemma {:induction false} InfixKeeps(st: State, ix: Index, op: InfixOp, l: Expr, r: Expr) returns (ix': Index)
    requires Inv(st, ix) && Ready(st) && op != And && op != Or && VisitExpr(st, Infix(op, l, r)).Some?
    ensures Kept(st, ix, VisitExpr(st, Infix(op, l, r)).value, ix')
    decreases Infix(op, l, r), 0
  {
    hide Inv, Kept, EmitResult, RequireLastVar;
    var st1 := VisitExpr(st, l).value;
    var ix1 := ExprKeeps(st, ix, l);
    KeptLast(st, ix, st1, ix1);
    var st2 := VisitExpr(st1, r).value;
    var ix2 := ExprKeeps(st1, ix1, r);
    KeptLast(st1, ix1, st2, ix2);
    KeptTrans(st, ix, st1, ix1, st2, ix2);
    ix' := EmitResultKept(st, ix, st2, ix2, InfixOpcode(op),
      [Local(RequireLastVar(st1).value), Local(RequireLastVar(st2).value)]);
  }

  // ---- Short-circuit operators ------------------------------------------------------------

  lemma EnterBlockKeeps(st: State, ix: Index, prefix: string) returns (ix': Index)
    requires Inv(st, ix) && Ready(st)
    ensures var st' := EnterBlock(st, prefix);
      && Kept(st, ix, st', ix') && LastRef(st').fn == LastRef(st).fn
      && IsBlock(st', LastRef(st')) && !IsBlock(st, LastRef(st'))
  {
    hide Inv, Step;
    KeptRefl(st, ix);
    ix' := EmitKept(st, ix, st, ix, Jump, []);
    var st1 := Emit(st, Jump, [], None);
    var st2 := AddBlock(st1, prefix);
    EmitFrame(st, Jump, [], None);
    EmitBlocks(st, Jump, [], None);
    AddBlockPlaces(st1, prefix);
    hide Emit, AddBlock, SameCode;
    AddBlockKeeps(st, ix, st1, ix', prefix);
    AddOperandsKeeps(st, ix, st2, ix', LastRef(st), |Instructions(st, LastRef(st))|, [Label(LastRef(st2))]);
  }

  /** Nothing that waits for an operand or a jump is lost between these states. */
  ghost predicate Waits(a: State, ia: Index, b: State, ib: Index) {
    && (forall r :: IsBlock(a, r) ==> IsBlock(b, r))
    && (forall id: nat, r :: Pending(a, ia, id, r) && !(HasBlock(a) && r == LastRef(a)) ==> Pending(b, ib, id, r))
    && (forall r, i: nat, v :: Late(a, ia, r, i, v) ==> Late(b, ib, r, i, v))
  }

  lemma KeptWaits(a: State, ia: Index, b: State, ib: Index)
    requires Inv(a, ia) && Kept(a, ia, b, ib)
    ensures Waits(a, ia, b, ib) && LastRef(b).fn == LastRef(a).fn
  {
    LastBlockOpen(a, ia, b, ib);
    hide Inv, Late, Pending, IsBlock;
    forall id: nat, r | Pending(a, ia, id, r) && r != LastRef(a) ensures Pending(b, ib, id, r) {
      PendingStep(a, ia, b, ib, id, r);
    }
    forall r, i: nat, v | Late(a, ia, r, i, v) ensures Late(b, ib, r, i, v) {
      LateStep(a, ia, b, ib, r, i, v);
    }
  }

  /** Reserving the jump that will end block `r`. */
  lemma SealKept(st0: State, ix0: Index, st: State, ix: Index, r: BlockRef)
    requires Kept(st0, ix0, st, ix) && IsBlock(st, r)
    ensures var st' := ReserveInstr(st);
      && Kept(st0, ix0, st', ix) && Pending(st', ix, st.instrId, r) && st.instrId >= st0.instrId
      && LastRef(st') == LastRef(st) && Waits(st, ix, st', ix)
      && (forall id: nat, q :: Pending(st, ix, id, q) ==> id != st.instrId && Pending(st', ix, id, q))
  {
    hide Inv, Step;
    var st' := ReserveInstr(st);
    LastBlockOpen(st0, ix0, st, ix);
    SameFunctions(st, st');
    assert forall q, i: nat :: IsPlace(st, q, i) ==> IsPlace(st', q, i) && Get(st', q, i) == Get(st, q, i);
    hide IsPlace, Get;
    ReserveKeeps(st0, ix0, st, ix);
    ReservePending(st, ix, r);
  }

  lemma LastIsBlock(st: State)
    requires HasBlock(st)
    ensures IsBlock(st, LastRef(st)) && Instructions(st, LastRef(st)) == LastBlock(st).instructions
  {}

  lemma NewBlockKept(st0: State, ix0: Index, st: State, ix: Index, prefix: string)
    requires Kept(st0, ix0, st, ix)
    ensures var st' := AddBlock(st, prefix);
      && Kept(st0, ix0, st', ix) && LastRef(st').fn == LastRef(st).fn == |st0.functions| - 1
      && IsBlock(st', LastRef(st')) && !IsBlock(st, LastRef(st')) && !IsBlock(st0, LastRef(st'))
      && st'.varEnv == st.varEnv && st'.fnEnv == st.fnEnv
      && Waits(st, ix, st', ix) && LastRef(st') != LastRef(st)
      && (forall id: nat, r :: Pending(st, ix, id, r) ==> Pending(st', ix, id, r) && r != LastRef(st'))
  {
    hide Inv, Step;
    var st' := AddBlock(st, prefix);
    AddBlockPlaces(st, prefix);
    AddBlockKeeps(st0, ix0, st, ix, prefix);
    LastBlockOpen(st0, ix0, st, ix);
    LastIsBlock(st);
    assert st'.instrId == st.instrId && st'.varEnv == st.varEnv && st'.fnEnv == st.fnEnv;
    hide AddBlock;
    assert forall q, i: nat :: IsPlace(st, q, i) ==> IsPlace(st', q, i) && Get(st', q, i) == Get(st, q, i);
    hide IsPlace, Get, IsBlock, Instructions;
  }

  /** The conditional jump comes after the variable it tests. */
  lemma BranchKept(st0: State, ix0: Index, st: State, ix: Index, v: VarId, os: seq<Operand>) returns (ix': Index)
    requires Kept(st0, ix0, st, ix) && v in ix.def && forall k :: 0 <= k < |os| ==> Usable(st, ix, LastRef(st).fn, os[k])
    ensures var st' := EmitResult(st, CondJump, os);
      && Kept(st0, ix0, st', ix') && st.varId in ix'.def && v in ix'.def
      && LastRef(st') == LastRef(st) && Late(st', ix', LastRef(st), |Instructions(st, LastRef(st))|, v)
      && |Instructions(st', LastRef(st))| == |Instructions(st, LastRef(st))| + 1
  {
    hide Inv, Step, Usable;
    Fresh(st, ix);
    ix' := EmitResultKept(st0, ix0, st, ix, CondJump, os);
    EmitFrame(CreateVar(st), CondJump, os, Some(st.varId));
  }

  /** The place behind the last instruction is new to an earlier state. */
  lemma NoPlaceYet(st0: State, ix0: Index, st: State, ix: Index)
    requires Kept(st0, ix0, st, ix)
    ensures IsBlock(st, LastRef(st)) && !IsPlace(st0, LastRef(st), |Instructions(st, LastRef(st))|)
  {
    hide Inv;
  }

  /** What is known about a left term until the operator is finished. */
  ghost predicate LeftOk(st0: State, t: LeftTerm, st: State, ix: Index) {
    && Pending(st, ix, t.leftJump, t.left) && t.leftJump >= st0.instrId
    && !IsBlock(st0, t.left) && t.left.fn == t.branch.fn == |st0.functions| - 1
    && Late(st, ix, t.branch, t.place, t.leftVar) && t.branchVar in ix.def && !IsPlace(st0, t.branch, t.place)
  }

  lemma {:induction false} LeftTermKeeps(st: State, ix: Index, op: InfixOp, l: Expr) returns (ix': Index)
    requires Inv(st, ix) && Ready(st) && VisitLeftTerm(st, op, l).Some?
    ensures var t := VisitLeftTerm(st, op, l).value; Kept(st, ix, t.st, ix') && LeftOk(st, t, t.st, ix')
    decreases l, 2
  {
    hide Inv, Step, EmitResult, EnterBlock, Late, Pending, IsBlock;
    var st1 := EnterBlock(st, LogicalName(op) + "_left_term");
    var ix1 := EnterBlockKeeps(st, ix, LogicalName(op) + "_left_term");
    var st2 := VisitExpr(st1, l).value;
    var ix2 := ExprKeeps(st1, ix1, l);
    KeptLast(st1, ix1, st2, ix2);
    KeptTrans(st, ix, st1, ix1, st2, ix2);
    KeptWaits(st1, ix1, st2, ix2);
    NoPlaceYet(st, ix, st2, ix2);
    var st3 := EmitResult(st2, CondJump, []);
    ix' := BranchKept(st, ix, st2, ix2, RequireLastVar(st2).value, []);
    EmitBlocks(st2, CondJump, [], None);
    SealKept(st, ix, st3, ix', LastRef(st1));
  }

  /** Late operands: a variable the instruction comes after, and labels. */
  lemma AddOperandsKept(st0: State, ix0: Index, st: State, ix: Index, r: BlockRef, i: nat, os: seq<Operand>)
    requires Kept(st0, ix0, st, ix) && r.fn == LastRef(st).fn
    requires forall k :: 0 <= k < |os| ==> Usable(st, ix, LastRef(st).fn, os[k]) && !os[k].PhiArg?
    requires forall k :: 0 <= k < |os| && os[k].Local? ==> Late(st, ix, r, i, os[k].v)
    requires !IsPlace(st0, r, i)
    ensures var st' := AddOperands(st, r, i, os);
      && Kept(st0, ix0, st', ix) && LastRef(st') == LastRef(st) && st'.varEnv == st.varEnv && st'.varId == st.varId
      && (forall q :: IsBlock(st, q) ==> IsBlock(st', q))
      && (forall id: nat, q :: Pending(st, ix, id, q) ==> Pending(st', ix, id, q))
  {
    hide Inv, Step;
    AddOperandsKeeps(st0, ix0, st, ix, r, i, os);
    if IsPlace(st, r, i) {
      AddOperandsPlaces(st, r, i, os);
      assert AddOperands(st, r, i, os).instrId == st.instrId;
      assert HasBlock(AddOperands(st, r, i, os)) && LastRef(AddOperands(st, r, i, os)) == LastRef(st);
      hide AddOperands, IsPlace, IsBlock, Get;
    }
  }

  lemma {:induction false} LogicalKeeps(st: State, ix: Index, op: InfixOp, l: Expr, r: Expr) returns (ix': Index)
    requires Inv(st, ix) && Ready(st) && VisitLogical(st, op, l, r).Some?
    ensures Kept(st, ix, VisitLogical(st, op, l, r).value, ix')
    decreases Infix(op, l, r), 0
  {
    hide *;
    MirBlocks.LogicalParts(st, op, l, r);
    LeftReady(st, op, l);
    var t := VisitLeftTerm(st, op, l).value;
    var ixT := LeftTermKeeps(st, ix, op, l);
    var st1 := AddBlock(t.st, LogicalName(op) + "_right_term");
    var st2 := VisitExpr(st1, r).value;
    RightReady(st1, r);
    var ix2 := RightTermKeeps(st, ix, op, r, t, ixT);
    var st3 := AddBlock(ReserveInstr(st2), LogicalName(op) + "_merge");
    ix' := FinishKeeps(st, ix, st3, ix2, op, t, LastRef(st1), RequireLastVar(st2).value, st2.instrId);
  }

  lemma LeftReady(st: State, op: InfixOp, l: Expr)
    requires Ready(st) && VisitLeftTerm(st, op, l).Some?
    ensures var t := VisitLeftTerm(st, op, l).value; HasFunction(t.st) && Ready(t.st) && Ready(AddBlock(t.st, LogicalName(op) + "_right_term"))
  {
    hide VisitLeftTerm, LogicalName, AddBlock;
  }

  lemma RightReady(st: State, r: Expr)
    requires Ready(st) && VisitExpr(st, r).Some?
    ensures HasFunction(ReserveInstr(VisitExpr(st, r).value))
  {
    hide VisitExpr;
  }

  lemma {:induction false} RightTermKeeps(st0: State, ix0: Index, op: InfixOp, r: Expr, t: LeftTerm, ix: Index) returns (ix': Index)
    requires Inv(st0, ix0) && Kept(st0, ix0, t.st, ix) && LeftOk(st0, t, t.st, ix) && Ready(t.st)
    requires Ready(AddBlock(t.st, LogicalName(op) + "_right_term"))
    requires var visited := VisitExpr(AddBlock(t.st, LogicalName(op) + "_right_term"), r);
      visited.Some? && RequireLastVar(visited.value).Some?
    ensures var st1 := AddBlock(t.st, LogicalName(op) + "_right_term"); var st2 := VisitExpr(st1, r).value;
      var st3 := AddBlock(ReserveInstr(st2), LogicalName(op) + "_merge");
      Kept(st0, ix0, st3, ix') && Ready(st3) &&
      BothTerms(st0, t, LastRef(st1), RequireLastVar(st2).value, st2.instrId, st3, ix')
    decreases r, 2
  {
    hide Inv, Step, AddBlock, Late, IsBlock, IsPlace, VisitExpr, RequireLastVar, EmitResult;
    var st1 := AddBlock(t.st, LogicalName(op) + "_right_term");
    NewBlockKept(st0, ix0, t.st, ix, LogicalName(op) + "_right_term");
    var st2 := VisitExpr(st1, r).value;
    ix' := ExprKeeps(st1, ix, r);
    KeptLast(st1, ix, st2, ix');
    KeptWaits(st1, ix, st2, ix');
    KeptTrans(st0, ix0, st1, ix, st2, ix');
    SealKept(st0, ix0, st2, ix', LastRef(st1));
    NewBlockKept(st0, ix0, ReserveInstr(st2), ix', LogicalName(op) + "_merge");
  }

  /** Both terms are lowered, and their jumps to the merge block are still to come. */
  ghost predicate BothTerms(st0: State, t: LeftTerm, right: BlockRef, rv: VarId, rightJump: nat, st: State, ix: Index)
    requires HasBlock(st)
  {
    && LeftOk(st0, t, st, ix)
    && Pending(st, ix, rightJump, right) && rightJump >= st0.instrId && rightJump != t.leftJump && right != t.left
    && !IsBlock(st0, right) && right.fn == |st0.functions| - 1
    && right != LastRef(st) && t.left != LastRef(st) && rv in ix.def
  }

  lemma FinishKeeps(st0: State, ix0: Index, st: State, ix: Index, op: InfixOp, t: LeftTerm, right: BlockRef, rv: VarId, rightJump: nat)
    returns (ix': Index)
    requires Kept(st0, ix0, st, ix) && Ready(st) && BothTerms(st0, t, right, rv, rightJump, st, ix)
    ensures Kept(st0, ix0, FinishLogical(st, op, t, right, rv, rightJump), ix')
  {
    hide Inv, Step, AddOperands, EmitResult, InsertJump, Late, Pending, IsBlock;
    var merge := LastRef(st);
    var labels := if op == And then [Local(t.leftVar), Label(right), Label(merge)] else [Local(t.leftVar), Label(merge), Label(right)];
    FinishParts(st0, ix0, st, ix, t, right, rightJump);
    var st1 := AddOperands(st, t.branch, t.place, labels);
    AddOperandsKept(st0, ix0, st, ix, t.branch, t.place, labels);
    KeptRefl(st1, ix);
    var st2 := EmitResult(st1, ConstBool, [BoolConst(op == Or)]);
    var ix2 := EmitResultKept(st1, ix, st1, ix, ConstBool, [BoolConst(op == Or)]);
    var sel := if op == And then [Local(t.branchVar), Local(rv), Local(st1.varId)] else [Local(t.branchVar), Local(st1.varId), Local(rv)];
    var st3 := EmitResult(st2, Phi, sel);
    var ix3 := EmitResultKept(st1, ix, st2, ix2, Phi, sel);
    KeptWaits(st1, ix, st3, ix3);
    KeptTrans(st0, ix0, st1, ix, st3, ix3);
    ix' := TwoJumpsKeep(st0, ix0, st3, ix3, t.leftJump, t.left, rightJump, right, merge);
    InsertKeepsBlock(st3, t.leftJump, t.left, merge);
    InsertKeepsBlock(InsertJump(st3, t.leftJump, t.left, merge), rightJump, right, merge);
  }

  lemma InsertKeepsBlock(st: State, id: nat, r: BlockRef, target: BlockRef)
    requires HasBlock(st)
    ensures HasBlock(InsertJump(st, id, r, target)) && LastRef(InsertJump(st, id, r, target)) == LastRef(st)
    ensures forall q :: IsBlock(InsertJump(st, id, r, target), q) <==> IsBlock(st, q)
  {}

  lemma FinishParts(st0: State, ix0: Index, st: State, ix: Index, t: LeftTerm, right: BlockRef, rightJump: nat)
    requires Kept(st0, ix0, st, ix) && LeftOk(st0, t, st, ix) && Pending(st, ix, rightJump, right)
    ensures t.leftVar in ix.def && IsBlock(st, right) && IsBlock(st, LastRef(st)) && LastRef(st).fn == |st0.functions| - 1
  {
    hide Inv;
  }
}
