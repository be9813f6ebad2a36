/** Where control goes: the operands of the conditional jumps, and the jumps that end the
    blocks of a short-circuit operator, an `If` and a `Loop`. */
module MirTargets {
  import opened Ast
  import opened Statements
  import opened Scopes
  import opened Mir
  import opened MirFactory
  import opened MirBuilder
  import opened MirShape
  import opened MirSteps
  import opened MirSsa
  import opened MirProgram
  import opened MirBlocks

  ghost predicate JumpsTo(st: State, r: BlockRef, target: BlockRef) {
    && IsBlock(st, r) && Instructions(st, r) != []
    && var x := Instructions(st, r)[|Instructions(st, r)| - 1];
       x.op == Jump && x.operands == [Label(target)] && x.result.None?
  }

  ghost predicate Branches(st: State, r: BlockRef, i: nat, operands: seq<Operand>, result: VarId) {
    && IsPlace(st, r, i) && Get(st, r, i).op == CondJump
    && Get(st, r, i).operands == operands && Get(st, r, i).result == Some(result)
  }

  lemma KeptBranch(a: State, ia: Index, b: State, ib: Index, r: BlockRef, i: nat, operands: seq<Operand>, result: VarId)
    requires Kept(a, ia, b, ib) && Branches(a, r, i, operands, result)
    ensures Branches(b, r, i, operands, result)
  {
    hide Inv;
  }

  /** A finished block stays finished: only the last block grows. */
  lemma KeptJump(a: State, ia: Index, b: State, ib: Index, r: BlockRef, target: BlockRef)
    requires Kept(a, ia, b, ib) && JumpsTo(a, r, target) && r != LastRef(a)
    ensures JumpsTo(b, r, target)
  {
    hide Inv;
    assert IsBlock(b, r) && |Instructions(b, r)| == |Instructions(a, r)|;
    var i: nat := |Instructions(a, r)| - 1;
    assert IsPlace(a, r, i) && Get(b, r, i) == Get(a, r, i);
  }

  /** Inserting a jump puts it at the end of its block and leaves everything else alone. */
  lemma InsertedJump(st: State, id: nat, r: BlockRef, target: BlockRef)
    requires IsBlock(st, r)
    ensures var st' := InsertJump(st, id, r, target);
      && JumpsTo(st', r, target)
      && (forall q, i: nat :: IsPlace(st, q, i) ==> IsPlace(st', q, i) && Get(st', q, i) == Get(st, q, i))
      && (forall q :: IsBlock(st, q) ==> IsBlock(st', q))
      && (forall q :: IsBlock(st, q) && q != r ==> Instructions(st', q) == Instructions(st, q))
  {
    var jump := Instruction(id, Jump, [Label(target)], None);
    AppendPlaces(st, r, jump);
    SetPlaces(st, r, Instructions(st, r) + [jump]);
  }

  lemma TwoJumps(st: State, id1: nat, r1: BlockRef, id2: nat, r2: BlockRef, target: BlockRef)
    requires HasBlock(st) && IsBlock(st, r1) && IsBlock(st, r2) && r1 != r2
    ensures var st' := InsertJump(InsertJump(st, id1, r1, target), id2, r2, target);
      && JumpsTo(st', r1, target) && JumpsTo(st', r2, target) && HasBlock(st') && LastRef(st') == LastRef(st)
      && (forall q, i: nat :: IsPlace(st, q, i) ==> IsPlace(st', q, i) && Get(st', q, i) == Get(st, q, i))
      && (forall q :: IsBlock(st, q) ==> IsBlock(st', q))
      && (forall q :: IsBlock(st, q) && q != r1 && q != r2 ==> Instructions(st', q) == Instructions(st, q))
  {
    InsertedJump(st, id1, r1, target);
    InsertKeepsBlock(st, id1, r1, target);
    var st1 := InsertJump(st, id1, r1, target);
    InsertedJump(st1, id2, r2, target);
    InsertKeepsBlock(st1, id2, r2, target);
    hide InsertJump;
  }

  lemma PlacesBranch(a: State, b: State, r: BlockRef, i: nat, operands: seq<Operand>, cv: VarId)
    requires Branches(a, r, i, operands, cv)
    requires forall q, k: nat :: IsPlace(a, q, k) ==> IsPlace(b, q, k) && Get(b, q, k) == Get(a, q, k)
    ensures Branches(b, r, i, operands, cv)
  {
    hide IsPlace, Get;
  }

  // ---- Short-circuit operators ------------------------------------------------------------

  function Apply(op: InfixOp, a: bool, b: bool): bool {
    if op == And then a && b else a || b
  }

  /** The right term makes no difference. */
  predicate Decides(op: InfixOp, a: bool) {
    Apply(op, a, true) == Apply(op, a, false)
  }

  /** Which label a conditional jump takes. */
  function Taken(store: map<VarId, bool>, operands: seq<Operand>): Option<BlockRef> {
    if |operands| == 3 && operands[0].Local? && operands[0].v in store && operands[1].Label? && operands[2].Label? then
      Some(if store[operands[0].v] then operands[1].target else operands[2].target)
    else None
  }

  /** Which variable a PHI with a condition selects. */
  function Selected(store: map<VarId, bool>, operands: seq<Operand>): Option<bool> {
    if |operands| == 3 && operands[0].Local? && operands[0].v in store && operands[1].Local? && operands[2].Local? then
      var v := if store[operands[0].v] then operands[1].v else operands[2].v;
      if v in store then Some(store[v]) else None
    else None
  }

  /** The conditional jump goes to the right term exactly when the left one does not decide;
      the blocks both terms begin in end with a jump to the merge block; and the merge block's
      last instruction selects the operator's value. Its condition is the conditional jump's
      result, which stands for the left term's value. */
  ghost predicate ShortCircuits(st: State, op: InfixOp, left: BlockRef, right: BlockRef, merge: BlockRef,
                                branch: BlockRef, place: nat, lv: VarId, cv: VarId, rv: VarId) {
    && JumpsTo(st, left, merge) && JumpsTo(st, right, merge) && left != right && left != merge && right != merge
    && IsPlace(st, branch, place) && Get(st, branch, place).op == CondJump && Get(st, branch, place).result == Some(cv)
    && IsBlock(st, merge) && |Instructions(st, merge)| == 2
    && var short, phi := Instructions(st, merge)[0], Instructions(st, merge)[1];
       && short.op == ConstBool && short.operands == [BoolConst(op == Or)] && short.result.Some?
       && phi.op == Phi && phi.result.Some?
       && Chooses(op, lv, cv, rv, short.result.value, right, merge, Get(st, branch, place).operands, phi.operands)
  }

  ghost predicate Chooses(op: InfixOp, lv: VarId, cv: VarId, rv: VarId, short: VarId, right: BlockRef, merge: BlockRef,
                          labels: seq<Operand>, choice: seq<Operand>) {
    forall store: map<VarId, bool> :: {lv, cv, rv, short} <= store.Keys && store[cv] == store[lv] && store[short] == (op == Or) ==>
      && Taken(store, labels) == Some(if Decides(op, store[lv]) then merge else right)
      && Selected(store, choice) == Some(Apply(op, store[lv], store[rv]))
  }

  /** The instructions of the merge block and the labels of the conditional jump. */
  function Labels(op: InfixOp, t: LeftTerm, right: BlockRef, merge: BlockRef): seq<Operand> {
    if op == And then [Local(t.leftVar), Label(right), Label(merge)] else [Local(t.leftVar), Label(merge), Label(right)]
  }

  function Choice(op: InfixOp, t: LeftTerm, rv: VarId, short: VarId): seq<Operand> {
    if op == And then [Local(t.branchVar), Local(rv), Local(short)] else [Local(t.branchVar), Local(short), Local(rv)]
  }

  lemma FinishFlow(st: State, op: InfixOp, t: LeftTerm, right: BlockRef, rv: VarId, rightJump: nat)
    requires Ready(st) && (op == And || op == Or) && IsBlock(st, t.left) && IsBlock(st, right)
    requires t.left != right && t.left != LastRef(st) && right != LastRef(st)
    requires Branches(st, t.branch, t.place, [], t.branchVar) && Instructions(st, LastRef(st)) == []
    ensures LastRef(FinishLogical(st, op, t, right, rv, rightJump)) == LastRef(st)
    ensures ShortCircuits(FinishLogical(st, op, t, right, rv, rightJump), op, t.left, right, LastRef(st),
                          t.branch, t.place, t.leftVar, t.branchVar, rv)
    ensures forall q :: IsBlock(st, q) && q !in {t.branch, t.left, right, LastRef(st)} ==>
      IsBlock(FinishLogical(st, op, t, right, rv, rightJump), q)
      && Instructions(FinishLogical(st, op, t, right, rv, rightJump), q) == Instructions(st, q)
  {
    hide InsertJump, AddOperands, EmitResult, Apply, JumpsTo, Chooses, Branches, ShortCircuits;
    var merge := LastRef(st);
    var st1 := AddOperands(st, t.branch, t.place, Labels(op, t, right, merge));
    LateOperands(st, t.branch, t.place, [], Labels(op, t, right, merge), t.branchVar);
    assert [] + Labels(op, t, right, merge) == Labels(op, t, right, merge);
    LastIsBlock(st1);
    var st3 := SelectAndJump(st1, op, t, right, rv, rightJump, merge);
    assert st3 == FinishLogical(st, op, t, right, rv, rightJump);
  }

  /** The merge block is filled, and the blocks both terms begin in jump to it. */
  lemma SelectAndJump(st: State, op: InfixOp, t: LeftTerm, right: BlockRef, rv: VarId, rightJump: nat, merge: BlockRef) returns (st': State)
    requires HasBlock(st) && LastRef(st) == merge && IsBlock(st, merge) && Instructions(st, merge) == [] && (op == And || op == Or)
    requires IsBlock(st, t.left) && IsBlock(st, right) && t.left != right && t.left != merge && right != merge
    requires Branches(st, t.branch, t.place, Labels(op, t, right, merge), t.branchVar)
    ensures var st2 := EmitResult(EmitResult(st, ConstBool, [BoolConst(op == Or)]), Phi, Choice(op, t, rv, st.varId));
      st' == InsertJump(InsertJump(st2, t.leftJump, t.left, merge), rightJump, right, merge)
    ensures HasBlock(st') && LastRef(st') == merge
    ensures ShortCircuits(st', op, t.left, right, merge, t.branch, t.place, t.leftVar, t.branchVar, rv)
    ensures forall q :: IsBlock(st, q) && q !in {t.left, right, merge} ==> IsBlock(st', q) && Instructions(st', q) == Instructions(st, q)
  {
    hide InsertJump, EmitResult, Apply, JumpsTo, Chooses, Branches, ShortCircuits, Labels, Choice;
    var st2 := EmitResult(EmitResult(st, ConstBool, [BoolConst(op == Or)]), Phi, Choice(op, t, rv, st.varId));
    TwoEmitted(st, ConstBool, [BoolConst(op == Or)], Phi, Choice(op, t, rv, st.varId));
    PlacesBranch(st, st2, t.branch, t.place, Labels(op, t, right, merge), t.branchVar);
    TwoJumps(st2, t.leftJump, t.left, rightJump, right, merge);
    st' := InsertJump(InsertJump(st2, t.leftJump, t.left, merge), rightJump, right, merge);
    PlacesBranch(st2, st', t.branch, t.place, Labels(op, t, right, merge), t.branchVar);
    hide IsPlace, Get;
    Assembled(st', op, t, right, rv, merge, Instructions(st', merge)[0], Instructions(st', merge)[1]);
  }

  lemma Assembled(st: State, op: InfixOp, t: LeftTerm, right: BlockRef, rv: VarId, merge: BlockRef, short: Instruction, phi: Instruction)
    requires op == And || op == Or
    requires JumpsTo(st, t.left, merge) && JumpsTo(st, right, merge) && t.left != right && t.left != merge && right != merge
    requires Branches(st, t.branch, t.place, Labels(op, t, right, merge), t.branchVar)
    requires IsBlock(st, merge) && Instructions(st, merge) == [short, phi]
    requires short.op == ConstBool && short.operands == [BoolConst(op == Or)] && short.result.Some?
    requires phi.op == Phi && phi.operands == Choice(op, t, rv, short.result.value) && phi.result.Some?
    ensures ShortCircuits(st, op, t.left, right, merge, t.branch, t.place, t.leftVar, t.branchVar, rv)
  {
    Completed(st, t.branch, t.place, Labels(op, t, right, merge), t.branchVar);
    OperandsChoose(op, t.leftVar, t.branchVar, rv, short.result.value, right, merge);
    hide JumpsTo, Chooses, IsPlace, Get, Branches;
  }

  lemma Completed(st: State, r: BlockRef, i: nat, operands: seq<Operand>, result: VarId)
    requires Branches(st, r, i, operands, result)
    ensures IsPlace(st, r, i) && Get(st, r, i).op == CondJump && Get(st, r, i).operands == operands && Get(st, r, i).result == Some(result)
  {}

  lemma TwoEmitted(st: State, op1: Opcode, os1: seq<Operand>, op2: Opcode, os2: seq<Operand>)
    requires HasBlock(st)
    ensures var st' := EmitResult(EmitResult(st, op1, os1), op2, os2); var r := LastRef(st);
      && HasBlock(st') && LastRef(st') == r
      && Instructions(st', r) ==
           Instructions(st, r) + [Instruction(st.instrId, op1, os1, Some(st.varId)), Instruction(st.instrId + 1, op2, os2, Some(st.varId + 1))]
      && (forall q :: IsBlock(st, q) ==> IsBlock(st', q))
      && (forall q, i: nat :: IsPlace(st, q, i) ==> IsPlace(st', q, i) && Get(st', q, i) == Get(st, q, i))
      && (forall q :: IsBlock(st, q) && q != r ==> Instructions(st', q) == Instructions(st, q))
  {
    EmittedLast(st, op1, os1);
    assert EmitResult(st, op1, os1).instrId == st.instrId + 1 && EmitResult(st, op1, os1).varId == st.varId + 1;
    hide EmitResult, IsPlace, Get, IsBlock;
    EmittedLast(EmitResult(st, op1, os1), op2, os2);
  }

  lemma OperandsChoose(op: InfixOp, lv: VarId, cv: VarId, rv: VarId, short: VarId, right: BlockRef, merge: BlockRef)
    requires op == And || op == Or
    ensures Chooses(op, lv, cv, rv, short, right, merge,
      if op == And then [Local(lv), Label(right), Label(merge)] else [Local(lv), Label(merge), Label(right)],
      if op == And then [Local(cv), Local(rv), Local(short)] else [Local(cv), Local(short), Local(rv)])
  {}

  lemma LateOperands(st: State, r: BlockRef, i: nat, first: seq<Operand>, operands: seq<Operand>, result: VarId)
    requires HasBlock(st) && Branches(st, r, i, first, result)
    ensures var st' := AddOperands(st, r, i, operands);
      && HasBlock(st') && LastRef(st') == LastRef(st) && Branches(st', r, i, first + operands, result)
      && (forall q :: IsBlock(st, q) ==> IsBlock(st', q))
      && (Instructions(st, LastRef(st)) == [] ==> Instructions(st', LastRef(st)) == [])
      && (forall q :: IsBlock(st, q) && q != r ==> Instructions(st', q) == Instructions(st, q))
  {
    AddOperandsPlaces(st, r, i, operands);
    var instr := Get(st, r, i);
    SetPlaces(st, r, Instructions(st, r)[i := instr.(operands := instr.operands + operands)]);
  }

  lemma EmittedLast(st: State, op: Opcode, operands: seq<Operand>)
    requires HasBlock(st)
    ensures var st' := EmitResult(st, op, operands);
      && HasBlock(st') && LastRef(st') == LastRef(st)
      && Instructions(st', LastRef(st)) == Instructions(st, LastRef(st)) + [Instruction(st.instrId, op, operands, Some(st.varId))]
      && (forall q :: IsBlock(st, q) ==> IsBlock(st', q))
      && (forall q, i: nat :: IsPlace(st, q, i) ==> IsPlace(st', q, i) && Get(st', q, i) == Get(st, q, i))
      && (forall q :: IsBlock(st, q) && q != LastRef(st) ==> Instructions(st', q) == Instructions(st, q))
  {
    var c := ReserveInstr(CreateVar(st));
    AppendPlaces(c, LastRef(c), Instruction(st.instrId, op, operands, Some(st.varId)));
    EmitFrame(CreateVar(st), op, operands, Some(st.varId));
  }

  /** Entering a block: the block before it ends with a jump to it. */
  lemma Entered(st: State, prefix: string)
    requires Ready(st)
    ensures var st' := EnterBlock(st, prefix); JumpsTo(st', LastRef(st), LastRef(st')) && LastRef(st') != LastRef(st)
  {
    EmitFrame(st, Jump, [], None);
    var st1 := Emit(st, Jump, [], None);
    AddBlockPlaces(st1, prefix);
    hide Emit, AddBlock;
    AddOperandsPlaces(AddBlock(st1, prefix), LastRef(st), |Instructions(st, LastRef(st))|, [Label(LastRef(AddBlock(st1, prefix)))]);
  }

  lemma LeftTermFlow(st: State, ix: Index, op: InfixOp, l: Expr)
    requires Inv(st, ix) && Ready(st) && VisitLeftTerm(st, op, l).Some?
    ensures var t := VisitLeftTerm(st, op, l).value;
      && Branches(t.st, t.branch, t.place, [], t.branchVar) && JumpsTo(t.st, LastRef(st), t.left)
      && LastRef(st) != t.branch && LastRef(st) != t.left && LastRef(st) != LastRef(t.st)
  {
    hide Inv, EmitResult, EnterBlock, JumpsTo, VisitExpr;
    var st1 := EnterBlock(st, LogicalName(op) + "_left_term");
    Entered(st, LogicalName(op) + "_left_term");
    var ix1 := EnterBlockKeeps(st, ix, LogicalName(op) + "_left_term");
    var st2 := VisitExpr(st1, l).value;
    var ix2 := ExprKeeps(st1, ix1, l);
    KeptJump(st1, ix1, st2, ix2, LastRef(st), LastRef(st1));
    LaterBlock(st, ix, st1, ix1, st2, ix2);
    EmittedLast(st2, CondJump, []);
    SameJump(st2, EmitResult(st2, CondJump, []), LastRef(st), LastRef(st1));
    SameJump(EmitResult(st2, CondJump, []), ReserveInstr(EmitResult(st2, CondJump, [])), LastRef(st), LastRef(st1));
  }

  lemma SameJump(a: State, b: State, r: BlockRef, target: BlockRef)
    requires JumpsTo(a, r, target) && IsBlock(b, r) && Instructions(b, r) == Instructions(a, r)
    ensures JumpsTo(b, r, target)
  {}

  /** Once a new block is begun, an earlier one is never the last again. */
  lemma LaterBlock(a: State, ia: Index, b: State, ib: Index, c: State, ic: Index)
    requires Kept(a, ia, b, ib) && Kept(b, ib, c, ic) && !IsBlock(a, LastRef(b))
    ensures LastRef(c) != LastRef(a) && IsBlock(c, LastRef(a))
  {
    hide Inv;
    LastBlockOpen(a, ia, b, ib);
    LastBlockOpen(b, ib, c, ic);
    LastIsBlock(a);
  }

  lemma RightTermFlow(op: InfixOp, r: Expr, t: LeftTerm, ix: Index) returns (ix': Index)
    requires HasBlock(t.st) && Inv(t.st, ix) && Ready(t.st) && IsBlock(t.st, t.left)
    requires Ready(AddBlock(t.st, LogicalName(op) + "_right_term"))
    requires var visited := VisitExpr(AddBlock(t.st, LogicalName(op) + "_right_term"), r);
      visited.Some? && RequireLastVar(visited.value).Some?
    ensures var st1 := AddBlock(t.st, LogicalName(op) + "_right_term"); var st2 := VisitExpr(st1, r).value;
      var st3 := AddBlock(ReserveInstr(st2), LogicalName(op) + "_merge");
      && Kept(t.st, ix, st3, ix') && Ready(st3) && IsBlock(st3, LastRef(st1)) && LastRef(st1) != t.left
      && LastRef(st1) != LastRef(st3) && !IsBlock(t.st, LastRef(st3)) && Instructions(st3, LastRef(st3)) == []
      && !IsBlock(t.st, LastRef(st1))
  {
    hide Inv, Step, AddBlock, IsPlace, VisitExpr;
    var st1 := AddBlock(t.st, LogicalName(op) + "_right_term");
    KeptRefl(t.st, ix);
    NewBlockKept(t.st, ix, t.st, ix, LogicalName(op) + "_right_term");
    var st2 := VisitExpr(st1, r).value;
    ix' := ExprKeeps(st1, ix, r);
    KeptTrans(t.st, ix, st1, ix, st2, ix');
    ReserveOnly(t.st, ix, st2, ix');
    ReserveOnly(st1, ix, st2, ix');
    NewBlockKept(t.st, ix, ReserveInstr(st2), ix', LogicalName(op) + "_merge");
    NewBlockKept(st1, ix, ReserveInstr(st2), ix', LogicalName(op) + "_merge");
    AddBlockPlaces(ReserveInstr(st2), LogicalName(op) + "_merge");
    KeptBlocks(st1, ix, AddBlock(ReserveInstr(st2), LogicalName(op) + "_merge"), ix');
  }

  lemma KeptBlocks(a: State, ia: Index, b: State, ib: Index)
    requires Kept(a, ia, b, ib)
    ensures forall r :: IsBlock(a, r) ==> IsBlock(b, r)
  {
    hide Inv;
  }

  lemma ReserveOnly(st0: State, ix0: Index, st: State, ix: Index)
    requires Kept(st0, ix0, st, ix)
    ensures Kept(st0, ix0, ReserveInstr(st), ix) && LastRef(ReserveInstr(st)) == LastRef(st)
  {
    hide Inv, Step;
    ReserveKeeps(st0, ix0, st, ix);
  }

  /** The block the right term begins in, and its variable. */
  function RightTerm(t: LeftTerm, op: InfixOp, r: Expr): Option<(BlockRef, VarId)>
    requires Ready(t.st)
  {
    var st1 := AddBlock(t.st, LogicalName(op) + "_right_term");
    var st2 :- VisitExpr(st1, r);
    var v :- RequireLastVar(st2);
    Some((LastRef(st1), v))
  }

  /** A lowered `&&` or `||`: control reaches the left term, the conditional jump and the selection
      are those of the short-circuit operator, and the jumps to the merge block stand in the blocks
      the terms begin in. */
  lemma LogicalFlow(st: State, ix: Index, op: InfixOp, l: Expr, r: Expr)
    requires Inv(st, ix) && Ready(st) && (op == And || op == Or) && VisitLogical(st, op, l, r).Some?
    ensures JumpsTo(VisitLogical(st, op, l, r).value, LastRef(st), VisitLeftTerm(st, op, l).value.left)
    ensures var st' := VisitLogical(st, op, l, r).value; var t := VisitLeftTerm(st, op, l).value;
      RightTerm(t, op, r).Some? && (
      var (right, rv) := RightTerm(t, op, r).value;
      ShortCircuits(st', op, t.left, right, LastRef(st'), t.branch, t.place, t.leftVar, t.branchVar, rv))
  {
    hide Inv, AddBlock, FinishLogical, VisitLeftTerm, VisitExpr, RequireLastVar, JumpsTo, ShortCircuits, LeftOk, Step, Branches;
    var t := VisitLeftTerm(st, op, l).value;
    var ixT := LeftTermKeeps(st, ix, op, l);
    LeftIsBlock(st, t, ixT);
    LeftTermFlow(st, ix, op, l);
    var st1 := AddBlock(t.st, LogicalName(op) + "_right_term");
    var st2 := VisitExpr(st1, r).value;
    var ix3 := RightTermFlow(op, r, t, ixT);
    var st3 := AddBlock(ReserveInstr(st2), LogicalName(op) + "_merge");
    KeptBranch(t.st, ixT, st3, ix3, t.branch, t.place, [], t.branchVar);
    KeptJump(t.st, ixT, st3, ix3, LastRef(st), t.left);
    KeptBlocks(t.st, ixT, st3, ix3);
    KeptBlocks(st, ix, t.st, ixT);
    LastIsBlock(st);
    FinishFlow(st3, op, t, LastRef(st1), RequireLastVar(st2).value, st2.instrId);
    SameJump(st3, VisitLogical(st, op, l, r).value, LastRef(st), t.left);
  }

  lemma LeftIsBlock(st: State, t: LeftTerm, ix: Index)
    requires LeftOk(st, t, t.st, ix)
    ensures IsBlock(t.st, t.left) && !IsBlock(st, t.left)
  {}

  // ---- If ---------------------------------------------------------------------------------

  /** Lowering a branch adds its label, and nothing else, to the conditional jump. */
  lemma BranchFlow(order: Order, st0: State, ix0: Index, st: State, ix: Index, prefix: string, branch: BlockRef, place: nat,
                   code: seq<Stmt>, first: seq<Operand>, cv: VarId)
    requires Inv(st0, ix0) && Kept(st0, ix0, st, ix) && Ready(st) && IsOrder(order) && branch.fn == LastRef(st).fn
    requires !IsPlace(st0, branch, place) && Branches(st, branch, place, first, cv)
    requires VisitBranch(order, st, prefix, branch, place, code).Some?
    ensures var b := VisitBranch(order, st, prefix, branch, place, code).value;
      Branches(b.st, branch, place, first + [Label(b.block)], cv) && b.block == LastRef(AddBlock(st, prefix)) && LastRef(b.st) != LastRef(st)
  {
    hide Inv, Step, AddBlock, AddOperands, VisitInNewEnv, IsBlock, Branches;
    var st1 := AddBlock(st, prefix);
    NewBlockKept(st0, ix0, st, ix, prefix);
    KeptRefl(st, ix);
    NewBlockKept(st, ix, st, ix, prefix);
    KeptBranch(st, ix, st1, ix, branch, place, first, cv);
    var st2 := AddOperands(st1, branch, place, [Label(LastRef(st1))]);
    AddOperandsKept(st0, ix0, st1, ix, branch, place, [Label(LastRef(st1))]);
    LateOperands(st1, branch, place, first, [Label(LastRef(st1))], cv);
    var visited := VisitInNewEnv(order, st2, code).value;
    var ix' := NewEnvKeeps(order, st2, ix, code);
    AddBlockPlaces(st, prefix);
    LastBlockOpen(st2, ix, visited.0, ix');
    KeptBranch(st2, ix, visited.0, ix', branch, place, first + [Label(LastRef(st1))], cv);
    SameBranch(visited.0, ReserveInstr(visited.0), branch, place, first + [Label(LastRef(st1))], cv);
  }

  lemma SameBranch(a: State, b: State, r: BlockRef, i: nat, operands: seq<Operand>, cv: VarId)
    requires Branches(a, r, i, operands, cv) && a.functions == b.functions
    ensures Branches(b, r, i, operands, cv)
  {}

  lemma BranchBlock(st0: State, b: Branch, st: State, ix: Index)
    requires BranchOk(st0, b, st, ix)
    ensures IsBlock(st, b.block)
  {}

  lemma JoinFlow(order: Order, st0: State, ix0: Index, st: State, ix: Index, t: Branch, e: Branch,
                 branch: BlockRef, place: nat, operands: seq<Operand>, cv: VarId)
    requires Kept(st0, ix0, st, ix) && Ready(st) && IsOrder(order) && t.env != [] && Branches(st, branch, place, operands, cv)
    requires BranchOk(st0, t, st, ix) && BranchOk(st0, e, st, ix) && t.jump != e.jump && t.block != e.block
    ensures var st' := JoinBranches(order, st, t, e);
      && Branches(st', branch, place, operands, cv)
      && JumpsTo(st', t.block, LastRef(st')) && JumpsTo(st', e.block, LastRef(st'))
  {
    hide Inv, Step, AddBlock, Pending, IsBlock, EnvOk, InsertJump, MergeEnvs, JumpsTo, Branches;
    var st1 := AddBlock(st, "if_merge");
    KeptRefl(st, ix);
    MergeBlockKept(st, ix, st, ix);
    KeptBranch(st, ix, st1, ix, branch, place, operands, cv);
    MergeBlockKept(st0, ix0, st, ix);
    var merge := LastRef(st1);
    var st2 := InsertJump(InsertJump(st1, t.jump, t.block, merge), e.jump, e.block, merge);
    BranchBlock(st0, t, st1, ix);
    BranchBlock(st0, e, st1, ix);
    TwoJumps(st1, t.jump, t.block, e.jump, e.block, merge);
    PlacesBranch(st1, st2, branch, place, operands, cv);
    var ix2 := TwoJumpsKeep(st0, ix0, st1, ix, t.jump, t.block, e.jump, e.block, merge);
    EnvStep(st1, ix, st2, ix2, t.env);
    EnvStep(st1, ix, st2, ix2, e.env);
    KeptRefl(st2, ix2);
    var ix' := MergeEnvsKeep(order, st2, ix2, st2, ix2, t.env, e.env);
    var merged := MergeEnvs(order, st2, t.env, e.env);
    KeptJump(st2, ix2, merged.0, ix', t.block, merge);
    KeptJump(st2, ix2, merged.0, ix', e.block, merge);
    KeptBranch(st2, ix2, merged.0, ix', branch, place, operands, cv);
    MergeSameLast(order, st2, t.env, e.env);
    SameFlow(merged.0, merged.0.(varEnv := merged.1));
  }

  lemma SameFlow(a: State, b: State)
    requires a.functions == b.functions && HasBlock(a)
    ensures HasBlock(b) && LastRef(b) == LastRef(a)
    ensures forall r, target :: JumpsTo(a, r, target) ==> JumpsTo(b, r, target)
    ensures forall r, i: nat, operands, cv :: Branches(a, r, i, operands, cv) ==> Branches(b, r, i, operands, cv)
  {}

  lemma JoinOneFlow(order: Order, st0: State, ix0: Index, st: State, ix: Index, t: Branch, env: Stack<Site>,
                    branch: BlockRef, place: nat, operands: seq<Operand>, cv: VarId)
    requires Kept(st0, ix0, st, ix) && Ready(st) && IsOrder(order) && BranchOk(st0, t, st, ix) && EnvOk(st, ix, env)
    requires Branches(st, branch, place, operands, cv)
    ensures var st2 := AddBlock(st, "if_merge"); var st3 := InsertJump(st2, t.jump, t.block, LastRef(st2));
      HasBlock(st3) && (
      var st' := MergeEnvs(order, st3, env, t.env).0.(varEnv := env);
      && HasBlock(st') && Branches(st', branch, place, operands, cv) && JumpsTo(st', t.block, LastRef(st')))
  {
    hide Inv, Step, AddBlock, Pending, IsBlock, EnvOk, InsertJump, MergeEnvs, JumpsTo, Branches;
    var st2 := AddBlock(st, "if_merge");
    KeptRefl(st, ix);
    MergeBlockKept(st, ix, st, ix);
    KeptBranch(st, ix, st2, ix, branch, place, operands, cv);
    MergeBlockKept(st0, ix0, st, ix);
    var st3 := InsertJump(st2, t.jump, t.block, LastRef(st2));
    BranchBlock(st0, t, st2, ix);
    InsertedJump(st2, t.jump, t.block, LastRef(st2));
    InsertKeepsBlock(st2, t.jump, t.block, LastRef(st2));
    PlacesBranch(st2, st3, branch, place, operands, cv);
    var ix3 := InsertJumpKeeps(st0, ix0, st2, ix, t.jump, t.block, LastRef(st2));
    EnvStep(st2, ix, st3, ix3, t.env);
    EnvStep(st, ix, st3, ix3, env);
    KeptRefl(st3, ix3);
    var ix' := MergeEnvsKeep(order, st3, ix3, st3, ix3, env, t.env);
    var merged := MergeEnvs(order, st3, env, t.env);
    KeptJump(st3, ix3, merged.0, ix', t.block, LastRef(st2));
    KeptBranch(st3, ix3, merged.0, ix', branch, place, operands, cv);
    MergeSameLast(order, st3, env, t.env);
    SameFlow(merged.0, merged.0.(varEnv := env));
  }

  /** What control does at an `If`: to the first branch, to the alternative if there is one, and
      from both to the merge block. Without an alternative the conditional jump has no label
      for a false condition. */
  ghost predicate IfFlows(st: State, branch: BlockRef, place: nat, test: VarId, cv: VarId, blocks: seq<BlockRef>) {
    && HasBlock(st)
    && Branches(st, branch, place, [Local(test)] + seq(|blocks|, i requires 0 <= i < |blocks| => Label(blocks[i])), cv)
    && (forall i :: 0 <= i < |blocks| ==> JumpsTo(st, blocks[i], LastRef(st)))
    && (forall i, j :: 0 <= i < j < |blocks| ==> blocks[i] != blocks[j])
  }

  lemma {:induction false} BranchesFlow(order: Order, st0: State, ix0: Index, st: State, ix: Index, s: Stmt, test: VarId, cv: VarId)
    returns (blocks: seq<BlockRef>)
    requires Inv(st0, ix0) && Kept(st0, ix0, st, ix) && Ready(st) && IsOrder(order) && s.If? && LastBlock(st).instructions != []
    requires !IsPlace(st0, LastRef(st), |LastBlock(st).instructions| - 1) && VisitBranches(order, st, s).Some?
    requires Branches(st, LastRef(st), |LastBlock(st).instructions| - 1, [Local(test)], cv)
    ensures |blocks| == (if s.onFalse.NoElse? then 1 else 2) && blocks[0] == LastRef(AddBlock(st, "if_then"))
    ensures s.onFalse.Else? ==> SecondBranch(order, st, s).Some? && blocks[1] == SecondBranch(order, st, s).value.block
    ensures IfFlows(VisitBranches(order, st, s).value, LastRef(st), |LastBlock(st).instructions| - 1, test, cv, blocks)
  {
    hide Inv, Step, VisitBranch, AddBlock, InsertJump, MergeEnvs, JoinBranches, EnvOk, BranchOk, IsPlace, IsBlock, Branches, JumpsTo;
    EnvOf(st, ix);
    LastIsBlock(st);
    var branch := LastRef(st);
    var place := |Instructions(st, branch)| - 1;
    var t := VisitBranch(order, st, "if_then", branch, place, s.onTrue).value;
    var ix1 := BranchKeeps(order, st0, ix0, st, ix, "if_then", branch, place, s.onTrue);
    BranchFlow(order, st0, ix0, st, ix, "if_then", branch, place, s.onTrue, [Local(test)], cv);
    EnvStep(st, ix, t.st, ix1, st.varEnv);
    RestoreKept(st0, ix0, t.st, ix1, st.varEnv);
    var st1 := t.st.(varEnv := st.varEnv);
    SameFlow(t.st, st1);
    KeptSameFn(st0, ix0, st, ix);
    KeptSameFn(st0, ix0, st1, ix1);
    var os := [Local(test)] + [Label(t.block)];
    if s.onFalse.NoElse? {
      EnvStep(t.st, ix1, st1, ix1, st.varEnv) by { SameFunctions(t.st, st1); }
      blocks := [t.block];
      assert os == [Local(test)] + seq(|blocks|, i requires 0 <= i < |blocks| => Label(blocks[i]));
      JoinOneFlow(order, st0, ix0, st1, ix1, t, st.varEnv, branch, place, os, cv);
    } else {
      var e := VisitBranch(order, st1, "if_alt", branch, place, s.onFalse.code).value;
      blocks := [t.block, e.block];
      assert os + [Label(e.block)] == [Local(test)] + seq(|blocks|, i requires 0 <= i < |blocks| => Label(blocks[i]));
      BranchFlow(order, st0, ix0, st1, ix1, "if_alt", branch, place, s.onFalse.code, os, cv);
      var ix2 := BranchKeeps(order, st0, ix0, st1, ix1, "if_alt", branch, place, s.onFalse.code);
      JoinFlow(order, st0, ix0, e.st, ix2, t, e, branch, place, os + [Label(e.block)], cv);
    }
  }

  /** The conditional jump tests the condition's variable; it goes to the block in which the
      first branch begins when the test holds; and it has a label for the case that it does not
      exactly when the `If` has an alternative. */
  lemma IfFlow(order: Order, st: State, ix: Index, s: Stmt) returns (test: VarId, cv: VarId, blocks: seq<BlockRef>)
    requires Inv(st, ix) && Ready(st) && IsOrder(order) && s.If? && VisitStmt(order, st, s).Some?
    ensures BeforeTest(order, st, s).Some? && VisitCondition(BeforeTest(order, st, s).value, s.cond).Some?
    ensures VisitExpr(BeforeTest(order, st, s).value, s.cond).Some?
    ensures RequireLastVar(VisitExpr(BeforeTest(order, st, s).value, s.cond).value) == Some(test)
    ensures var st2 := VisitCondition(BeforeTest(order, st, s).value, s.cond).value;
      && |blocks| == (if s.onFalse.NoElse? then 1 else 2) && blocks[0] == LastRef(AddBlock(st2, "if_then"))
      && IfFlows(VisitStmt(order, st, s).value, LastRef(st2), |LastBlock(st2).instructions| - 1, test, cv, blocks)
  {
    hide Inv, Step, VisitCondition, VisitBranches, IfFlows, Branches, AddBlock;
    KeptRefl(st, ix);
    var st1, ix1 := st, ix;
    if s.first.Some? {
      st1 := VisitStmt(order, st, s.first.value).value;
      ix1 := StmtKeeps(order, st, ix, s.first.value);
    }
    var st2 := VisitCondition(st1, s.cond).value;
    var ix2 := ConditionKeeps(st1, ix1, s.cond);
    test, cv := TestBranches(st1, s.cond);
    blocks := BranchesFlow(order, st1, ix1, st2, ix2, s, test, cv);
  }

  lemma TestBranches(st: State, cond: Expr) returns (test: VarId, cv: VarId)
    requires Ready(st) && VisitCondition(st, cond).Some?
    ensures VisitExpr(st, cond).Some? && RequireLastVar(VisitExpr(st, cond).value) == Some(test)
    ensures var st' := VisitCondition(st, cond).value;
      Branches(st', LastRef(st'), |LastBlock(st').instructions| - 1, [Local(test)], cv)
  {
    hide VisitExpr, RequireLastVar, EmitResult;
    var st1 := VisitExpr(st, cond).value;
    test, cv := RequireLastVar(st1).value, st1.varId;
    EmittedLast(st1, CondJump, [Local(test)]);
    LastIsBlock(EmitResult(st1, CondJump, [Local(test)]));
  }

  // ---- Where a branch ends ----------------------------------------------------------------

  lemma KeptInstructions(a: State, ia: Index, b: State, ib: Index, q: BlockRef)
    requires Kept(a, ia, b, ib) && IsBlock(a, q) && q != LastRef(a)
    ensures IsBlock(b, q) && Instructions(b, q) == Instructions(a, q)
  {
    hide Inv;
    assert |Instructions(b, q)| == |Instructions(a, q)|;
    forall i: nat | i < |Instructions(a, q)| ensures Instructions(b, q)[i] == Instructions(a, q)[i] {
      assert IsPlace(a, q, i) && Get(b, q, i) == Get(a, q, i);
    }
  }

  lemma LabelExists(st: State, ix: Index, q: BlockRef, i: nat, target: BlockRef)
    requires Inv(st, ix) && IsPlace(st, q, i) && Get(st, q, i).operands == [Label(target)]
    ensures IsBlock(st, target)
  {
    assert InstrOk(st, ix, q, i);
    hide Inv, IsBlock;
    assert OperandOk(st, ix, q.fn, Get(st, q, i).id, Get(st, q, i).operands[0]);
  }

  /** No instruction refers to a block that is still to come. */
  lemma NotYet(st: State, ix: Index, q: BlockRef, target: BlockRef)
    requires Inv(st, ix) && IsBlock(st, q) && !IsBlock(st, target)
    ensures !JumpsTo(st, q, target)
  {
    if JumpsTo(st, q, target) { LabelExists(st, ix, q, |Instructions(st, q)| - 1, target); }
  }

  lemma BranchSame(order: Order, st0: State, ix0: Index, st: State, ix: Index, prefix: string, branch: BlockRef, place: nat,
                   code: seq<Stmt>, first: seq<Operand>, cv: VarId, q: BlockRef)
    requires Inv(st0, ix0) && Kept(st0, ix0, st, ix) && Ready(st) && IsOrder(order) && branch.fn == LastRef(st).fn
    requires !IsPlace(st0, branch, place) && Branches(st, branch, place, first, cv) && IsBlock(st, q) && q != branch
    requires VisitBranch(order, st, prefix, branch, place, code).Some?
    ensures var b := VisitBranch(order, st, prefix, branch, place, code).value;
      IsBlock(b.st, q) && Instructions(b.st, q) == Instructions(st, q)
  {
    hide Inv, Step, AddBlock, AddOperands, VisitInNewEnv, Branches;
    var st1 := AddBlock(st, prefix);
    NewBlockKept(st0, ix0, st, ix, prefix);
    KeptRefl(st, ix);
    NewBlockKept(st, ix, st, ix, prefix);
    AddBlockPlaces(st, prefix);
    KeptBranch(st, ix, st1, ix, branch, place, first, cv);
    var st2 := AddOperands(st1, branch, place, [Label(LastRef(st1))]);
    AddOperandsKept(st0, ix0, st1, ix, branch, place, [Label(LastRef(st1))]);
    LateOperands(st1, branch, place, first, [Label(LastRef(st1))], cv);
    var visited := VisitInNewEnv(order, st2, code).value;
    var ix' := NewEnvKeeps(order, st2, ix, code);
    KeptInstructions(st2, ix, visited.0, ix', q);
  }

  lemma JoinSame(order: Order, st0: State, ix0: Index, st: State, ix: Index, t: Branch, e: Branch, q: BlockRef)
    requires Kept(st0, ix0, st, ix) && Ready(st) && IsOrder(order) && t.env != []
    requires BranchOk(st0, t, st, ix) && BranchOk(st0, e, st, ix) && t.jump != e.jump && t.block != e.block
    requires IsBlock(st, q) && q != t.block && q != e.block
    ensures var st' := JoinBranches(order, st, t, e);
      && IsBlock(st', q) && Instructions(st', q) == Instructions(st, q) && !IsBlock(st, LastRef(st'))
  {
    hide Inv, Step, AddBlock, Pending, EnvOk, InsertJump, MergeEnvs;
    var st1 := AddBlock(st, "if_merge");
    AddBlockPlaces(st, "if_merge");
    MergeBlockKept(st0, ix0, st, ix);
    var merge := LastRef(st1);
    var st2 := InsertJump(InsertJump(st1, t.jump, t.block, merge), e.jump, e.block, merge);
    BranchBlock(st0, t, st1, ix);
    BranchBlock(st0, e, st1, ix);
    TwoJumps(st1, t.jump, t.block, e.jump, e.block, merge);
    var ix2 := TwoJumpsKeep(st0, ix0, st1, ix, t.jump, t.block, e.jump, e.block, merge);
    hide SameCode;
    EnvStep(st1, ix, st2, ix2, t.env);
    EnvStep(st1, ix, st2, ix2, e.env);
    KeptRefl(st2, ix2);
    var ix' := MergeEnvsKeep(order, st2, ix2, st2, ix2, t.env, e.env);
    KeptInstructions(st2, ix2, MergeEnvs(order, st2, t.env, e.env).0, ix', q);
    MergeSameLast(order, st2, t.env, e.env);
  }

  lemma JoinOneSame(order: Order, st0: State, ix0: Index, st: State, ix: Index, t: Branch, env: Stack<Site>, q: BlockRef)
    requires Kept(st0, ix0, st, ix) && Ready(st) && IsOrder(order) && BranchOk(st0, t, st, ix) && EnvOk(st, ix, env)
    requires IsBlock(st, q) && q != t.block
    ensures var st2 := AddBlock(st, "if_merge"); var st3 := InsertJump(st2, t.jump, t.block, LastRef(st2));
      HasBlock(st3) && (
      var st' := MergeEnvs(order, st3, env, t.env).0.(varEnv := env);
      HasBlock(st') && IsBlock(st', q) && Instructions(st', q) == Instructions(st, q) && !IsBlock(st, LastRef(st')))
  {
    hide Inv, Step, AddBlock, Pending, EnvOk, InsertJump, MergeEnvs;
    var st2 := AddBlock(st, "if_merge");
    AddBlockPlaces(st, "if_merge");
    MergeBlockKept(st0, ix0, st, ix);
    var st3 := InsertJump(st2, t.jump, t.block, LastRef(st2));
    BranchBlock(st0, t, st2, ix);
    InsertedJump(st2, t.jump, t.block, LastRef(st2));
    InsertKeepsBlock(st2, t.jump, t.block, LastRef(st2));
    var ix3 := InsertJumpKeeps(st0, ix0, st2, ix, t.jump, t.block, LastRef(st2));
    hide SameCode;
    EnvStep(st2, ix, st3, ix3, t.env);
    EnvStep(st, ix, st3, ix3, env);
    KeptRefl(st3, ix3);
    var ix' := MergeEnvsKeep(order, st3, ix3, st3, ix3, env, t.env);
    KeptInstructions(st3, ix3, MergeEnvs(order, st3, env, t.env).0, ix', q);
    MergeSameLast(order, st3, env, t.env);
  }

  lemma {:induction false} FirstEnds(order: Order, st0: State, ix0: Index, st: State, ix: Index, s: Stmt, test: VarId, cv: VarId)
    requires Inv(st0, ix0) && Kept(st0, ix0, st, ix) && Ready(st) && IsOrder(order) && s.If? && LastBlock(st).instructions != []
    requires !IsPlace(st0, LastRef(st), |LastBlock(st).instructions| - 1) && VisitBranches(order, st, s).Some?
    requires Branches(st, LastRef(st), |LastBlock(st).instructions| - 1, [Local(test)], cv)
    ensures FirstBranch(order, st, s).Some?
    ensures var st' := VisitBranches(order, st, s).value; var t := FirstBranch(order, st, s).value;
      JumpsTo(st', LastRef(t.st), LastRef(st')) <==> OneBlock(s.onTrue)
  {
    hide Inv, Step, VisitBranch, AddBlock, InsertJump, MergeEnvs, JoinBranches, Branches, JumpsTo, OneBlock;
    var t := FirstBranch(order, st, s).value;
    BranchMoves(order, st, "if_then", LastRef(st), |Instructions(st, LastRef(st))| - 1, s.onTrue);
    if OneBlock(s.onTrue) {
      BeginsIn(order, st0, ix0, st, ix, s);
      var blocks := BranchesFlow(order, st0, ix0, st, ix, s, test, cv);
      assert JumpsTo(VisitBranches(order, st, s).value, blocks[0], LastRef(VisitBranches(order, st, s).value));
    } else {
      OpenEnd(order, st0, ix0, st, ix, s, test, cv);
    }
  }

  lemma {:induction false} SecondEnds(order: Order, st0: State, ix0: Index, st: State, ix: Index, s: Stmt, test: VarId, cv: VarId)
    requires Inv(st0, ix0) && Kept(st0, ix0, st, ix) && Ready(st) && IsOrder(order) && s.If? && LastBlock(st).instructions != []
    requires !IsPlace(st0, LastRef(st), |LastBlock(st).instructions| - 1) && VisitBranches(order, st, s).Some?
    requires Branches(st, LastRef(st), |LastBlock(st).instructions| - 1, [Local(test)], cv) && s.onFalse.Else?
    ensures SecondBranch(order, st, s).Some? && HasBlock(SecondBranch(order, st, s).value.st)
    ensures var st' := VisitBranches(order, st, s).value; var e := SecondBranch(order, st, s).value;
      JumpsTo(st', LastRef(e.st), LastRef(st')) <==> OneBlock(s.onFalse.code)
  {
    hide Inv, Step, VisitBranch, VisitBranches, AddBlock, InsertJump, MergeEnvs, JoinBranches, Branches, JumpsTo, OneBlock;
    var blocks := BranchesFlow(order, st0, ix0, st, ix, s, test, cv);
    SecondMoves(order, st, s);
    if OneBlock(s.onFalse.code) {
      assert JumpsTo(VisitBranches(order, st, s).value, blocks[1], LastRef(VisitBranches(order, st, s).value));
    } else {
      OpenSecond(order, st0, ix0, st, ix, s, test, cv);
    }
  }

  lemma SecondMoves(order: Order, st: State, s: Stmt)
    requires Ready(st) && IsOrder(order) && s.If? && s.onFalse.Else? && LastBlock(st).instructions != [] && SecondBranch(order, st, s).Some?
    ensures FirstBranch(order, st, s).Some?
    ensures var t := FirstBranch(order, st, s).value; var e := SecondBranch(order, st, s).value;
      && Moves(t.st, e.st, false) && (LastRef(e.st) == e.block <==> OneBlock(s.onFalse.code))
      && LastRef(t.st).block >= t.block.block
  {
    hide VisitBranch, OneBlock;
    var place: nat := |Instructions(st, LastRef(st))| - 1;
    var t := FirstBranch(order, st, s).value;
    var st1 := t.st.(varEnv := st.varEnv);
    SameMoves(t.st, st1);
    BranchMoves(order, st1, "if_alt", LastRef(st), place, s.onFalse.code);
    NotBefore(order, st, "if_then", LastRef(st), place, s.onTrue);
  }

  lemma SecondLater(order: Order, st: State, s: Stmt)
    requires Ready(st) && IsOrder(order) && s.If? && s.onFalse.Else? && LastBlock(st).instructions != [] && SecondBranch(order, st, s).Some?
    ensures FirstBranch(order, st, s).Some? && HasBlock(SecondBranch(order, st, s).value.st)
    ensures LastRef(SecondBranch(order, st, s).value.st) != FirstBranch(order, st, s).value.block
  {
    hide VisitBranch, OneBlock;
    SecondMoves(order, st, s);
  }

  lemma NotBefore(order: Order, st: State, prefix: string, branch: BlockRef, place: nat, code: seq<Stmt>)
    requires Ready(st) && IsOrder(order) && VisitBranch(order, st, prefix, branch, place, code).Some?
    ensures var b := VisitBranch(order, st, prefix, branch, place, code).value; LastRef(b.st).block >= b.block.block
  {
    hide VisitInNewEnv, AddBlock, AddOperands, OneBlock;
    var st1 := AddBlock(st, prefix);
    OperandsStay(st1, branch, place, [Label(LastRef(st1))]);
    NewEnvMoves(order, AddOperands(st1, branch, place, [Label(LastRef(st1))]), code);
  }

  lemma BeginsIn(order: Order, st0: State, ix0: Index, st: State, ix: Index, s: Stmt)
    requires Kept(st0, ix0, st, ix) && Ready(st) && IsOrder(order) && s.If? && LastBlock(st).instructions != []
    requires FirstBranch(order, st, s).Some?
    ensures FirstBranch(order, st, s).value.block == LastRef(AddBlock(st, "if_then"))
  {
    hide VisitInNewEnv, AddOperands, AddBlock;
  }

  lemma {:induction false} OpenEnd(order: Order, st0: State, ix0: Index, st: State, ix: Index, s: Stmt, test: VarId, cv: VarId)
    requires Inv(st0, ix0) && Kept(st0, ix0, st, ix) && Ready(st) && IsOrder(order) && s.If? && LastBlock(st).instructions != []
    requires !IsPlace(st0, LastRef(st), |LastBlock(st).instructions| - 1) && VisitBranches(order, st, s).Some?
    requires Branches(st, LastRef(st), |LastBlock(st).instructions| - 1, [Local(test)], cv)
    requires FirstBranch(order, st, s).Some? && LastRef(FirstBranch(order, st, s).value.st) != FirstBranch(order, st, s).value.block
    ensures var st' := VisitBranches(order, st, s).value;
      !JumpsTo(st', LastRef(FirstBranch(order, st, s).value.st), LastRef(st'))
  {
    hide Inv, Step, VisitBranch, AddBlock, InsertJump, MergeEnvs, JoinBranches, EnvOk, BranchOk, Branches, JumpsTo, IsPlace, IsBlock;
    EnvOf(st, ix);
    LastIsBlock(st);
    var branch := LastRef(st);
    var place := |Instructions(st, branch)| - 1;
    var t := FirstBranch(order, st, s).value;
    var ix1 := BranchKeeps(order, st0, ix0, st, ix, "if_then", branch, place, s.onTrue);
    BranchFlow(order, st0, ix0, st, ix, "if_then", branch, place, s.onTrue, [Local(test)], cv);
    EnvStep(st, ix, t.st, ix1, st.varEnv);
    RestoreKept(st0, ix0, t.st, ix1, st.varEnv);
    var st1 := t.st.(varEnv := st.varEnv);
    SameFlow(t.st, st1);
    KeptSameFn(st0, ix0, st, ix);
    KeptSameFn(st0, ix0, st1, ix1);
    LastIsBlock(st1);
    var end := LastRef(t.st);
    if s.onFalse.NoElse? {
      EnvStep(t.st, ix1, st1, ix1, st.varEnv) by { SameFunctions(t.st, st1); }
      JoinOneSame(order, st0, ix0, st1, ix1, t, st.varEnv, end);
      StillOpen(st1, ix1, VisitBranches(order, st, s).value, end);
    } else {
      var e := VisitBranch(order, st1, "if_alt", branch, place, s.onFalse.code).value;
      BranchSame(order, st0, ix0, st1, ix1, "if_alt", branch, place, s.onFalse.code, [Local(test)] + [Label(t.block)], cv, end);
      var ix2 := BranchKeeps(order, st0, ix0, st1, ix1, "if_alt", branch, place, s.onFalse.code);
      JoinSame(order, st0, ix0, e.st, ix2, t, e, end);
      StillOpen(e.st, ix2, VisitBranches(order, st, s).value, end);
    }
  }

  lemma {:induction false} OpenSecond(order: Order, st0: State, ix0: Index, st: State, ix: Index, s: Stmt, test: VarId, cv: VarId)
    requires Inv(st0, ix0) && Kept(st0, ix0, st, ix) && Ready(st) && IsOrder(order) && s.If? && LastBlock(st).instructions != []
    requires !IsPlace(st0, LastRef(st), |LastBlock(st).instructions| - 1) && VisitBranches(order, st, s).Some? && s.onFalse.Else?
    requires Branches(st, LastRef(st), |LastBlock(st).instructions| - 1, [Local(test)], cv)
    requires SecondBranch(order, st, s).Some? && HasBlock(SecondBranch(order, st, s).value.st)
    requires LastRef(SecondBranch(order, st, s).value.st) != SecondBranch(order, st, s).value.block
    ensures var st' := VisitBranches(order, st, s).value;
      !JumpsTo(st', LastRef(SecondBranch(order, st, s).value.st), LastRef(st'))
  {
    hide Inv, Step, VisitBranch, VisitBranches, JoinBranches, BranchOk, Branches, JumpsTo, IsBlock, FirstBranch, SecondBranch;
    SecondLater(order, st, s);
    var ix' := BothKept(order, st0, ix0, st, ix, s);
    var t, e := FirstBranch(order, st, s).value, SecondBranch(order, st, s).value;
    LastIsBlock(e.st);
    JoinSame(order, st0, ix0, e.st, ix', t, e, LastRef(e.st));
    StillOpen(e.st, ix', VisitBranches(order, st, s).value, LastRef(e.st));
  }

  /** Both branches are lowered, and their jumps are still to come. */
  lemma {:induction false} BothKept(order: Order, st0: State, ix0: Index, st: State, ix: Index, s: Stmt) returns (ix': Index)
    requires Inv(st0, ix0) && Kept(st0, ix0, st, ix) && Ready(st) && IsOrder(order) && s.If? && LastBlock(st).instructions != []
    requires !IsPlace(st0, LastRef(st), |LastBlock(st).instructions| - 1) && VisitBranches(order, st, s).Some? && s.onFalse.Else?
    ensures FirstBranch(order, st, s).Some? && SecondBranch(order, st, s).Some?
    ensures var t, e := FirstBranch(order, st, s).value, SecondBranch(order, st, s).value;
      && Ready(e.st) && t.env != [] && VisitBranches(order, st, s).value == JoinBranches(order, e.st, t, e)
      && Kept(st0, ix0, e.st, ix') && BranchOk(st0, t, e.st, ix') && BranchOk(st0, e, e.st, ix')
      && t.jump != e.jump && t.block != e.block
  {
    hide Inv, Step, VisitBranch, JoinBranches, EnvOk, BranchOk, IsPlace, IsBlock;
    EnvOf(st, ix);
    LastIsBlock(st);
    var branch := LastRef(st);
    var place := |Instructions(st, branch)| - 1;
    var t := FirstBranch(order, st, s).value;
    var ix1 := BranchKeeps(order, st0, ix0, st, ix, "if_then", branch, place, s.onTrue);
    EnvStep(st, ix, t.st, ix1, st.varEnv);
    RestoreKept(st0, ix0, t.st, ix1, st.varEnv);
    var st1 := t.st.(varEnv := st.varEnv);
    KeptSameFn(st0, ix0, st, ix);
    KeptSameFn(st0, ix0, st1, ix1);
    ix' := BranchKeeps(order, st0, ix0, st1, ix1, "if_alt", branch, place, s.onFalse.code);
  }

  lemma StillOpen(a: State, ia: Index, b: State, q: BlockRef)
    requires Inv(a, ia) && HasBlock(b) && IsBlock(a, q) && IsBlock(b, q) && Instructions(b, q) == Instructions(a, q) && !IsBlock(a, LastRef(b))
    ensures !JumpsTo(b, q, LastRef(b))
  {
    NotYet(a, ia, q, LastRef(b));
    hide Inv;
  }

  /** The jump to the merge block is put into the block a branch begins in. So the block a branch
      ends in goes there exactly when the branch stays in one block: after control flow or a
      short-circuit operator inside a branch, its last block does not go on to the merge block. */
  lemma BranchReachesMerge(order: Order, st: State, ix: Index, s: Stmt)
    requires Inv(st, ix) && Ready(st) && IsOrder(order) && s.If? && VisitStmt(order, st, s).Some?
    ensures BeforeTest(order, st, s).Some? && VisitCondition(BeforeTest(order, st, s).value, s.cond).Some?
    ensures var st2 := VisitCondition(BeforeTest(order, st, s).value, s.cond).value; var st' := VisitStmt(order, st, s).value;
      FirstBranch(order, st2, s).Some? && (
      var t := FirstBranch(order, st2, s).value;
      JumpsTo(st', LastRef(t.st), LastRef(st')) <==> OneBlock(s.onTrue))
    ensures s.onFalse.Else? ==>
      var st2 := VisitCondition(BeforeTest(order, st, s).value, s.cond).value; var st' := VisitStmt(order, st, s).value;
      SecondBranch(order, st2, s).Some? && HasBlock(SecondBranch(order, st2, s).value.st) && (
      var e := SecondBranch(order, st2, s).value;
      JumpsTo(st', LastRef(e.st), LastRef(st')) <==> OneBlock(s.onFalse.code))
  {
    hide Inv, Step, VisitCondition, VisitBranches, FirstBranch, SecondBranch, Branches, JumpsTo, OneBlock;
    KeptRefl(st, ix);
    var st1, ix1 := st, ix;
    if s.first.Some? {
      st1 := VisitStmt(order, st, s.first.value).value;
      ix1 := StmtKeeps(order, st, ix, s.first.value);
    }
    var ix2 := ConditionKeeps(st1, ix1, s.cond);
    var test, cv := TestBranches(st1, s.cond);
    FirstEnds(order, st1, ix1, VisitCondition(st1, s.cond).value, ix2, s, test, cv);
    if s.onFalse.Else? { SecondEnds(order, st1, ix1, VisitCondition(st1, s.cond).value, ix2, s, test, cv); }
  }

  // ---- Loop -------------------------------------------------------------------------------

  lemma CloseFlow(st: State, r: BlockRef, target: BlockRef, prefix: string)
    requires Ready(st) && IsBlock(st, r)
    ensures var st' := CloseBlock(st, r, target, prefix);
      && JumpsTo(st', r, target) && Instructions(st', LastRef(st')) == []
      && (forall q :: IsBlock(st, q) && q != r ==> IsBlock(st', q) && Instructions(st', q) == Instructions(st, q))
      && (forall q, i: nat :: IsPlace(st, q, i) ==> IsPlace(st', q, i) && Get(st', q, i) == Get(st, q, i))
  {
    var st1 := ReserveInstr(st);
    InsertedJump(st1, st.instrId, r, target);
    InsertKeepsBlock(st1, st.instrId, r, target);
    var st2 := InsertJump(st1, st.instrId, r, target);
    assert forall q, i: nat :: IsPlace(st, q, i) ==> IsPlace(st2, q, i) && Get(st2, q, i) == Get(st, q, i);
    assert forall q :: IsBlock(st, q) && q != r ==> Instructions(st2, q) == Instructions(st, q);
    hide InsertJump;
    AddBlockPlaces(st2, prefix);
    hide AddBlock;
  }

  /** The block before the loop enters the condition's block; from there control goes to the
      body when the test holds and behind the loop when it does not; the block the body begins in
      ends with a jump to the step, and the one the step begins in with a jump to the condition. */
  ghost predicate LoopFlows(st: State, before: BlockRef, cond: BlockRef, step: BlockRef, body: BlockRef, branch: BlockRef,
                            place: nat, test: VarId, cv: VarId) {
    && HasBlock(st) && Instructions(st, LastRef(st)) == []
    && JumpsTo(st, before, cond) && JumpsTo(st, step, cond) && JumpsTo(st, body, step)
    && Branches(st, branch, place, [Local(test), Label(body), Label(LastRef(st))], cv)
    && step != body && body != LastRef(st) && step != LastRef(st) && cond !in {step, body, LastRef(st), before}
  }

  /** The condition and the step of a loop are lowered, and the body's block is begun. */
  ghost predicate HalfLoop(st: State, before: BlockRef, cond: BlockRef, step: BlockRef, branch: BlockRef, place: nat, test: VarId, cv: VarId) {
    && HasBlock(st) && JumpsTo(st, before, cond) && JumpsTo(st, step, cond) && Branches(st, branch, place, [Local(test)], cv)
    && IsBlock(st, cond) && cond != before && cond != step && branch != step && branch != before
    && LastRef(st) !in {before, cond, step, branch}
    && step.fn == LastRef(st).fn
  }

  lemma StepFlow(order: Order, st: State, ix: Index, post: Stmt, before: BlockRef, cond: BlockRef, place: nat, test: VarId, cv: VarId)
    returns (ix': Index)
    requires Inv(st, ix) && Ready(st) && IsOrder(order) && VisitStmt(order, AddBlock(st, "loop_expr"), post).Some?
    requires JumpsTo(st, before, cond) && before != LastRef(st) && IsBlock(st, cond) && before != cond && cond.fn == LastRef(st).fn
    requires Branches(st, LastRef(st), place, [Local(test)], cv)
    ensures var st3 := AddBlock(st, "loop_expr");
      var st5 := CloseBlock(VisitStmt(order, st3, post).value, LastRef(st3), cond, "loop_body");
      Kept(st, ix, st5, ix') && HalfLoop(st5, before, cond, LastRef(st3), LastRef(st), place, test, cv)
  {
    hide Inv, Step, AddBlock, VisitStmt, CloseBlock, JumpsTo, Branches;
    KeptRefl(st, ix);
    LastIsBlock(st);
    var st3 := AddBlock(st, "loop_expr");
    NewBlockKept(st, ix, st, ix, "loop_expr");
    KeptJump(st, ix, st3, ix, before, cond);
    var st4 := VisitStmt(order, st3, post).value;
    var ix4 := StmtKeeps(order, st3, ix, post);
    KeptTrans(st, ix, st3, ix, st4, ix4);
    JumpIsBlock(st, before, cond);
    KeptBlocks(st3, ix, st4, ix4);
    KeptJump(st3, ix, st4, ix4, before, cond);
    KeptBranch(st, ix, st4, ix4, LastRef(st), place, [Local(test)], cv);
    ix' := CloseKept(st, ix, st4, ix4, LastRef(st3), cond, "loop_body");
    ClosedBlock(st3, ix, st4, ix4, LastRef(st3), cond, "loop_body");
    CloseFlow(st4, LastRef(st3), cond, "loop_body");
    var st5 := CloseBlock(st4, LastRef(st3), cond, "loop_body");
    hide IsBlock, Instructions, IsPlace, Get;
    SameJump(st4, st5, before, cond);
    PlacesBranch(st4, st5, LastRef(st), place, [Local(test)], cv);
  }

  lemma JumpIsBlock(st: State, r: BlockRef, target: BlockRef)
    requires JumpsTo(st, r, target)
    ensures IsBlock(st, r)
  {}

  /** The block that is begun is new. */
  lemma ClosedBlock(st0: State, ix0: Index, st: State, ix: Index, r: BlockRef, target: BlockRef, prefix: string)
    requires Kept(st0, ix0, st, ix) && Ready(st) && IsBlock(st, r)
    ensures !IsBlock(st, LastRef(CloseBlock(st, r, target, prefix))) && !IsBlock(st0, LastRef(CloseBlock(st, r, target, prefix)))
    ensures LastRef(CloseBlock(st, r, target, prefix)).fn == LastRef(st).fn
  {
    var st1 := ReserveInstr(st);
    InsertKeepsBlock(st1, st.instrId, r, target);
    AddBlockPlaces(InsertJump(st1, st.instrId, r, target), prefix);
    KeptBlocks(st0, ix0, st, ix);
    hide Inv, InsertJump, AddBlock;
  }

  lemma BodyFlow(order: Order, st: State, ix: Index, code: seq<Stmt>, before: BlockRef, cond: BlockRef, step: BlockRef, branch: BlockRef,
                 place: nat, test: VarId, cv: VarId)
    requires Inv(st, ix) && Ready(st) && IsOrder(order) && VisitInNewEnv(order, st, code).Some?
    requires HalfLoop(st, before, cond, step, branch, place, test, cv)
    ensures var st6 := CloseBlock(VisitInNewEnv(order, st, code).value.0, LastRef(st), step, "loop_merge");
      LoopFlows(AddOperands(st6, branch, place, [Label(LastRef(st)), Label(LastRef(st6))]), before, cond, step, LastRef(st), branch, place, test, cv)
  {
    hide Inv, Step, VisitInNewEnv, CloseBlock, AddOperands, JumpsTo, Branches;
    LastIsBlock(st);
    JumpIsBlock(st, before, cond);
    JumpIsBlock(st, step, cond);
    var st1 := VisitInNewEnv(order, st, code).value.0;
    var ix1 := NewEnvKeeps(order, st, ix, code);
    KeptBlocks(st, ix, st1, ix1);
    KeptJump(st, ix, st1, ix1, before, cond);
    KeptJump(st, ix, st1, ix1, step, cond);
    KeptBranch(st, ix, st1, ix1, branch, place, [Local(test)], cv);
    ClosedBlock(st, ix, st1, ix1, LastRef(st), step, "loop_merge");
    CloseFlow(st1, LastRef(st), step, "loop_merge");
    var st2 := CloseBlock(st1, LastRef(st), step, "loop_merge");
    hide IsBlock, Instructions, IsPlace, Get;
    SameJump(st1, st2, before, cond);
    SameJump(st1, st2, step, cond);
    PlacesBranch(st1, st2, branch, place, [Local(test)], cv);
    LabelsFlow(st2, before, cond, step, LastRef(st), branch, place, test, cv);
  }

  /** The labels come last, and change nothing but the conditional jump. */
  lemma LabelsFlow(st: State, before: BlockRef, cond: BlockRef, step: BlockRef, body: BlockRef, branch: BlockRef, place: nat, test: VarId, cv: VarId)
    requires HasBlock(st) && JumpsTo(st, before, cond) && JumpsTo(st, step, cond) && JumpsTo(st, body, step)
    requires Branches(st, branch, place, [Local(test)], cv) && branch !in {before, step, body} && Instructions(st, LastRef(st)) == []
    ensures var st' := AddOperands(st, branch, place, [Label(body), Label(LastRef(st))]);
      && HasBlock(st') && LastRef(st') == LastRef(st) && Instructions(st', LastRef(st)) == []
      && JumpsTo(st', before, cond) && JumpsTo(st', step, cond) && JumpsTo(st', body, step)
      && Branches(st', branch, place, [Local(test), Label(body), Label(LastRef(st))], cv)
  {
    var os := [Label(body), Label(LastRef(st))];
    LateOperands(st, branch, place, [Local(test)], os, cv);
    assert [Local(test)] + os == [Local(test), Label(body), Label(LastRef(st))];
    hide AddOperands;
  }

  lemma LoopFlow(order: Order, st: State, ix: Index, s: Stmt) returns (body: BlockRef, test: VarId, cv: VarId)
    requires Inv(st, ix) && Ready(st) && IsOrder(order) && s.Loop? && s.test.Some? && s.post.Some?
    requires VisitLoop(order, st, s).Some?
    ensures var st1 := EnterBlock(st, "loop_cond");
      && VisitCondition(st1, s.test.value).Some? && VisitExpr(st1, s.test.value).Some?
      && RequireLastVar(VisitExpr(st1, s.test.value).value) == Some(test)
    ensures var st1 := EnterBlock(st, "loop_cond"); var st3 := AddBlock(VisitCondition(st1, s.test.value).value, "loop_expr");
      VisitStmt(order, st3, s.post.value).Some? &&
      body == LastRef(CloseBlock(VisitStmt(order, st3, s.post.value).value, LastRef(st3), LastRef(st1), "loop_body"))
    ensures var st1 := EnterBlock(st, "loop_cond"); var st2 := VisitCondition(st1, s.test.value).value;
      LoopFlows(VisitLoop(order, st, s).value, LastRef(st), LastRef(st1), LastRef(AddBlock(st2, "loop_expr")), body,
                LastRef(st2), |LastBlock(st2).instructions| - 1, test, cv)
  {
    hide Inv, Step, EnterBlock, VisitCondition, AddBlock, VisitStmt, CloseBlock, VisitInNewEnv, AddOperands, IsBlock, EnvOk, Pending, Late, JumpsTo, Branches;
    var st1 := EnterBlock(st, "loop_cond");
    Entered(st, "loop_cond");
    var ix1 := EnterBlockKeeps(st, ix, "loop_cond");
    var st2 := VisitCondition(st1, s.test.value).value;
    var ix2 := ConditionKeeps(st1, ix1, s.test.value);
    test, cv := TestBranches(st1, s.test.value);
    KeptJump(st1, ix1, st2, ix2, LastRef(st), LastRef(st1));
    LaterBlock(st, ix, st1, ix1, st2, ix2);
    KeptBlocks(st1, ix1, st2, ix2);
    LastIsBlock(st2);
    var st3 := AddBlock(st2, "loop_expr");
    var ix5 := StepFlow(order, st2, ix2, s.post.value, LastRef(st), LastRef(st1), |LastBlock(st2).instructions| - 1, test, cv);
    var st5 := CloseBlock(VisitStmt(order, st3, s.post.value).value, LastRef(st3), LastRef(st1), "loop_body");
    body := LastRef(st5);
    BodyFlow(order, st5, ix5, s.body, LastRef(st), LastRef(st1), LastRef(st3), LastRef(st2), |LastBlock(st2).instructions| - 1, test, cv);
  }
}
