/** Which function the variables in a function's code come from: its own, as long as no scope of
    an earlier function is left open. */
module MirClosed {
  import opened Ast
  import opened Statements
  import opened Scopes
  import opened Mir
  import opened MirFactory
  import opened MirBuilder
  import opened MirShape
  import opened MirSteps
  import opened MirNames
  import opened MirMeaningFunction
  import opened MirScopes
  import opened MirProgram
  import opened Words

  predicate Produces(f: MirFunction, b: nat, i: nat, v: VarId) {
    b < |f.blocks| && i < |f.blocks[b].instructions| && f.blocks[b].instructions[i].result == Some(v)
  }

  /** A parameter of the function, or the result of one of its instructions. */
  ghost predicate Provides(f: MirFunction, v: VarId) {
    v in f.params || exists b: nat, i: nat :: Produces(f, b, i, v)
  }

  ghost predicate OperandsOwn(f: MirFunction, os: seq<Operand>) {
    forall k :: 0 <= k < |os| && (os[k].Local? || os[k].PhiArg?) ==> Provides(f, os[k].v)
  }

  /** Every variable the function's code refers to is its own. */
  ghost predicate Closed(f: MirFunction) {
    forall b: nat, i: nat :: b < |f.blocks| && i < |f.blocks[b].instructions| ==> OperandsOwn(f, f.blocks[b].instructions[i].operands)
  }

  ghost predicate LayerOwn(f: MirFunction, layer: Layer<Site>) {
    forall x :: x in layer ==> Provides(f, layer[x].v)
  }

  ghost predicate EnvOwn(f: MirFunction, env: Stack<Site>) {
    forall k :: 0 <= k < |env| ==> LayerOwn(f, env[k])
  }

  ghost predicate Own(st: State) {
    HasFunction(st) && Closed(LastFunction(st)) && EnvOwn(LastFunction(st), st.varEnv)
  }

  /** Only the last function was worked on, and it still provides what it did. */
  ghost predicate Later(a: State, b: State) {
    && HasFunction(a) && HasFunction(b) && |b.functions| == |a.functions|
    && b.functions[..|a.functions| - 1] == a.functions[..|a.functions| - 1]
    && forall v :: Provides(LastFunction(a), v) ==> Provides(LastFunction(b), v)
  }

  lemma LaterTrans(a: State, b: State, c: State)
    requires Later(a, b) && Later(b, c)
    ensures Later(a, c)
  {
    hide Provides;
  }

  lemma LaterSelf(a: State)
    requires HasFunction(a)
    ensures Later(a, a)
  {}

  lemma OperandsLater(a: State, b: State, os: seq<Operand>)
    requires Later(a, b) && OperandsOwn(LastFunction(a), os)
    ensures OperandsOwn(LastFunction(b), os)
  {
    hide Provides;
  }

  lemma EnvLater(a: State, b: State, env: Stack<Site>)
    requires Later(a, b) && EnvOwn(LastFunction(a), env)
    ensures EnvOwn(LastFunction(b), env)
  {
    hide Provides;
    forall k | 0 <= k < |env| ensures LayerOwn(LastFunction(b), env[k]) { assert LayerOwn(LastFunction(a), env[k]); }
  }

  // ---- The factory ------------------------------------------------------------------------

  /** New instructions for one block of the last function: what they provide stays, and what they
      need is there. */
  lemma SetOwn(st: State, r: BlockRef, ins: seq<Instruction>)
    requires Own(st) && IsBlock(st, r) && r.fn == |st.functions| - 1 && |ins| >= |Instructions(st, r)|
    requires forall i :: 0 <= i < |Instructions(st, r)| ==> ins[i].result == Instructions(st, r)[i].result
    requires var f := LastFunction(SetInstructions(st, r, ins)); forall i :: 0 <= i < |ins| ==> OperandsOwn(f, ins[i].operands)
    ensures var st' := SetInstructions(st, r, ins); Own(st') && Later(st, st') && st'.varEnv == st.varEnv
  {
    var st' := SetInstructions(st, r, ins);
    var f, f' := LastFunction(st), LastFunction(st');
    SetLater(st, r, ins);
    hide Provides;
    forall b: nat, i: nat | b < |f'.blocks| && i < |f'.blocks[b].instructions| ensures OperandsOwn(f', f'.blocks[b].instructions[i].operands) {
      if b != r.block {
        assert f'.blocks[b] == f.blocks[b];
        OperandsLater(st, st', f.blocks[b].instructions[i].operands);
      }
    }
    EnvLater(st, st', st.varEnv);
  }

  lemma SetLater(st: State, r: BlockRef, ins: seq<Instruction>)
    requires HasFunction(st) && IsBlock(st, r) && r.fn == |st.functions| - 1 && |ins| >= |Instructions(st, r)|
    requires forall i :: 0 <= i < |Instructions(st, r)| ==> ins[i].result == Instructions(st, r)[i].result
    ensures Later(st, SetInstructions(st, r, ins))
  {
    var f, f' := LastFunction(st), LastFunction(SetInstructions(st, r, ins));
    forall v | Provides(f, v) ensures Provides(f', v) {
      if v !in f.params {
        var b: nat, i: nat :| Produces(f, b, i, v);
        assert Produces(f', b, i, v);
      }
    }
  }

  lemma AppendOwn(st: State, r: BlockRef, instr: Instruction)
    requires Own(st) && IsBlock(st, r) && r.fn == |st.functions| - 1 && OperandsOwn(LastFunction(st), instr.operands)
    ensures var st' := Append(st, r, instr); Own(st') && Later(st, st') && st'.varEnv == st.varEnv
    ensures instr.result.Some? ==> Provides(LastFunction(Append(st, r, instr)), instr.result.value)
  {
    var ins := Instructions(st, r) + [instr];
    var st' := SetInstructions(st, r, ins);
    var f' := LastFunction(st');
    SetLater(st, r, ins);
    if instr.result.Some? { assert Produces(f', r.block, |ins| - 1, instr.result.value); }
    hide Provides;
    forall i | 0 <= i < |ins| ensures OperandsOwn(f', ins[i].operands) {
      if i < |ins| - 1 { assert ins[i] == LastFunction(st).blocks[r.block].instructions[i]; }
      OperandsLater(st, st', ins[i].operands);
    }
    SetOwn(st, r, ins);
  }

  lemma AddOperandsOwn(st: State, r: BlockRef, i: nat, operands: seq<Operand>)
    requires Own(st) && r.fn == |st.functions| - 1 && OperandsOwn(LastFunction(st), operands)
    ensures var st' := AddOperands(st, r, i, operands); Own(st') && Later(st, st') && st'.varEnv == st.varEnv
  {
    LaterSelf(st);
    if IsPlace(st, r, i) {
      var instr := Get(st, r, i);
      var old' := Instructions(st, r);
      var ins := old'[i := instr.(operands := instr.operands + operands)];
      SetLater(st, r, ins);
      var st' := SetInstructions(st, r, ins);
      hide Provides, SetInstructions;
      forall k | 0 <= k < |ins| ensures OperandsOwn(LastFunction(st'), ins[k].operands) {
        assert old'[k] == LastFunction(st).blocks[r.block].instructions[k];
        OperandsLater(st, st', old'[k].operands);
        OperandsLater(st, st', operands);
      }
      SetOwn(st, r, ins);
    }
  }

  lemma ReservedOwn(st: State)
    requires Own(st)
    ensures Own(ReserveInstr(st)) && Later(st, ReserveInstr(st)) && Own(CreateVar(st)) && Later(st, CreateVar(st))
  {}

  lemma EmitOwn(st: State, op: Opcode, operands: seq<Operand>, result: Option<VarId>)
    requires HasBlock(st) && Own(st) && OperandsOwn(LastFunction(st), operands)
    ensures var st' := Emit(st, op, operands, result);
      && Own(st') && Later(st, st') && st'.varEnv == st.varEnv && (result.Some? ==> Provides(LastFunction(st'), result.value))
  {
    hide Provides, Own;
    ReservedOwn(st);
    AppendOwn(ReserveInstr(st), LastRef(st), Instruction(st.instrId, op, operands, result));
  }

  lemma EmitResultOwn(st: State, op: Opcode, operands: seq<Operand>)
    requires HasBlock(st) && Own(st) && OperandsOwn(LastFunction(st), operands)
    ensures var st' := EmitResult(st, op, operands);
      Own(st') && Later(st, st') && st'.varEnv == st.varEnv && Provides(LastFunction(st'), st.varId)
  {
    hide Provides, Own;
    ReservedOwn(st);
    EmitOwn(CreateVar(st), op, operands, Some(st.varId));
  }

  lemma InsertJumpOwn(st: State, id: nat, r: BlockRef, target: BlockRef)
    requires Own(st) && r.fn == |st.functions| - 1
    ensures var st' := InsertJump(st, id, r, target); Own(st') && Later(st, st') && st'.varEnv == st.varEnv
  {
    LaterSelf(st);
    if IsBlock(st, r) { AppendOwn(st, r, Instruction(id, Jump, [Label(target)], None)); }
  }

  lemma AddBlockOwn(st: State, prefix: string)
    requires Own(st)
    ensures var st' := AddBlock(st, prefix); Own(st') && Later(st, st') && st'.varEnv == st.varEnv
  {
    var st' := AddBlock(st, prefix);
    var f, f' := LastFunction(st), LastFunction(st');
    forall v | Provides(f, v) ensures Provides(f', v) {
      if v !in f.params {
        var b: nat, i: nat :| Produces(f, b, i, v);
        assert Produces(f', b, i, v);
      }
    }
    hide Provides;
    forall b: nat, i: nat | b < |f'.blocks| && i < |f'.blocks[b].instructions| ensures OperandsOwn(f', f'.blocks[b].instructions[i].operands) {
      assert f'.blocks[b] == f.blocks[b];
      OperandsLater(st, st', f.blocks[b].instructions[i].operands);
    }
    EnvLater(st, st', st.varEnv);
  }

  lemma LastVarOwn(st: State)
    requires RequireLastVar(st).Some?
    ensures Provides(LastFunction(st), RequireLastVar(st).value)
  {
    var ins := LastBlock(st).instructions;
    assert Produces(LastFunction(st), |LastFunction(st).blocks| - 1, |ins| - 1, RequireLastVar(st).value);
  }

  lemma {:induction false} FoundOwn(f: MirFunction, env: Stack<Site>, x: string)
    requires EnvOwn(f, env) && Find(env, x).Some?
    ensures Provides(f, Find(env, x).value.v)
  {
    hide Provides;
    var n := |env| - 1;
    assert LayerOwn(f, env[n]);
    if x !in env[n] {
      forall k | 0 <= k < n ensures LayerOwn(f, env[..n][k]) { assert LayerOwn(f, env[k]); }
      FoundOwn(f, env[..n], x);
    }
  }

  lemma {:induction false} UpdateOwn(f: MirFunction, env: Stack<Site>, x: string, s: Site)
    requires EnvOwn(f, env) && Find(env, x).Some? && Provides(f, s.v)
    ensures EnvOwn(f, Scopes.Update(env, x, s))
  {
    hide Provides;
    var n := |env| - 1;
    assert LayerOwn(f, env[n]);
    if x !in env[n] {
      forall k | 0 <= k < n ensures LayerOwn(f, env[..n][k]) { assert LayerOwn(f, env[k]); }
      UpdateOwn(f, env[..n], x, s);
    }
  }

  lemma AddUpdateOwn(st: State, x: string, v: VarId)
    requires HasBlock(st) && Own(st) && Provides(LastFunction(st), v) && AddUpdate(st, x, v).Some?
    ensures var st' := AddUpdate(st, x, v).value; Own(st') && Later(st, st')
  {
    EmitResultOwn(st, Opcode.Update, [Local(v)]);
    hide Provides, EmitResult;
    UpdateOwn(LastFunction(EmitResult(st, Opcode.Update, [Local(v)])), st.varEnv, x, Site(LastRef(st), st.varId));
  }

  lemma RefOwn(st: State, x: string)
    requires HasBlock(st) && Own(st) && AddVariableRef(st, x).Some?
    ensures var st' := AddVariableRef(st, x).value; Own(st') && Later(st, st')
  {
    hide Provides;
    if x in st.globals {
      EmitResultOwn(st, Load, [Global(x)]);
    } else {
      FoundOwn(LastFunction(st), st.varEnv, x);
      AddUpdateOwn(st, x, Find(st.varEnv, x).value.v);
    }
  }

  lemma BindOwn(st: State, x: string, v: VarId)
    requires HasBlock(st) && st.varEnv != [] && Own(st) && Provides(LastFunction(st), v) && VarBind(st, x, v).Some?
    ensures var st' := VarBind(st, x, v).value; Own(st') && Later(st, st')
  {
    EmitResultOwn(st, Bind, [Local(v)]);
    var st1 := EmitResult(st, Bind, [Local(v)]);
    var st' := VarBind(st, x, v).value;
    hide EmitResult;
    var f, f' := LastFunction(st1), LastFunction(st');
    assert f'.blocks == f.blocks && f'.params == f.params;
    SameCode(st1, st');
    hide Provides;
    var n := |st.varEnv| - 1;
    EnvLater(st1, st', st.varEnv);
    assert LayerOwn(f', st.varEnv[n]);
  }

  /** Other parts of a function do not matter. */
  lemma SameCode(a: State, b: State)
    requires HasFunction(a) && HasFunction(b) && Closed(LastFunction(a)) && |b.functions| == |a.functions|
    requires b.functions[..|a.functions| - 1] == a.functions[..|a.functions| - 1]
    requires LastFunction(a).blocks == LastFunction(b).blocks
    requires forall v :: v in LastFunction(a).params ==> v in LastFunction(b).params
    ensures Closed(LastFunction(b)) && Later(a, b)
  {
    var f, f' := LastFunction(a), LastFunction(b);
    forall v | Provides(f, v) ensures Provides(f', v) {
      if v !in f.params {
        var b: nat, i: nat :| Produces(f, b, i, v);
        assert Produces(f', b, i, v);
      }
    }
    hide Provides;
  }

  lemma ProvidesLater(a: State, b: State, v: VarId)
    requires Later(a, b) && Provides(LastFunction(a), v)
    ensures Provides(LastFunction(b), v)
  {}

  lemma LocalOwn(f: MirFunction, os: seq<Operand>)
    requires forall o <- os :: !o.PhiArg? && (o.Local? ==> Provides(f, o.v))
    ensures OperandsOwn(f, os)
  {
    hide Provides;
  }

  lemma LastIndex(a: State, b: State)
    requires Later(a, b)
    ensures |b.functions| == |a.functions|
  {}

  // ---- Expressions ------------------------------------------------------------------------

  lemma {:induction false} ExprOwn(st: State, e: Expr)
    requires Ready(st) && Own(st) && VisitExpr(st, e).Some?
    ensures var st' := VisitExpr(st, e).value; Own(st') && Later(st, st')
    decreases e, 1
  {
    hide Own, Later, Provides, AddVariableRef, EmitResult, RequireLastVar, VisitLogical, AddCall, VisitLiteral;
    LaterSame(st);
    match e
    case Literal(lit) => LiteralOwn(st, lit);
    case Identifier(x) => RefOwn(st, x);
    case FunctionCall(f, args) =>
      ArgsOwn(st, args);
      var visited := VisitArgs(st, args).value;
      CallOwn(visited.0, f, visited.1);
      LaterTrans(st, visited.0, AddCall(visited.0, f, visited.1).value);
    case Prefix(op, x) => if op == Positive || op == Negative { PrefixOwn(st, op, x); }
    case Infix(op, l, r) => if op == And || op == Or { LogicalOwn(st, op, l, r); } else { InfixOwn(st, op, l, r); }
    case _ =>
  }

  lemma LaterSame(st: State)
    requires HasBlock(st)
    ensures Later(st, st)
  {
    LaterSelf(st);
  }

  lemma LiteralOwn(st: State, lit: Ast.Literal)
    requires Ready(st) && Own(st) && VisitLiteral(st, lit).Some?
    ensures var st' := VisitLiteral(st, lit).value; Own(st') && Later(st, st')
  {
    LaterSelf(st);
    match lit
    case IntLit(n) => EmitResultOwn(st, ConstInt, [IntConst(Wrap32(n))]);
    case FloatLit(d) => EmitResultOwn(st, ConstFloat, [FloatConst(d)]);
    case BoolLit(b) => EmitResultOwn(st, ConstBool, [BoolConst(b)]);
    case CharLit(_) =>
  }

  lemma CallOwn(st: State, f: string, args: seq<VarId>)
    requires HasBlock(st) && Own(st) && AddCall(st, f, args).Some? && forall v <- args :: Provides(LastFunction(st), v)
    ensures var st' := AddCall(st, f, args).value; Own(st') && Later(st, st')
  {
    LocalOwn(LastFunction(st), CallOperands(f, args));
    hide OperandsOwn, Provides;
    EmitOwn(st, CallOp, CallOperands(f, args), None);
  }

  lemma {:induction false} PrefixOwn(st: State, op: PrefixOp, x: Expr)
    requires Ready(st) && Own(st) && VisitExpr(st, Prefix(op, x)).Some? && (op == Positive || op == Negative)
    ensures var st' := VisitExpr(st, Prefix(op, x)).value; Own(st') && Later(st, st')
    decreases x, 2
  {
    hide Own, Later, Provides, EmitResult, RequireLastVar;
    var st1 := VisitExpr(st, x).value;
    ExprOwn(st, x);
    if op == Negative {
      var v := RequireLastVar(st1).value;
      LastVarOwn(st1);
      LocalOwn(LastFunction(st1), [IntConst(0), Local(v)]);
      hide OperandsOwn;
      EmitResultOwn(st1, ISub, [IntConst(0), Local(v)]);
      LaterTrans(st, st1, EmitResult(st1, ISub, [IntConst(0), Local(v)]));
    }
  }

  lemma {:induction false} InfixOwn(st: State, op: InfixOp, l: Expr, r: Expr)
    requires Ready(st) && Own(st) && VisitExpr(st, Infix(op, l, r)).Some? && op != And && op != Or
    ensures var st' := VisitExpr(st, Infix(op, l, r)).value; Own(st') && Later(st, st')
    decreases Infix(op, l, r), 0
  {
    hide Own, Later, Provides, EmitResult, RequireLastVar;
    var st1 := VisitExpr(st, l).value;
    ExprOwn(st, l);
    var lv := RequireLastVar(st1).value;
    LastVarOwn(st1);
    var st2 := VisitExpr(st1, r).value;
    ExprOwn(st1, r);
    var rv := RequireLastVar(st2).value;
    LastVarOwn(st2);
    BothOwn(st1, st2, lv, rv);
    hide OperandsOwn;
    EmitResultOwn(st2, InfixOpcode(op), [Local(lv), Local(rv)]);
    LaterTrans(st, st1, st2);
    LaterTrans(st, st2, EmitResult(st2, InfixOpcode(op), [Local(lv), Local(rv)]));
  }

  lemma BothOwn(a: State, b: State, v: VarId, w: VarId)
    requires Later(a, b) && Provides(LastFunction(a), v) && Provides(LastFunction(b), w)
    ensures OperandsOwn(LastFunction(b), [Local(v), Local(w)])
  {
    ProvidesLater(a, b, v);
    hide Provides;
  }

  lemma {:induction false} ArgsOwn(st: State, args: seq<Expr>)
    requires Ready(st) && Own(st) && VisitArgs(st, args).Some?
    ensures var r := VisitArgs(st, args).value;
      Own(r.0) && Later(st, r.0) && forall v <- r.1 :: Provides(LastFunction(r.0), v)
    decreases args, 1
  {
    hide Own, Later, Provides, RequireLastVar, VisitExpr;
    LaterSame(st);
    if args != [] {
      var st1 := VisitExpr(st, args[0]).value;
      ExprOwn(st, args[0]);
      LastVarOwn(st1);
      ArgsOwn(st1, args[1..]);
      var st2 := VisitArgs(st1, args[1..]).value.0;
      LaterTrans(st, st1, st2);
      ProvidesLater(st1, st2, RequireLastVar(st1).value);
    }
  }

  lemma EnterOwn(st: State, prefix: string)
    requires Ready(st) && Own(st)
    ensures var st' := EnterBlock(st, prefix); Own(st') && Later(st, st')
  {
    var st0 := Emit(st, Jump, [], None);
    var st1 := AddBlock(st0, prefix);
    hide Own, Later, Provides, Emit, AddBlock, AddOperands;
    EmitOwn(st, Jump, [], None);
    AddBlockOwn(st0, prefix);
    LaterTrans(st, st0, st1);
    LastIndex(st, st1);
    AddOperandsOwn(st1, LastRef(st), |Instructions(st, LastRef(st))|, [Label(LastRef(st1))]);
    LaterTrans(st, st1, EnterBlock(st, prefix));
  }

  /** What is remembered of the left term belongs to the function. */
  ghost predicate LeftOwn(t: LeftTerm) {
    && Own(t.st) && t.left.fn == t.branch.fn == |t.st.functions| - 1
    && Provides(LastFunction(t.st), t.leftVar) && Provides(LastFunction(t.st), t.branchVar)
  }

  lemma {:induction false} LeftTermOwn(st: State, op: InfixOp, l: Expr)
    requires Ready(st) && Own(st) && VisitLeftTerm(st, op, l).Some?
    ensures var t := VisitLeftTerm(st, op, l).value; LeftOwn(t) && Later(st, t.st)
    decreases l, 2
  {
    hide Own, Later, Provides, RequireLastVar, VisitExpr, EnterBlock, EmitResult;
    var st1 := EnterBlock(st, LogicalName(op) + "_left_term");
    EnterOwn(st, LogicalName(op) + "_left_term");
    var st2 := VisitExpr(st1, l).value;
    ExprOwn(st1, l);
    LaterTrans(st, st1, st2);
    LastVarOwn(st2);
    var st3 := EmitResult(st2, CondJump, []);
    EmitResultOwn(st2, CondJump, []);
    ReservedOwn(st3);
    LaterTrans(st, st2, st3);
    LaterTrans(st, st3, ReserveInstr(st3));
    LastIndex(st1, st2);
    LastIndex(st2, st3);
    ProvidesLater(st2, st3, RequireLastVar(st2).value);
    SameProvides(st3);
  }

  lemma SameProvides(st: State)
    requires HasFunction(st)
    ensures LastFunction(ReserveInstr(st)) == LastFunction(st)
  {}

  lemma {:induction false} LogicalOwn(st: State, op: InfixOp, l: Expr, r: Expr)
    requires Ready(st) && Own(st) && VisitLogical(st, op, l, r).Some?
    ensures var st' := VisitLogical(st, op, l, r).value; Own(st') && Later(st, st')
    decreases Infix(op, l, r), 0
  {
    hide Own, Later, Provides, RequireLastVar, VisitExpr, VisitLeftTerm, FinishLogical, AddBlock;
    var t := VisitLeftTerm(st, op, l).value;
    LeftTermOwn(st, op, l);
    var st1 := AddBlock(t.st, LogicalName(op) + "_right_term");
    var st2 := VisitExpr(st1, r).value;
    RightTermOwn(t.st, LogicalName(op) + "_right_term", r);
    var st3 := AddBlock(ReserveInstr(st2), LogicalName(op) + "_merge");
    MergeBlockOwn(t.st, st2, LogicalName(op) + "_merge");
    var rv := RequireLastVar(st2).value;
    ProvidesLater(st2, st3, rv);
    FinishOwn(st3, op, t, LastRef(st1), rv, st2.instrId);
    LaterTrans(st, t.st, st3);
    LaterTrans(st, st3, FinishLogical(st3, op, t, LastRef(st1), rv, st2.instrId));
  }

  lemma {:induction false} RightTermOwn(st: State, prefix: string, r: Expr)
    requires Ready(st) && Own(st) && VisitExpr(AddBlock(st, prefix), r).Some? && RequireLastVar(VisitExpr(AddBlock(st, prefix), r).value).Some?
    ensures var st1 := AddBlock(st, prefix); var st2 := VisitExpr(st1, r).value;
      && Own(st2) && Later(st, st2) && LastRef(st1).fn == |st2.functions| - 1
      && Provides(LastFunction(st2), RequireLastVar(st2).value)
    decreases r, 2
  {
    hide Own, Later, Provides, RequireLastVar, VisitExpr, AddBlock;
    var st1 := AddBlock(st, prefix);
    AddBlockOwn(st, prefix);
    var st2 := VisitExpr(st1, r).value;
    ExprOwn(st1, r);
    LastVarOwn(st2);
    LastIndex(st1, st2);
    LaterTrans(st, st1, st2);
  }

  lemma MergeBlockOwn(st0: State, st: State, prefix: string)
    requires HasBlock(st) && Own(st) && Later(st0, st)
    ensures var st' := AddBlock(ReserveInstr(st), prefix);
      Own(st') && Later(st, st') && Later(st0, st') && |st'.functions| == |st.functions|
  {
    hide Own, Later, AddBlock;
    var st1 := ReserveInstr(st);
    ReservedOwn(st);
    AddBlockOwn(st1, prefix);
    LaterTrans(st, st1, AddBlock(st1, prefix));
    LaterTrans(st0, st, AddBlock(st1, prefix));
    LastIndex(st, AddBlock(st1, prefix));
  }

  lemma FinishOwn(st: State, op: InfixOp, t: LeftTerm, right: BlockRef, rv: VarId, rightJump: nat)
    requires Ready(st) && Own(st) && LeftOwn(t) && Later(t.st, st) && Provides(LastFunction(st), rv) && right.fn == |st.functions| - 1
    ensures var st' := FinishLogical(st, op, t, right, rv, rightJump); Own(st') && Later(st, st')
  {
    hide Own, Later, Provides, AddOperands, EmitResult, InsertJump;
    var merge := LastRef(st);
    LastIndex(t.st, st);
    ProvidesLater(t.st, st, t.leftVar);
    ProvidesLater(t.st, st, t.branchVar);
    var os := if op == And then [Local(t.leftVar), Label(right), Label(merge)] else [Local(t.leftVar), Label(merge), Label(right)];
    LocalOwn(LastFunction(st), os);
    hide OperandsOwn;
    AddOperandsOwn(st, t.branch, t.place, os);
    var st1 := AddOperands(st, t.branch, t.place, os);
    LocalOwn(LastFunction(st1), [BoolConst(op == Or)]);
    EmitResultOwn(st1, ConstBool, [BoolConst(op == Or)]);
    var st2 := EmitResult(st1, ConstBool, [BoolConst(op == Or)]);
    var short := st1.varId;
    LaterTrans(st, st1, st2);
    ProvidesLater(st, st2, t.branchVar);
    ProvidesLater(st, st2, rv);
    var select := if op == And then [Local(t.branchVar), Local(rv), Local(short)] else [Local(t.branchVar), Local(short), Local(rv)];
    LocalOwn(LastFunction(st2), select);
    EmitResultOwn(st2, Phi, select);
    var st3 := EmitResult(st2, Phi, select);
    LaterTrans(st, st2, st3);
    LastIndex(st, st3);
    TwoJumpsOwn(st3, t.leftJump, t.left, rightJump, right, merge);
    LaterTrans(st, st3, FinishLogical(st, op, t, right, rv, rightJump));
  }

  lemma TwoJumpsOwn(st: State, id1: nat, r1: BlockRef, id2: nat, r2: BlockRef, target: BlockRef)
    requires HasBlock(st) && Own(st) && r1.fn == r2.fn == |st.functions| - 1
    ensures var st' := InsertJump(InsertJump(st, id1, r1, target), id2, r2, target); Own(st') && Later(st, st') && st'.varEnv == st.varEnv
  {
    hide Own, Later, InsertJump;
    var st1 := InsertJump(st, id1, r1, target);
    InsertJumpOwn(st, id1, r1, target);
    LastIndex(st, st1);
    InsertJumpOwn(st1, id2, r2, target);
    LaterTrans(st, st1, InsertJump(st1, id2, r2, target));
  }

  // ---- Environments -----------------------------------------------------------------------

  /** The same code with another environment. */
  lemma EnvChanged(st: State, st': State)
    requires Own(st) && st'.functions == st.functions && EnvOwn(LastFunction(st), st'.varEnv)
    ensures Own(st') && Later(st, st')
  {}

  lemma PushOwn(st: State)
    requires Own(st)
    ensures Own(PushEnv(st)) && Later(st, PushEnv(st))
  {
    hide Provides, Closed;
    var env := st.varEnv + [map[]];
    forall k | 0 <= k < |env| ensures LayerOwn(LastFunction(st), env[k]) {
      if k < |st.varEnv| { assert LayerOwn(LastFunction(st), st.varEnv[k]); }
    }
    EnvChanged(st, PushEnv(st));
  }

  lemma PopOwn(st: State)
    requires Own(st) && PopEnv(st).Some?
    ensures Own(PopEnv(st).value) && Later(st, PopEnv(st).value)
  {
    hide Provides, Closed;
    var env := st.varEnv[..|st.varEnv| - 1];
    forall k | 0 <= k < |env| ensures LayerOwn(LastFunction(st), env[k]) { assert LayerOwn(LastFunction(st), st.varEnv[k]); }
    EnvChanged(st, PopEnv(st).value);
  }

  lemma LayerLater(a: State, b: State, layer: Layer<Site>)
    requires Later(a, b) && LayerOwn(LastFunction(a), layer)
    ensures LayerOwn(LastFunction(b), layer)
  {
    hide Provides;
  }

  lemma {:induction false} MergeLayerOwn(st: State, first: Layer<Site>, second: Layer<Site>, keys: seq<string>)
    requires HasBlock(st) && Own(st) && (forall k <- keys :: k in first) && LayerOwn(LastFunction(st), first) && LayerOwn(LastFunction(st), second)
    ensures var r := MergeLayer(st, first, second, keys); Own(r.0) && Later(st, r.0) && LayerOwn(LastFunction(r.0), r.1)
    decreases keys
  {
    hide Own, Later, Provides, EmitResult;
    LaterSelf(st);
    if keys != [] && keys[0] in second {
      var k := keys[0];
      if first[k].v == second[k].v {
        MergeLayerOwn(st, first, second, keys[1..]);
      } else {
        var os := [PhiArg(first[k].block, first[k].v), PhiArg(second[k].block, second[k].v)];
        PhiOwn(LastFunction(st), os);
        EmitResultOwn(st, Phi, os);
        var st1 := EmitResult(st, Phi, os);
        LayerLater(st, st1, first);
        LayerLater(st, st1, second);
        var first' := first[k := first[k].(v := st.varId)];
        assert LayerOwn(LastFunction(st1), first');
        MergeLayerOwn(st1, first', second, keys[1..]);
        LaterTrans(st, st1, MergeLayer(st1, first', second, keys[1..]).0);
      }
    }
  }

  lemma PhiOwn(f: MirFunction, os: seq<Operand>)
    requires |os| == 2 && os[0].PhiArg? && os[1].PhiArg? && Provides(f, os[0].v) && Provides(f, os[1].v)
    ensures OperandsOwn(f, os)
  {
    hide Provides;
  }

  lemma EnvParts(f: MirFunction, env: Stack<Site>)
    requires EnvOwn(f, env) && env != []
    ensures LayerOwn(f, env[0]) && EnvOwn(f, env[1..])
  {
    hide LayerOwn;
    forall k | 0 <= k < |env| - 1 ensures LayerOwn(f, env[1..][k]) { assert LayerOwn(f, env[k + 1]); }
  }

  lemma EnvWhole(f: MirFunction, layer: Layer<Site>, rest: Stack<Site>)
    requires LayerOwn(f, layer) && EnvOwn(f, rest)
    ensures EnvOwn(f, [layer] + rest)
  {
    hide LayerOwn;
  }

  lemma {:induction false} MergeEnvsOwn(order: Order, st: State, e1: Stack<Site>, e2: Stack<Site>)
    requires HasBlock(st) && IsOrder(order) && Own(st) && EnvOwn(LastFunction(st), e1) && EnvOwn(LastFunction(st), e2)
    ensures var r := MergeEnvs(order, st, e1, e2); Own(r.0) && Later(st, r.0) && EnvOwn(LastFunction(r.0), r.1)
    decreases e1
  {
    hide Own, Later, EnvOwn, LayerOwn, MergeLayer;
    LaterSelf(st);
    if e1 != [] && e2 != [] {
      EnvParts(LastFunction(st), e1);
      EnvParts(LastFunction(st), e2);
      var keys := order(st, |e1|, e1[0].Keys);
      assert Enumerates(keys, e1[0].Keys);
      MergeLayerOwn(st, e1[0], e2[0], keys);
      var first := MergeLayer(st, e1[0], e2[0], keys);
      EnvLater(st, first.0, e1[1..]);
      EnvLater(st, first.0, e2[1..]);
      MergeEnvsOwn(order, first.0, e1[1..], e2[1..]);
      var rest := MergeEnvs(order, first.0, e1[1..], e2[1..]);
      LaterTrans(st, first.0, rest.0);
      LayerLater(first.0, rest.0, first.1);
      EnvWhole(LastFunction(rest.0), first.1, rest.1);
    }
  }

  // ---- Statements -------------------------------------------------------------------------

  lemma BindingOwn(st: State, x: string, init: Option<Expr>)
    requires Ready(st) && Own(st) && VisitBinding(st, x, init).Some?
    ensures var st' := VisitBinding(st, x, init).value; Own(st') && Later(st, st')
  {
    hide Own, Later, Provides, VisitExpr, RequireLastVar, VarBind;
    var st1 := VisitExpr(st, init.value).value;
    ExprOwn(st, init.value);
    LastVarOwn(st1);
    BindOwn(st1, x, RequireLastVar(st1).value);
    LaterTrans(st, st1, VisitBinding(st, x, init).value);
  }

  lemma AssignmentOwn(st: State, op: AssignOp, target: Expr, value: Expr)
    requires Ready(st) && Own(st) && VisitAssignment(st, op, target, value).Some?
    ensures var st' := VisitAssignment(st, op, target, value).value; Own(st') && Later(st, st')
  {
    hide Own, Later, Provides, VisitExpr, RequireLastVar, AddVariableRef, AddUpdate, Emit;
    var st0, st' := CreateVar(st), VisitAssignment(st, op, target, value).value;
    ReservedOwn(st);
    var st1 := VisitExpr(st0, value).value;
    ExprOwn(st0, value);
    LaterTrans(st, st0, st1);
    LastVarOwn(st1);
    var rv := RequireLastVar(st1).value;
    if op == Regular {
      AddUpdateOwn(st1, target.id, rv);
      LaterTrans(st, st1, st');
    } else {
      ComputedOwn(st1, op, target.id, rv, st.varId);
      LaterTrans(st, st1, st');
    }
  }

  /** The part of a compound assignment behind its right side. */
  lemma ComputedOwn(st1: State, op: AssignOp, x: string, rv: VarId, result: VarId)
    requires HasBlock(st1) && Own(st1) && op != Regular && Provides(LastFunction(st1), rv) && AddVariableRef(st1, x).Some?
    requires RequireLastVar(AddVariableRef(st1, x).value).Some?
    requires var st2 := AddVariableRef(st1, x).value;
      var st3 := Emit(st2, AssignOpcode(op), [Local(RequireLastVar(st2).value), Local(rv)], Some(result));
      op == ModAssign || AddUpdate(st3, x, result).Some?
    ensures var st2 := AddVariableRef(st1, x).value;
      var st3 := Emit(st2, AssignOpcode(op), [Local(RequireLastVar(st2).value), Local(rv)], Some(result));
      var st' := if op == ModAssign then st3 else AddUpdate(st3, x, result).value;
      Own(st') && Later(st1, st')
  {
    hide Own, Later, Provides, RequireLastVar, AddVariableRef, AddUpdate, Emit;
    var st2 := AddVariableRef(st1, x).value;
    RefOwn(st1, x);
    LastVarOwn(st2);
    ProvidesLater(st1, st2, rv);
    var os := [Local(RequireLastVar(st2).value), Local(rv)];
    LocalOwn(LastFunction(st2), os);
    hide OperandsOwn;
    EmitOwn(st2, AssignOpcode(op), os, Some(result));
    var st3 := Emit(st2, AssignOpcode(op), os, Some(result));
    LaterTrans(st1, st2, st3);
    if op != ModAssign {
      AddUpdateOwn(st3, x, result);
      LaterTrans(st1, st3, AddUpdate(st3, x, result).value);
    }
  }

  lemma StepOwn(st: State, op: Opcode, x: Expr)
    requires Ready(st) && Own(st) && VisitStep(st, op, x).Some?
    ensures var st' := VisitStep(st, op, x).value; Own(st') && Later(st, st')
  {
    hide Own, Later, Provides, VisitExpr, RequireLastVar, Emit;
    var st1 := VisitExpr(st, x).value;
    ExprOwn(st, x);
    LastVarOwn(st1);
    var os := [Local(RequireLastVar(st1).value), IntConst(1)];
    LocalOwn(LastFunction(st1), os);
    EmitOwn(st1, op, os, None);
    LaterTrans(st, st1, VisitStep(st, op, x).value);
  }

  lemma ConditionOwn(st: State, cond: Expr)
    requires Ready(st) && Own(st) && VisitCondition(st, cond).Some?
    ensures var st' := VisitCondition(st, cond).value; Own(st') && Later(st, st')
  {
    hide Own, Later, Provides, VisitExpr, RequireLastVar, EmitResult;
    var st1 := VisitExpr(st, cond).value;
    ExprOwn(st, cond);
    LastVarOwn(st1);
    var os := [Local(RequireLastVar(st1).value)];
    LocalOwn(LastFunction(st1), os);
    EmitResultOwn(st1, CondJump, os);
    LaterTrans(st, st1, VisitCondition(st, cond).value);
  }

  lemma ReturnOwn(order: Order, st: State, result: Option<Expr>)
    requires Ready(st) && IsOrder(order) && Own(st) && VisitStmt(order, st, Return(result)).Some?
    ensures var st' := VisitStmt(order, st, Return(result)).value; Own(st') && Later(st, st')
  {
    hide Own, Later, Provides, VisitExpr, RequireLastVar, Emit;
    if result.None? {
      LocalOwn(LastFunction(st), []);
      EmitOwn(st, ReturnOp, [], None);
    } else {
      var st1 := VisitExpr(st, result.value).value;
      ExprOwn(st, result.value);
      LastVarOwn(st1);
      var os := [Local(RequireLastVar(st1).value)];
      LocalOwn(LastFunction(st1), os);
      EmitOwn(st1, ReturnOp, os, None);
      LaterTrans(st, st1, VisitStmt(order, st, Return(result)).value);
    }
  }

  lemma {:induction false} StmtOwn(order: Order, st: State, s: Stmt)
    requires Ready(st) && IsOrder(order) && Own(st) && VisitStmt(order, st, s).Some?
    ensures var st' := VisitStmt(order, st, s).value; Own(st') && Later(st, st')
    decreases s, 2
  {
    LaterSame(st);
    LocalOwn(LastFunction(st), []);
    hide Own, Later, OperandsOwn, VisitExpr, VisitBinding, VisitAssignment, VisitStep, VisitCondition, VisitBranches, VisitLoop, Emit;
    match s
    case Let(x, init) => BindingOwn(st, x, init);
    case Var(x, init) => BindingOwn(st, x, init);
    case Assign(op, target, value) => AssignmentOwn(st, op, target, value);
    case Increment(x) => StepOwn(st, IAdd, x);
    case Decrement(x) => StepOwn(st, ISub, x);
    case ExprStmt(e) => ExprOwn(st, e);
    case Return(result) => ReturnOwn(order, st, result);
    case If(_, _, _, _) => IfOwn(order, st, s);
    case Loop(_, _, _, _) => LoopOwn(order, st, s);
    case Break => EmitOwn(st, BreakOp, [], None);
    case Continue => EmitOwn(st, ContinueOp, [], None);
    case Defer(_) =>
  }

  lemma {:induction false} ListOwn(order: Order, st: State, ss: seq<Stmt>)
    requires Ready(st) && IsOrder(order) && Own(st) && VisitList(order, st, ss).Some?
    ensures var st' := VisitList(order, st, ss).value; Own(st') && Later(st, st')
    decreases ss, 0
  {
    hide Own, Later, VisitStmt;
    LaterSame(st);
    if ss != [] {
      var st1 := VisitStmt(order, st, ss[0]).value;
      StmtOwn(order, st, ss[0]);
      ListOwn(order, st1, ss[1..]);
      LaterTrans(st, st1, VisitList(order, st1, ss[1..]).value);
    }
  }

  lemma {:induction false} NewEnvOwn(order: Order, st: State, ss: seq<Stmt>)
    requires Ready(st) && IsOrder(order) && Own(st) && VisitInNewEnv(order, st, ss).Some?
    ensures var r := VisitInNewEnv(order, st, ss).value; Own(r.0) && Later(st, r.0) && EnvOwn(LastFunction(r.0), r.1)
    decreases ss, 1
  {
    var st1 := VisitList(order, PushEnv(st), ss).value;
    PushOwn(st);
    ListOwn(order, PushEnv(st), ss);
    PopOwn(st1);
    EnvLater(st1, PopEnv(st1).value, st1.varEnv);
    hide Later, VisitList, EnvOwn;
    LaterTrans(st, PushEnv(st), st1);
    LaterTrans(st, st1, PopEnv(st1).value);
  }

  ghost predicate BranchOwn(t: Branch) {
    Own(t.st) && t.block.fn == |t.st.functions| - 1 && EnvOwn(LastFunction(t.st), t.env)
  }

  lemma {:induction false} BranchKeepsOwn(order: Order, st: State, prefix: string, branch: BlockRef, place: nat, code: seq<Stmt>)
    requires Ready(st) && IsOrder(order) && Own(st) && branch.fn == |st.functions| - 1
    requires VisitBranch(order, st, prefix, branch, place, code).Some?
    ensures var t := VisitBranch(order, st, prefix, branch, place, code).value; BranchOwn(t) && Later(st, t.st)
    decreases code, 2
  {
    hide Own, Later, EnvOwn, AddBlock, AddOperands, VisitInNewEnv;
    var st1 := AddBlock(st, prefix);
    AddBlockOwn(st, prefix);
    LastIndex(st, st1);
    LocalOwn(LastFunction(st1), [Label(LastRef(st1))]);
    var st2 := AddOperands(st1, branch, place, [Label(LastRef(st1))]);
    AddOperandsOwn(st1, branch, place, [Label(LastRef(st1))]);
    LaterTrans(st, st1, st2);
    var visited := VisitInNewEnv(order, st2, code).value;
    NewEnvOwn(order, st2, code);
    LaterTrans(st, st2, visited.0);
    LastIndex(st, visited.0);
    ReservedOwn(visited.0);
    SameProvides(visited.0);
    LaterTrans(st, visited.0, ReserveInstr(visited.0));
  }

  /** The state a branch leaves, with another environment. */
  lemma ResumedOwn(st: State, st1: State, env: Stack<Site>)
    requires Own(st1) && Later(st, st1) && EnvOwn(LastFunction(st1), env)
    ensures Own(st1.(varEnv := env)) && Later(st, st1.(varEnv := env))
  {
    EnvChanged(st1, st1.(varEnv := env));
    hide Own, Provides;
    LaterTrans(st, st1, st1.(varEnv := env));
  }

  lemma {:induction false} IfOwn(order: Order, st: State, s: Stmt)
    requires Ready(st) && IsOrder(order) && Own(st) && s.If? && VisitStmt(order, st, s).Some?
    ensures var st' := VisitStmt(order, st, s).value; Own(st') && Later(st, st')
    decreases s, 1
  {
    hide Own, Later, VisitCondition, VisitBranches;
    LaterSame(st);
    var st1 := BeforeTest(order, st, s).value;
    if s.first.Some? { StmtOwn(order, st, s.first.value); }
    var st2 := VisitCondition(st1, s.cond).value;
    ConditionOwn(st1, s.cond);
    LaterTrans(st, st1, st2);
    BranchesOwn(order, st2, s);
    LaterTrans(st, st2, VisitBranches(order, st2, s).value);
  }

  lemma {:induction false} BranchesOwn(order: Order, st: State, s: Stmt)
    requires Ready(st) && IsOrder(order) && Own(st) && s.If? && LastBlock(st).instructions != [] && VisitBranches(order, st, s).Some?
    ensures var st' := VisitBranches(order, st, s).value; Own(st') && Later(st, st')
    decreases s, 0
  {
    assert EnvOwn(LastFunction(st), st.varEnv);
    hide Own, Later, EnvOwn, VisitBranch, AddBlock, InsertJump, MergeEnvs, JoinBranches;
    var place: nat := |Instructions(st, LastRef(st))| - 1;
    var t := VisitBranch(order, st, "if_then", LastRef(st), place, s.onTrue).value;
    BranchKeepsOwn(order, st, "if_then", LastRef(st), place, s.onTrue);
    EnvLater(st, t.st, st.varEnv);
    var st1 := t.st.(varEnv := st.varEnv);
    ResumedOwn(st, t.st, st.varEnv);
    LastIndex(st, t.st);
    if s.onFalse.NoElse? {
      NoElseOwn(order, st, t, st.varEnv);
    } else {
      var e := VisitBranch(order, st1, "if_alt", LastRef(st), place, s.onFalse.code).value;
      BranchKeepsOwn(order, st1, "if_alt", LastRef(st), place, s.onFalse.code);
      LastIndex(st1, e.st);
      assert Later(t.st, e.st) by { ResumedOwn(t.st, t.st, st.varEnv) by { LaterSelf(t.st); } LaterTrans(t.st, st1, e.st); }
      JoinOwn(order, e.st, t, e);
      LaterTrans(st, st1, e.st);
      LaterTrans(st, e.st, JoinBranches(order, e.st, t, e));
    }
  }

  lemma NoElseOwn(order: Order, st: State, t: Branch, env: Stack<Site>)
    requires HasBlock(st) && IsOrder(order) && BranchOwn(t) && Later(st, t.st) && EnvOwn(LastFunction(t.st), env)
    ensures var st2 := AddBlock(t.st.(varEnv := env), "if_merge");
      var st3 := InsertJump(st2, t.jump, t.block, LastRef(st2));
      var st' := MergeEnvs(order, st3, env, t.env).0.(varEnv := env);
      Own(st') && Later(st, st')
  {
    hide Own, Later, EnvOwn, AddBlock, InsertJump, MergeEnvs;
    var st1 := t.st.(varEnv := env);
    ResumedOwn(st, t.st, env);
    assert Later(t.st, st1) by { ResumedOwn(t.st, t.st, env) by { LaterSelf(t.st); } }
    var st2 := AddBlock(st1, "if_merge");
    AddBlockOwn(st1, "if_merge");
    LastIndex(st1, st2);
    var st3 := InsertJump(st2, t.jump, t.block, LastRef(st2));
    InsertJumpOwn(st2, t.jump, t.block, LastRef(st2));
    LaterTrans(st1, st2, st3);
    LaterTrans(t.st, st1, st3);
    EnvLater(t.st, st3, env);
    EnvLater(t.st, st3, t.env);
    MergeEnvsOwn(order, st3, env, t.env);
    var st4 := MergeEnvs(order, st3, env, t.env).0;
    EnvLater(st3, st4, env);
    LaterTrans(st, st1, st3);
    LaterTrans(st, st3, st4);
    ResumedOwn(st, st4, env);
  }

  lemma JoinOwn(order: Order, st: State, t: Branch, e: Branch)
    requires Ready(st) && IsOrder(order) && Own(st) && t.env != [] && BranchOwn(t) && BranchOwn(e) && Later(t.st, st) && e.st == st
    ensures var st' := JoinBranches(order, st, t, e); Own(st') && Later(st, st')
  {
    hide Own, Later, EnvOwn, AddBlock, InsertJump, MergeEnvs;
    var st1 := AddBlock(st, "if_merge");
    var merge := LastRef(st1);
    AddBlockOwn(st, "if_merge");
    LastIndex(st, st1);
    LastIndex(t.st, st);
    TwoJumpsOwn(st1, t.jump, t.block, e.jump, e.block, merge);
    var st2 := InsertJump(InsertJump(st1, t.jump, t.block, merge), e.jump, e.block, merge);
    LaterTrans(st, st1, st2);
    LaterTrans(t.st, st, st2);
    EnvLater(t.st, st2, t.env);
    EnvLater(e.st, st2, e.env);
    MergeEnvsOwn(order, st2, t.env, e.env);
    var merged := MergeEnvs(order, st2, t.env, e.env);
    LaterTrans(st, st2, merged.0);
    ResumedOwn(st, merged.0, merged.1);
  }

  lemma CloseOwn(st: State, r: BlockRef, target: BlockRef, prefix: string)
    requires Ready(st) && Own(st) && r.fn == |st.functions| - 1
    ensures var st' := CloseBlock(st, r, target, prefix); Own(st') && Later(st, st')
  {
    hide Own, Later, AddBlock, InsertJump;
    var st0 := ReserveInstr(st);
    ReservedOwn(st);
    var st1 := InsertJump(st0, st.instrId, r, target);
    InsertJumpOwn(st0, st.instrId, r, target);
    AddBlockOwn(st1, prefix);
    LaterTrans(st, st0, st1);
    LaterTrans(st, st1, AddBlock(st1, prefix));
  }

  lemma {:induction false} LoopOwn(order: Order, st: State, s: Stmt)
    requires Ready(st) && IsOrder(order) && Own(st) && s.Loop? && VisitStmt(order, st, s).Some?
    ensures var st' := VisitStmt(order, st, s).value; Own(st') && Later(st, st')
    decreases s, 1
  {
    hide Own, Later, EnterBlock, VisitCondition, VisitInNewEnv, AddBlock, CloseBlock, AddOperands, OperandsOwn, VisitExpr, EnvOwn;
    var st0 := VisitStmt(order, st, s.first.value).value;
    StmtOwn(order, st, s.first.value);
    var st1 := EnterBlock(st0, "loop_cond");
    EnterOwn(st0, "loop_cond");
    LaterTrans(st, st0, st1);
    var st2 := VisitCondition(st1, s.test.value).value;
    ConditionOwn(st1, s.test.value);
    LaterTrans(st, st1, st2);
    var st3 := AddBlock(st2, "loop_expr");
    AddBlockOwn(st2, "loop_expr");
    LaterTrans(st, st2, st3);
    var st4 := VisitStmt(order, st3, s.post.value).value;
    StmtOwn(order, st3, s.post.value);
    LaterTrans(st, st3, st4);
    LastIndex(st, st1);
    LastIndex(st, st2);
    LastIndex(st, st3);
    LastIndex(st, st4);
    LoopBodyOwn(order, st, st4, LastRef(st3), LastRef(st1), LastRef(st2), |Instructions(st2, LastRef(st2))| - 1, s.body);
  }

  /** The part of a `Loop` behind its step. */
  lemma {:induction false} LoopBodyOwn(order: Order, st: State, st4: State, exprBlock: BlockRef, condBlock: BlockRef, branch: BlockRef, place: nat, body: seq<Stmt>)
    requires Ready(st4) && IsOrder(order) && Own(st4) && Later(st, st4) && exprBlock.fn == branch.fn == |st.functions| - 1
    requires VisitInNewEnv(order, CloseBlock(st4, exprBlock, condBlock, "loop_body"), body).Some?
    ensures var st5 := CloseBlock(st4, exprBlock, condBlock, "loop_body");
      var st6 := CloseBlock(VisitInNewEnv(order, st5, body).value.0, LastRef(st5), exprBlock, "loop_merge");
      var st' := AddOperands(st6, branch, place, [Label(LastRef(st5)), Label(LastRef(st6))]);
      Own(st') && Later(st, st')
    decreases body, 2
  {
    hide Own, Later, VisitInNewEnv, CloseBlock, AddOperands, EnvOwn;
    LastIndex(st, st4);
    var st5 := CloseBlock(st4, exprBlock, condBlock, "loop_body");
    CloseOwn(st4, exprBlock, condBlock, "loop_body");
    LaterTrans(st, st4, st5);
    LastIndex(st, st5);
    var visited := VisitInNewEnv(order, st5, body).value.0;
    NewEnvOwn(order, st5, body);
    LaterTrans(st, st5, visited);
    LastIndex(st, visited);
    var st6 := CloseBlock(visited, LastRef(st5), exprBlock, "loop_merge");
    CloseOwn(visited, LastRef(st5), exprBlock, "loop_merge");
    LaterTrans(st, visited, st6);
    LastIndex(st, st6);
    var os := [Label(LastRef(st5)), Label(LastRef(st6))];
    LocalOwn(LastFunction(st6), os);
    AddOperandsOwn(st6, branch, place, os);
    LaterTrans(st, st6, AddOperands(st6, branch, place, os));
  }

  // ---- Functions --------------------------------------------------------------------------

  lemma ParamOwn(st: State)
    requires Own(st)
    ensures Own(AddParam(st)) && Later(st, AddParam(st)) && Provides(LastFunction(AddParam(st)), st.varId)
  {
    SameCode(st, AddParam(st));
    assert st.varId in LastFunction(AddParam(st)).params;
    hide Provides;
    EnvLater(st, AddParam(st), st.varEnv);
  }

  lemma {:induction false} ParamsOwn(st: State, params: seq<string>)
    requires Ready(st) && Own(st) && VisitParams(st, params).Some?
    ensures Own(VisitParams(st, params).value) && Later(st, VisitParams(st, params).value)
    decreases |params|
  {
    LaterSelf(st);
    if params != [] {
      ParamOwn(st);
      hide Own, Later, Provides, AddParam, VarBind;
      var st1 := VarBind(AddParam(st), params[0], st.varId).value;
      BindOwn(AddParam(st), params[0], st.varId);
      LaterTrans(st, AddParam(st), st1);
      ParamsOwn(st1, params[1..]);
      LaterTrans(st, st1, VisitParams(st1, params[1..]).value);
    }
  }

  ghost predicate Nameless(env: Stack<Site>) {
    forall k :: 0 <= k < |env| ==> env[k] == map[]
  }

  lemma EntryOwn(st: State, f: string)
    requires TopLevel(st) && Nameless(st.varEnv)
    ensures Own(Entry(st, f)) && |Entry(st, f).functions| == |st.functions| + 1 && Entry(st, f).functions[..|st.functions|] == st.functions
  {
    var st' := Entry(st, f);
    assert LastFunction(st').blocks[0].instructions == [];
    assert Closed(LastFunction(st'));
    assert st'.varEnv == st.varEnv + [map[]];
  }

  /** A function that is lowered where no name is visible refers to its own variables only, and
      the functions before it are not touched. */
  lemma FunctionClosed(order: Order, st: State, f: string, params: seq<string>, code: seq<Stmt>)
    requires TopLevel(st) && IsOrder(order) && Nameless(st.varEnv) && VisitItem(order, st, Function(f, params, code)).Some?
    ensures var fs := VisitItem(order, st, Function(f, params, code)).value.functions;
      |fs| == |st.functions| + 1 && fs[..|st.functions|] == st.functions && Closed(fs[|st.functions|])
  {
    FunctionParts(order, st, f, params, code);
    EntryOwn(st, f);
    var st1 := Entry(st, f);
    hide Entry, VisitItem, VisitParams, VisitList, Closed, EnvOwn, Provides;
    var st2 := VisitParams(st1, params).value;
    ParamsOwn(st1, params);
    var st3 := VisitList(order, st2, code).value;
    ListOwn(order, st2, code);
    LaterTrans(st1, st2, st3);
  }

  lemma {:induction false} ItemsClosed(order: Order, st: State, items: seq<Item>)
    requires TopLevel(st) && IsOrder(order) && st.varEnv == [map[]] && VisitItems(order, st, items).Some? && ItemsLeave(items) == 0
    requires forall k :: 0 <= k < |st.functions| ==> Closed(st.functions[k])
    ensures var fs := VisitItems(order, st, items).value.functions; forall k :: 0 <= k < |fs| ==> Closed(fs[k])
    decreases |items|
  {
    if items != [] {
      var st1 := VisitItem(order, st, items[0]).value;
      ItemClosed(order, st, items[0]);
      hide VisitItem, Closed, ItemLeaves;
      ItemsClosed(order, st1, items[1..]);
    }
  }

  lemma ItemClosed(order: Order, st: State, item: Item)
    requires TopLevel(st) && IsOrder(order) && st.varEnv == [map[]] && VisitItem(order, st, item).Some? && ItemLeaves(item) == 0
    requires forall k :: 0 <= k < |st.functions| ==> Closed(st.functions[k])
    ensures VisitItem(order, st, item).value.varEnv == [map[]]
    ensures var fs := VisitItem(order, st, item).value.functions; forall k :: 0 <= k < |fs| ==> Closed(fs[k])
  {
    if item.Function? {
      hide VisitItem, Closed, AllLeftBehind;
      FunctionScopes(order, st, item.fname, item.params, item.code);
      FunctionClosed(order, st, item.fname, item.params, item.code);
      var st' := VisitItem(order, st, item).value;
      assert st'.varEnv[..1][0] == st'.varEnv[0];
      AllClosed(st, st');
    }
  }

  lemma AllClosed(st: State, st': State)
    requires |st'.varEnv| == 1 && st'.varEnv[0].Keys == {}
    requires forall k :: 0 <= k < |st.functions| ==> Closed(st.functions[k])
    requires |st'.functions| == |st.functions| + 1 && st'.functions[..|st.functions|] == st.functions && Closed(st'.functions[|st.functions|])
    ensures st'.varEnv == [map[]] && forall k :: 0 <= k < |st'.functions| ==> Closed(st'.functions[k])
  {
    hide Closed;
    forall k | 0 <= k < |st'.functions| ensures Closed(st'.functions[k]) {
      if k < |st.functions| { assert st'.functions[..|st.functions|][k] == st.functions[k]; }
    }
  }

  /** A parameter of function `n`, or the result of an instruction of it that was emitted before
      `id`. */
  ghost predicate OwnBefore(st: State, n: nat, v: VarId, id: nat)
    requires n < |st.functions|
  {
    v in st.functions[n].params || exists b: nat, i: nat :: Yields(st, BlockRef(n, b), i, v) && Get(st, BlockRef(n, b), i).id < id
  }

  lemma ClosedOwnBefore(st: State, r: BlockRef, i: nat, o: Operand)
    requires Ssa(st) && IsPlace(st, r, i) && Closed(st.functions[r.fn]) && o in Get(st, r, i).operands && (o.Local? || o.PhiArg?)
    ensures OwnBefore(st, r.fn, o.v, Get(st, r, i).id)
  {
    var f, x := st.functions[r.fn], Get(st, r, i);
    assert OperandsOwn(f, f.blocks[r.block].instructions[i].operands);
    var k :| 0 <= k < |x.operands| && x.operands[k] == o;
    assert Provides(f, o.v);
    assert SoundOperand(st, r, x, o);
    hide UniqueLabels, UniqueIds, Increasing, SoundOperands, SoundNames, Closed, OperandsOwn;
    if o.v !in f.params {
      var b: nat, j: nat :| Produces(f, b, j, o.v);
      assert Yields(st, BlockRef(r.fn, b), j, o.v);
      assert !IsParamVar(st, o.v);
      var q, m: nat :| Yields(st, q, m, o.v) && Get(st, q, m).id < x.id;
    }
  }

  /** As long as no function leaves a scope behind, every variable a function of the module refers
      to is one of its own parameters or the result of one of its own, earlier instructions. */
  lemma ProgramClosed(order: Order, items: seq<Item>)
    requires IsOrder(order) && VisitItems(order, INITIAL, items).Some? && ItemsLeave(items) == 0
    ensures var st := VisitItems(order, INITIAL, items).value;
      forall r, i: nat, o :: IsPlace(st, r, i) && o in Get(st, r, i).operands && (o.Local? || o.PhiArg?) ==> OwnBefore(st, r.fn, o.v, Get(st, r, i).id)
  {
    var st := VisitItems(order, INITIAL, items).value;
    SsaShape(order, items);
    ItemsClosed(order, INITIAL, items);
    hide Ssa, VisitItems, ItemsLeave, OwnBefore, Closed;
    forall r, i: nat, o | IsPlace(st, r, i) && o in Get(st, r, i).operands && (o.Local? || o.PhiArg?)
      ensures OwnBefore(st, r.fn, o.v, Get(st, r, i).id)
    {
      ClosedOwnBefore(st, r, i, o);
    }
  }

  // ---- A visible name is foreign ----------------------------------------------------------

  /** `return x` */
  function Returning(x: string): seq<Stmt> {
    [Return(Some(Identifier(x)))]
  }

  /** Its code, where `x` stands for variable `v`. */
  lemma ReturningCode(order: Order, st: State, g: string, x: string)
    requires TopLevel(st) && IsOrder(order) && x !in st.globals && Find(st.varEnv, x).Some?
    ensures VisitItem(order, st, Function(g, [], Returning(x))).Some?
    ensures var fs := VisitItem(order, st, Function(g, [], Returning(x))).value.functions;
      && |fs| == |st.functions| + 1
      && fs[|st.functions|].params == [] && |fs[|st.functions|].blocks| == 1
      && fs[|st.functions|].blocks[0].instructions ==
         [Instruction(st.instrId, Opcode.Update, [Local(Find(st.varEnv, x).value.v)], Some(st.varId)),
          Instruction(st.instrId + 1, ReturnOp, [Local(st.varId)], None)]
  {
    var st1 := Entry(st, g);
    FindPush(st.varEnv, x);
    hide Find;
    var st2 := AddVariableRef(st1, x).value;
    assert RequireLastVar(st2) == Some(st.varId);
    var st3 := Emit(st2, ReturnOp, [Local(st.varId)], None);
    ReturningList(order, st1, x);
    assert VisitParams(st1, []) == Some(st1);
    hide VisitList, AddVariableRef, Scopes.Update;
  }

  lemma ReturningList(order: Order, st: State, x: string)
    requires Ready(st) && IsOrder(order) && AddVariableRef(st, x).Some? && RequireLastVar(AddVariableRef(st, x).value).Some?
    ensures var st' := AddVariableRef(st, x).value;
      VisitList(order, st, Returning(x)) == Some(Emit(st', ReturnOp, [Local(RequireLastVar(st').value)], None))
  {
    hide AddVariableRef, RequireLastVar, Emit;
    var code := Returning(x);
    assert code[1..] == [];
    var st1 := AddVariableRef(st, x).value;
    var st2 := Emit(st1, ReturnOp, [Local(RequireLastVar(st1).value)], None);
    assert VisitExpr(st, Identifier(x)) == Some(st1);
    assert VisitStmt(order, st, code[0]) == Some(st2);
    hide VisitStmt;
    assert VisitList(order, st2, []) == Some(st2);
  }

  lemma VisibleForeign(order: Order, st: State, ix: Index, g: string, x: string)
    requires Inv(st, ix) && TopLevel(st) && IsOrder(order) && x !in st.globals && Find(st.varEnv, x).Some?
    ensures VisitItem(order, st, Function(g, [], Returning(x))).Some?
    ensures var fs := VisitItem(order, st, Function(g, [], Returning(x))).value.functions;
      |fs| == |st.functions| + 1 && !Closed(fs[|st.functions|])
  {
    hide VisitItem, Find, Closed;
    var v := Find(st.varEnv, x).value.v;
    assert v < st.varId by { FindOk(st, ix, st.varEnv, x); Fresh(st, ix); }
    hide Inv;
    ReturningCode(order, st, g, x);
    var f := VisitItem(order, st, Function(g, [], Returning(x))).value.functions[|st.functions|];
    NotClosed(f, v, st.varId, st.instrId);
  }

  lemma NotClosed(f: MirFunction, v: VarId, w: VarId, id: nat)
    requires f.params == [] && |f.blocks| == 1 && v != w
    requires f.blocks[0].instructions ==
      [Instruction(id, Opcode.Update, [Local(v)], Some(w)), Instruction(id + 1, ReturnOp, [Local(w)], None)]
    ensures !Closed(f)
  {
    if Closed(f) {
      assert OperandsOwn(f, f.blocks[0].instructions[0].operands);
      assert f.blocks[0].instructions[0].operands[0].Local?;
      assert Provides(f, v);
      var b: nat, i: nat :| Produces(f, b, i, v);
      assert false;
    }
  }

  /** The function that comes next, if it is lowered, refers to its own variables only. */
  ghost predicate NextClosed(order: Order, st: State, f: string, params: seq<string>, code: seq<Stmt>)
    requires TopLevel(st) && IsOrder(order)
  {
    var st' := VisitItem(order, st, Function(f, params, code));
    st'.Some? ==> HasFunction(st'.value) && Closed(LastFunction(st'.value))
  }

  /** Where there are no globals, whatever function comes next refers to its own variables only,
      exactly when no name is visible in front of it. */
  lemma ClosedExactly(order: Order, st: State, ix: Index)
    requires Inv(st, ix) && TopLevel(st) && IsOrder(order) && st.globals == {}
    ensures Nameless(st.varEnv) <==> forall f, params, code :: NextClosed(order, st, f, params, code)
  {
    hide Inv, VisitItem, Closed;
    if Nameless(st.varEnv) {
      forall f, params, code ensures NextClosed(order, st, f, params, code) {
        if VisitItem(order, st, Function(f, params, code)).Some? { FunctionClosed(order, st, f, params, code); }
      }
    } else {
      var k :| 0 <= k < |st.varEnv| && st.varEnv[k] != map[];
      var x :| x in st.varEnv[k];
      FlatKeys(st.varEnv, x);
      FindIsFlat(st.varEnv, x);
      VisibleForeign(order, st, ix, "g", x);
      assert !NextClosed(order, st, "g", [], Returning(x));
    }
  }
}
