/** How control goes on behind a statement, said of statements and of opcodes alike. */
module MirEffects {
  import opened Ast
  import opened Statements
  import opened Scopes
  import opened Mir
  import opened MirFactory
  import opened MirBuilder
  import opened MirMeaning
  import opened MirBlocks
  import opened Words

  datatype Effect = GoesOn | LeavesLoop | NextRound | LeavesFunction

  function OpEffect(op: Opcode): Effect {
    match op
    case BreakOp => LeavesLoop
    case ContinueOp => NextRound
    case ReturnOp => LeavesFunction
    case _ => GoesOn
  }

  function StmtEffect(s: Stmt): Effect {
    match s
    case Break => LeavesLoop
    case Continue => NextRound
    case Return(_) => LeavesFunction
    case _ => GoesOn
  }

  ghost predicate Quiet(code: seq<Instruction>) {
    forall x <- code :: OpEffect(x.op) == GoesOn
  }

  /** Code is added to the last block, and none of it leaves. */
  ghost predicate Calm(a: State, b: State) {
    Straight(a, b) && Quiet(Code(a, b))
  }

  lemma CalmTrans(a: State, b: State, c: State)
    requires Calm(a, b) && Calm(b, c)
    ensures Calm(a, c)
  {
    CodeTrans(a, b, c);
    hide Code;
  }

  lemma SameCalm(a: State, b: State)
    requires HasBlock(a) && b.functions == a.functions && b.globals == a.globals && a.varId <= b.varId
    ensures Calm(a, b)
  {}

  // ---- Expressions in one block -----------------------------------------------------------

  lemma EmitCalm(st: State, op: Opcode, os: seq<Operand>, result: Option<VarId>)
    requires HasBlock(st) && OpEffect(op) == GoesOn
    ensures Calm(st, Emit(st, op, os, result))
  {
    EmitCode(st, op, os, result);
    hide Emit, Code;
  }

  lemma ResultCalm(st: State, op: Opcode, os: seq<Operand>)
    requires HasBlock(st) && OpEffect(op) == GoesOn
    ensures Calm(st, EmitResult(st, op, os))
  {
    EmitResultCode(st, op, os);
    hide EmitResult, Code;
  }

  lemma UpdateCalm(st: State, x: string, v: VarId)
    requires HasBlock(st) && AddUpdate(st, x, v).Some?
    ensures Calm(st, AddUpdate(st, x, v).value)
  {
    ResultCalm(st, Opcode.Update, [Local(v)]);
    hide EmitResult;
  }

  lemma RefCalm(st: State, x: string)
    requires HasBlock(st) && AddVariableRef(st, x).Some?
    ensures Calm(st, AddVariableRef(st, x).value)
  {
    if x in st.globals { ResultCalm(st, Load, [Global(x)]); } else { UpdateCalm(st, x, Find(st.varEnv, x).value.v); }
    hide EmitResult, AddUpdate, Calm;
  }

  lemma BindCalm(st: State, x: string, v: VarId)
    requires HasBlock(st) && st.varEnv != [] && VarBind(st, x, v).Some?
    ensures Calm(st, VarBind(st, x, v).value)
  {
    ResultCalm(st, Bind, [Local(v)]);
    hide EmitResult, Insert;
  }

  lemma {:induction false} ExprCalm(st: State, e: Expr)
    requires Ready(st) && OneBlockExpr(e) && VisitExpr(st, e).Some?
    ensures Calm(st, VisitExpr(st, e).value)
    decreases e, 1
  {
    hide AddVariableRef, EmitResult, RequireLastVar, VisitLogical, Calm, AddCall, VisitLiteral;
    SameCalm(st, st);
    match e
    case Literal(lit) => LiteralCalm(st, lit);
    case Identifier(x) => RefCalm(st, x);
    case FunctionCall(f, args) =>
      var visited := VisitArgs(st, args).value;
      ArgsCalm(st, args);
      CallCalm(visited.0, f, visited.1);
      CalmTrans(st, visited.0, AddCall(visited.0, f, visited.1).value);
    case Prefix(op, x) =>
      if op == Positive || op == Negative {
        var st1 := VisitExpr(st, x).value;
        ExprCalm(st, x);
        if op == Negative {
          var os := [IntConst(0), Local(RequireLastVar(st1).value)];
          ResultCalm(st1, ISub, os);
          CalmTrans(st, st1, EmitResult(st1, ISub, os));
        }
      }
    case Infix(op, l, r) => InfixCalm(st, op, l, r);
    case _ =>
  }

  lemma LiteralCalm(st: State, lit: Ast.Literal)
    requires Ready(st) && VisitLiteral(st, lit).Some?
    ensures Calm(st, VisitLiteral(st, lit).value)
  {
    hide EmitResult, Calm;
    match lit
    case IntLit(n) => ResultCalm(st, ConstInt, [IntConst(Wrap32(n))]);
    case FloatLit(d) => ResultCalm(st, ConstFloat, [FloatConst(d)]);
    case BoolLit(b) => ResultCalm(st, ConstBool, [BoolConst(b)]);
    case CharLit(_) => SameCalm(st, st);
  }

  lemma CallCalm(st: State, f: string, vars: seq<VarId>)
    requires HasBlock(st) && AddCall(st, f, vars).Some?
    ensures Calm(st, AddCall(st, f, vars).value)
  {
    EmitCalm(st, CallOp, CallOperands(f, vars), None);
    hide Emit;
  }

  lemma {:induction false} InfixCalm(st: State, op: InfixOp, l: Expr, r: Expr)
    requires Ready(st) && OneBlockExpr(Infix(op, l, r)) && VisitExpr(st, Infix(op, l, r)).Some?
    ensures Calm(st, VisitExpr(st, Infix(op, l, r)).value)
    decreases Infix(op, l, r), 0
  {
    hide EmitResult, RequireLastVar, VisitLogical, Calm;
    var st1 := VisitExpr(st, l).value;
    ExprCalm(st, l);
    var st2 := VisitExpr(st1, r).value;
    ExprCalm(st1, r);
    CalmTrans(st, st1, st2);
    var os := [Local(RequireLastVar(st1).value), Local(RequireLastVar(st2).value)];
    ResultCalm(st2, InfixOpcode(op), os);
    CalmTrans(st, st2, EmitResult(st2, InfixOpcode(op), os));
  }

  lemma {:induction false} ArgsCalm(st: State, args: seq<Expr>)
    requires Ready(st) && OneBlockArgs(args) && VisitArgs(st, args).Some?
    ensures Calm(st, VisitArgs(st, args).value.0)
    decreases args, 1
  {
    hide RequireLastVar, Calm, VisitExpr, OneBlockExpr;
    SameCalm(st, st);
    if args != [] {
      var st1 := VisitExpr(st, args[0]).value;
      ExprCalm(st, args[0]);
      ArgsCalm(st1, args[1..]);
      CalmTrans(st, st1, VisitArgs(st1, args[1..]).value.0);
    }
  }

  // ---- Statements in one block ------------------------------------------------------------

  /** The last instruction has the effect, and is there if it leaves; those before it go on. */
  ghost predicate EndsWith(a: State, b: State, effect: Effect) {
    && Straight(a, b)
    && (Code(a, b) == [] ==> effect == GoesOn)
    && (Code(a, b) != [] ==>
          OpEffect(Code(a, b)[|Code(a, b)| - 1].op) == effect && Quiet(Code(a, b)[..|Code(a, b)| - 1]))
  }

  lemma CalmEnds(a: State, b: State)
    requires Calm(a, b)
    ensures EndsWith(a, b, GoesOn)
  {
    hide Code;
  }

  lemma EmitLeaves(a: State, b: State, op: Opcode, os: seq<Operand>)
    requires Calm(a, b)
    ensures EndsWith(a, Emit(b, op, os, None), OpEffect(op))
  {
    var c := Emit(b, op, os, None);
    EmitCode(b, op, os, None);
    CodeTrans(a, b, c);
    hide Emit, Code, OpEffect;
    assert Code(a, c)[..|Code(a, c)| - 1] == Code(a, b);
  }

  /** Of the code a statement adds in one block, the last instruction, if there is any, has the
      effect of the statement, and the others go on: a `break` leaves the loop, a `continue` starts
      its next round, a `return` leaves the function, and nothing else does. */
  lemma LastEffect(order: Order, st: State, s: Stmt)
    requires Ready(st) && IsOrder(order) && OneBlockStmt(s) && VisitStmt(order, st, s).Some?
    ensures EndsWith(st, VisitStmt(order, st, s).value, StmtEffect(s))
  {
    hide VisitExpr, VisitBinding, VisitAssignment, VisitStep, RequireLastVar, Emit, Calm, EndsWith, OneBlockExpr;
    SameCalm(st, st);
    match s
    case Return(result) =>
      if result.None? {
        EmitLeaves(st, st, ReturnOp, []);
      } else {
        var st1 := VisitExpr(st, result.value).value;
        ExprCalm(st, result.value);
        EmitLeaves(st, st1, ReturnOp, [Local(RequireLastVar(st1).value)]);
      }
    case Break => EmitLeaves(st, st, BreakOp, []);
    case Continue => EmitLeaves(st, st, ContinueOp, []);
    case _ =>
      StmtCalm(order, st, s);
      CalmEnds(st, VisitStmt(order, st, s).value);
  }

  lemma StmtCalm(order: Order, st: State, s: Stmt)
    requires Ready(st) && IsOrder(order) && OneBlockStmt(s) && StmtEffect(s) == GoesOn && VisitStmt(order, st, s).Some?
    ensures Calm(st, VisitStmt(order, st, s).value)
  {
    hide VisitExpr, VisitBinding, VisitAssignment, VisitStep, RequireLastVar, Emit, Calm, OneBlockExpr;
    SameCalm(st, st);
    match s
    case Let(x, init) => BindingCalm(st, x, init);
    case Var(x, init) => BindingCalm(st, x, init);
    case Assign(op, target, value) => AssignmentCalm(st, op, target, value);
    case Increment(x) => StepCalm(st, IAdd, x);
    case Decrement(x) => StepCalm(st, ISub, x);
    case ExprStmt(e) => ExprCalm(st, e);
    case Defer(_) =>
  }

  lemma BindingCalm(st: State, x: string, init: Option<Expr>)
    requires Ready(st) && OneBlockOption(init) && VisitBinding(st, x, init).Some?
    ensures Calm(st, VisitBinding(st, x, init).value)
  {
    hide VisitExpr, RequireLastVar, VarBind, Calm, OneBlockExpr;
    var st1 := VisitExpr(st, init.value).value;
    ExprCalm(st, init.value);
    BindCalm(st1, x, RequireLastVar(st1).value);
    CalmTrans(st, st1, VisitBinding(st, x, init).value);
  }

  lemma StepCalm(st: State, op: Opcode, x: Expr)
    requires Ready(st) && OneBlockExpr(x) && OpEffect(op) == GoesOn && VisitStep(st, op, x).Some?
    ensures Calm(st, VisitStep(st, op, x).value)
  {
    hide VisitExpr, RequireLastVar, Emit, Calm, OneBlockExpr;
    var st1 := VisitExpr(st, x).value;
    ExprCalm(st, x);
    EmitCalm(st1, op, [Local(RequireLastVar(st1).value), IntConst(1)], None);
    CalmTrans(st, st1, VisitStep(st, op, x).value);
  }

  lemma AssignmentCalm(st: State, op: AssignOp, target: Expr, value: Expr)
    requires Ready(st) && OneBlockExpr(value) && VisitAssignment(st, op, target, value).Some?
    ensures Calm(st, VisitAssignment(st, op, target, value).value)
  {
    hide VisitExpr, RequireLastVar, AddVariableRef, AddUpdate, Emit, Calm, OneBlockExpr;
    var c := CreateVar(st);
    SameCalm(st, c);
    var st1 := VisitExpr(c, value).value;
    ExprCalm(c, value);
    CalmTrans(st, c, st1);
    var rv := RequireLastVar(st1).value;
    var st' := VisitAssignment(st, op, target, value).value;
    if op == Regular {
      UpdateCalm(st1, target.id, rv);
      CalmTrans(st, st1, st');
    } else {
      var st2 := AddVariableRef(st1, target.id).value;
      RefCalm(st1, target.id);
      CalmTrans(st, st1, st2);
      var os := [Local(RequireLastVar(st2).value), Local(rv)];
      var st3 := Emit(st2, AssignOpcode(op), os, Some(st.varId));
      EmitCalm(st2, AssignOpcode(op), os, Some(st.varId));
      CalmTrans(st, st2, st3);
      if op != ModAssign {
        UpdateCalm(st3, target.id, st.varId);
        CalmTrans(st, st3, st');
      }
    }
  }

  // ---- Bodies in one block ----------------------------------------------------------------

  /** The effects of the statements that leave, in order. */
  function BodyEffects(ss: seq<Stmt>): seq<Effect> {
    if ss == [] then [] else (if StmtEffect(ss[0]) == GoesOn then [] else [StmtEffect(ss[0])]) + BodyEffects(ss[1..])
  }

  /** The effects of the instructions that leave, in order. */
  function CodeEffects(code: seq<Instruction>): seq<Effect> {
    if code == [] then [] else (if OpEffect(code[0].op) == GoesOn then [] else [OpEffect(code[0].op)]) + CodeEffects(code[1..])
  }

  lemma {:induction false} EffectsConcat(a: seq<Instruction>, b: seq<Instruction>)
    ensures CodeEffects(a + b) == CodeEffects(a) + CodeEffects(b)
  {
    if a == [] {
      assert a + b == b;
    } else {
      assert (a + b)[1..] == a[1..] + b;
      hide OpEffect;
      EffectsConcat(a[1..], b);
    }
  }

  lemma {:induction false} QuietEffects(code: seq<Instruction>)
    requires Quiet(code)
    ensures CodeEffects(code) == []
  {
    hide OpEffect;
    if code != [] {
      assert code[0] in code;
      QuietEffects(code[1..]);
    }
  }

  lemma EndEffects(a: State, b: State, effect: Effect)
    requires EndsWith(a, b, effect)
    ensures CodeEffects(Code(a, b)) == if effect == GoesOn then [] else [effect]
  {
    var code := Code(a, b);
    hide Code, OpEffect;
    if code != [] {
      var n := |code| - 1;
      QuietEffects(code[..n]);
      assert code == code[..n] + [code[n]];
      EffectsConcat(code[..n], [code[n]]);
    }
  }

  /** Of a list of statements in one block, the leaving instructions are those of the leaving
      statements, one for one and in order. */
  lemma {:induction false} ListEffects(order: Order, st: State, ss: seq<Stmt>)
    requires Ready(st) && IsOrder(order) && OneBlock(ss) && VisitList(order, st, ss).Some?
    ensures Straight(st, VisitList(order, st, ss).value)
    ensures CodeEffects(Code(st, VisitList(order, st, ss).value)) == BodyEffects(ss)
    decreases |ss|
  {
    hide VisitStmt, StmtEffect, OneBlockStmt, OpEffect, EndsWith;
    if ss == [] {
      SameCalm(st, st);
      QuietEffects(Code(st, st));
    } else {
      var st1 := VisitStmt(order, st, ss[0]).value;
      var st' := VisitList(order, st1, ss[1..]).value;
      LastEffect(order, st, ss[0]);
      EndEffects(st, st1, StmtEffect(ss[0]));
      assert Straight(st, st1) by { EndsStraight(st, st1, StmtEffect(ss[0])); }
      ListEffects(order, st1, ss[1..]);
      CodeTrans(st, st1, st');
      EffectsConcat(Code(st, st1), Code(st1, st'));
    }
  }

  lemma EndsStraight(a: State, b: State, effect: Effect)
    requires EndsWith(a, b, effect)
    ensures Straight(a, b)
  {}
}
