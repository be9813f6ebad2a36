/** The lowering visitor as an object that drives a module factory. Each method leaves the
    factory in the state its specifying function gives, or reports the exception. */
module MirVisitors {
  import opened Ast
  import opened Statements
  import opened Scopes
  import opened Mir
  import opened MirFactory
  import opened Words
  import Spec = MirBuilder
  import opened MirModuleFactories
  import MirProgram

  class MirBuilder {
    const factory: MirModuleFactory
    const order: Order

    constructor (order: Order)
      requires IsOrder(order)
      ensures fresh(factory) && factory.View() == INITIAL && this.order == order
    {
      factory := new MirModuleFactory();
      this.order := order;
    }

    ghost predicate Valid() {
      IsOrder(order)
    }

    function View(): State
      reads factory
    {
      State(factory.functions, factory.globals, factory.fnEnv, factory.varEnv, factory.blockId, factory.instrId, factory.varId)
    }

    // ---- Expressions ----------------------------------------------------------------------

    method VisitLiteral(lit: Ast.Literal) returns (ok: bool)
      requires Spec.Ready(factory.View())
      modifies factory
      ensures ok == Spec.VisitLiteral(old(factory.View()), lit).Some?
      ensures ok ==> factory.View() == Spec.VisitLiteral(old(factory.View()), lit).value
    {
      ok := true;
      match lit
      case IntLit(n) => var _ := factory.AddWithResult(ConstInt, [IntConst(Wrap32(n))]);
      case FloatLit(d) => var _ := factory.AddWithResult(ConstFloat, [FloatConst(d)]);
      case BoolLit(b) => var _ := factory.AddWithResult(ConstBool, [BoolConst(b)]);
      case StringLit(_) => ok := false;
      case CharLit(_) =>
    }

    method VisitExpr(e: Expr) returns (ok: bool)
      requires Spec.Ready(factory.View())
      modifies factory
      ensures ok == Spec.VisitExpr(old(factory.View()), e).Some?
      ensures ok ==> factory.View() == Spec.VisitExpr(old(factory.View()), e).value
      decreases e, 1
    {
      hide Spec.VisitLogical, AddVariableRef, AddCall, EmitResult, RequireLastVar;
      ok := true;
      match e
      case Literal(lit) => ok := VisitLiteral(lit);
      case Identifier(x) => ok := factory.AddVariableRef(x);
      case FunctionCall(f, args) =>
        var vars;
        ok, vars := GetCallArgs(args);
        if ok { ok := factory.AddCall(f, vars); }
      case Prefix(op, x) =>
        if op == Positive || op == Negative { ok := VisitUnary(op, x); }
      case Infix(op, l, r) =>
        if op == And || op == Or { ok := VisitLogical(op, l, r); }
        else { ok := VisitInfix(op, l, r); }
      case _ =>
    }

    method VisitUnary(op: PrefixOp, x: Expr) returns (ok: bool)
      requires Spec.Ready(factory.View()) && (op == Positive || op == Negative)
      modifies factory
      ensures ok == Spec.VisitExpr(old(factory.View()), Prefix(op, x)).Some?
      ensures ok ==> factory.View() == Spec.VisitExpr(old(factory.View()), Prefix(op, x)).value
      decreases x, 2
    {
      hide EmitResult, RequireLastVar;
      ok := VisitExpr(x);
      if !ok { return; }
      var v := factory.RequireLastVar();
      if v.None? { return false; }
      if op == Negative { var _ := factory.AddWithResult(ISub, [IntConst(0), Local(v.value)]); }
    }

    method VisitInfix(op: InfixOp, l: Expr, r: Expr) returns (ok: bool)
      requires Spec.Ready(factory.View()) && op != And && op != Or
      modifies factory
      ensures ok == Spec.VisitExpr(old(factory.View()), Infix(op, l, r)).Some?
      ensures ok ==> factory.View() == Spec.VisitExpr(old(factory.View()), Infix(op, l, r)).value
      decreases Infix(op, l, r), 0
    {
      hide EmitResult, RequireLastVar;
      ok := VisitExpr(l);
      if !ok { return; }
      var lv := factory.RequireLastVar();
      if lv.None? { return false; }
      ok := VisitExpr(r);
      if !ok { return; }
      var rv := factory.RequireLastVar();
      if rv.None? { return false; }
      var _ := factory.AddWithResult(Spec.InfixOpcode(op), [Local(lv.value), Local(rv.value)]);
    }

    method GetCallArgs(args: seq<Expr>) returns (ok: bool, vars: seq<VarId>)
      requires Spec.Ready(factory.View())
      modifies factory
      ensures ok == Spec.VisitArgs(old(factory.View()), args).Some?
      ensures ok ==> Spec.VisitArgs(old(factory.View()), args).value == (factory.View(), vars)
      decreases args, 0
    {
      hide Spec.VisitExpr, Spec.VisitArgs, RequireLastVar, ArgsLeft;
      ghost var st := factory.View();
      vars := [];
      ArgsStart(st, args);
      for i := 0 to |args|
        invariant Spec.Ready(factory.View()) && ArgsLeft(st, args, factory.View(), args[i..], vars)
      {
        ArgsStep(st, args, factory.View(), args[i..], vars);
        assert args[i..][0] == args[i] && args[i..][1..] == args[i + 1..];
        ok := VisitExpr(args[i]);
        if !ok { return; }
        var v := factory.RequireLastVar();
        if v.None? { return false, vars; }
        vars := vars + [v.value];
      }
      ArgsEnd(st, args, factory.View(), vars);
      return true, vars;
    }

    // ---- Short-circuit operators ----------------------------------------------------------

    method EnterBlock(prefix: string) returns (r: BlockRef)
      requires Spec.Ready(factory.View())
      modifies factory
      ensures factory.View() == Spec.EnterBlock(old(factory.View()), prefix) && r == LastRef(factory.View())
    {
      var entry, at := factory.Position();
      factory.AddInstruction(Jump);
      r := factory.AddBlock(prefix);
      factory.AddOperands(entry, at, [Label(r)]);
    }

    method VisitLeftTerm(op: InfixOp, l: Expr) returns (ok: bool, t: Option<Spec.LeftTerm>)
      requires Spec.Ready(factory.View())
      modifies factory
      ensures ok == Spec.VisitLeftTerm(old(factory.View()), op, l).Some?
      ensures ok ==> t == Spec.VisitLeftTerm(old(factory.View()), op, l) && factory.View() == t.value.st
      decreases l, 2
    {
      hide Spec.VisitExpr, Spec.EnterBlock, RequireLastVar, EmitResult;
      var left := EnterBlock(Spec.LogicalName(op) + "_left_term");
      ok := VisitExpr(l);
      if !ok { return false, None; }
      var lv := factory.RequireLastVar();
      if lv.None? { return false, None; }
      var branch, place := factory.Position();
      var branchVar := factory.AddWithResult(CondJump, []);
      var jump := factory.CreateInstruction();
      t := Some(Spec.LeftTerm(View(), left, lv.value, branch, place, branchVar, jump));
    }

    method VisitLogical(op: InfixOp, l: Expr, r: Expr) returns (ok: bool)
      requires Spec.Ready(factory.View())
      modifies factory
      ensures ok == Spec.VisitLogical(old(factory.View()), op, l, r).Some?
      ensures ok ==> factory.View() == Spec.VisitLogical(old(factory.View()), op, l, r).value
      decreases Infix(op, l, r), 0
    {
      hide Spec.VisitExpr, Spec.VisitLeftTerm, Spec.FinishLogical, RequireLastVar, MirFactory.AddBlock, LastRef, Spec.LogicalName;
      var t;
      ok, t := VisitLeftTerm(op, l);
      if ok { ok := VisitRightTerm(op, t.value, r); }
    }

    /** The part of an operator behind its left term. */
    method VisitRightTerm(op: InfixOp, t: Spec.LeftTerm, r: Expr) returns (ok: bool)
      requires Spec.Ready(factory.View())
      modifies factory
      ensures var st1 := MirFactory.AddBlock(old(factory.View()), Spec.LogicalName(op) + "_right_term");
        var st2 := Spec.VisitExpr(st1, r);
        ok == (st2.Some? && RequireLastVar(st2.value).Some?)
      ensures ok ==>
        var st1 := MirFactory.AddBlock(old(factory.View()), Spec.LogicalName(op) + "_right_term");
        var st2 := Spec.VisitExpr(st1, r).value;
        var st3 := MirFactory.AddBlock(ReserveInstr(st2), Spec.LogicalName(op) + "_merge");
        factory.View() == Spec.FinishLogical(st3, op, t, LastRef(st1), RequireLastVar(st2).value, st2.instrId)
      decreases r, 2
    {
      hide Spec.VisitExpr, Spec.FinishLogical, RequireLastVar, MirFactory.AddBlock, LastRef, Spec.LogicalName;
      var right := factory.AddBlock(Spec.LogicalName(op) + "_right_term");
      ok := VisitExpr(r);
      if !ok { return; }
      var rv := factory.RequireLastVar();
      if rv.None? { return false; }
      var jump := factory.CreateInstruction();
      var _ := factory.AddBlock(Spec.LogicalName(op) + "_merge");
      FinishLogical(op, t, right, rv.value, jump);
    }

    method FinishLogical(op: InfixOp, t: Spec.LeftTerm, right: BlockRef, rv: VarId, rightJump: nat)
      requires Spec.Ready(factory.View())
      modifies factory
      ensures factory.View() == Spec.FinishLogical(old(factory.View()), op, t, right, rv, rightJump)
    {
      hide EmitResult, MirFactory.AddOperands, MirFactory.InsertJump;
      var merge, _ := factory.Position();
      factory.AddOperands(t.branch, t.place,
        if op == And then [Local(t.leftVar), Label(right), Label(merge)]
        else [Local(t.leftVar), Label(merge), Label(right)]);
      var short := factory.AddWithResult(ConstBool, [BoolConst(op == Or)]);
      var _ := factory.AddWithResult(Phi,
        if op == And then [Local(t.branchVar), Local(rv), Local(short)]
        else [Local(t.branchVar), Local(short), Local(rv)]);
      factory.InsertJump(t.leftJump, t.left, merge);
      factory.InsertJump(rightJump, right, merge);
    }

    // ---- Statements -----------------------------------------------------------------------

    method VisitBinding(x: string, init: Option<Expr>) returns (ok: bool)
      requires Spec.Ready(factory.View())
      modifies factory
      ensures ok == Spec.VisitBinding(old(factory.View()), x, init).Some?
      ensures ok ==> factory.View() == Spec.VisitBinding(old(factory.View()), x, init).value
    {
      hide Spec.VisitExpr, RequireLastVar, VarBind;
      if init.None? { return false; }
      ok := VisitExpr(init.value);
      if !ok { return; }
      var v := factory.RequireLastVar();
      if v.None? { return false; }
      ok := factory.VarBind(x, v.value);
    }

    method VisitAssignment(op: AssignOp, target: Expr, value: Expr) returns (ok: bool)
      requires Spec.Ready(factory.View())
      modifies factory
      ensures ok == Spec.VisitAssignment(old(factory.View()), op, target, value).Some?
      ensures ok ==> factory.View() == Spec.VisitAssignment(old(factory.View()), op, target, value).value
    {
      hide Spec.VisitExpr, RequireLastVar, AddUpdate, AddVariableRef, Emit;
      if !target.Identifier? { return false; }
      var result := factory.CreateVar();
      ok := VisitExpr(value);
      if !ok { return; }
      var rv := factory.RequireLastVar();
      if rv.None? { return false; }
      if op == Regular {
        ok := factory.AddUpdate(target.id, rv.value);
        return;
      }
      ok := factory.AddVariableRef(target.id);
      if !ok { return; }
      var lv := factory.RequireLastVar();
      if lv.None? { return false; }
      factory.AddWith(Spec.AssignOpcode(op), [Local(lv.value), Local(rv.value)], Some(result));
      if op != ModAssign { ok := factory.AddUpdate(target.id, result); }
    }

    method VisitStep(op: Opcode, x: Expr) returns (ok: bool)
      requires Spec.Ready(factory.View())
      modifies factory
      ensures ok == Spec.VisitStep(old(factory.View()), op, x).Some?
      ensures ok ==> factory.View() == Spec.VisitStep(old(factory.View()), op, x).value
    {
      hide Spec.VisitExpr, RequireLastVar, Emit;
      ok := VisitExpr(x);
      if !ok { return; }
      var v := factory.RequireLastVar();
      if v.None? { return false; }
      factory.AddWith(op, [Local(v.value), IntConst(1)], None);
    }

    method VisitReturn(result: Option<Expr>) returns (ok: bool)
      requires Spec.Ready(factory.View()) && Valid()
      modifies factory
      ensures ok == Spec.VisitStmt(order, old(factory.View()), Return(result)).Some?
      ensures ok ==> factory.View() == Spec.VisitStmt(order, old(factory.View()), Return(result)).value
    {
      hide Spec.VisitExpr, RequireLastVar, Emit;
      if result.None? {
        factory.AddInstruction(ReturnOp);
        return true;
      }
      ok := VisitExpr(result.value);
      if !ok { return; }
      var v := factory.RequireLastVar();
      if v.None? { return false; }
      factory.AddWith(ReturnOp, [Local(v.value)], None);
    }

    method VisitCondition(cond: Expr) returns (ok: bool)
      requires Spec.Ready(factory.View())
      modifies factory
      ensures ok == Spec.VisitCondition(old(factory.View()), cond).Some?
      ensures ok ==> factory.View() == Spec.VisitCondition(old(factory.View()), cond).value
    {
      hide Spec.VisitExpr, RequireLastVar, EmitResult;
      ok := VisitExpr(cond);
      if !ok { return; }
      var v := factory.RequireLastVar();
      if v.None? { return false; }
      var _ := factory.AddWithResult(CondJump, [Local(v.value)]);
    }

    method VisitStmt(s: Stmt) returns (ok: bool)
      requires Spec.Ready(factory.View()) && Valid()
      modifies factory
      ensures ok == Spec.VisitStmt(order, old(factory.View()), s).Some?
      ensures ok ==> factory.View() == Spec.VisitStmt(order, old(factory.View()), s).value
      decreases s, 2
    {
      hide Spec.VisitBinding, Spec.VisitAssignment, Spec.VisitStep, Spec.VisitExpr, Spec.VisitBranches, Spec.VisitLoop, Spec.VisitCondition, Emit;
      ok := true;
      match s
      case Let(x, init) => ok := VisitBinding(x, init);
      case Var(x, init) => ok := VisitBinding(x, init);
      case Assign(op, target, value) => ok := VisitAssignment(op, target, value);
      case Increment(x) => ok := VisitStep(IAdd, x);
      case Decrement(x) => ok := VisitStep(ISub, x);
      case ExprStmt(e) => ok := VisitExpr(e);
      case Return(result) => ok := VisitReturn(result);
      case If(_, _, _, _) => ok := VisitIf(s);
      case Loop(_, _, _, _) => ok := VisitLoop(s);
      case Break => factory.AddInstruction(BreakOp);
      case Continue => factory.AddInstruction(ContinueOp);
      case Defer(_) =>
    }

    method VisitList(ss: seq<Stmt>) returns (ok: bool)
      requires Spec.Ready(factory.View()) && Valid()
      modifies factory
      ensures ok == Spec.VisitList(order, old(factory.View()), ss).Some?
      ensures ok ==> factory.View() == Spec.VisitList(order, old(factory.View()), ss).value
      decreases ss, 0
    {
      hide Spec.VisitStmt;
      ghost var st := factory.View();
      assert ss[0..] == ss;
      for i := 0 to |ss|
        invariant Spec.Ready(factory.View())
        invariant Spec.VisitList(order, st, ss) == Spec.VisitList(order, factory.View(), ss[i..])
      {
        assert ss[i..][0] == ss[i] && ss[i..][1..] == ss[i + 1..];
        ok := VisitStmt(ss[i]);
        if !ok { return; }
      }
      return true;
    }

    method TraverseInNewEnv(ss: seq<Stmt>) returns (ok: bool, env: Stack<Site>)
      requires Spec.Ready(factory.View()) && Valid()
      modifies factory
      ensures ok == Spec.VisitInNewEnv(order, old(factory.View()), ss).Some?
      ensures ok ==> Spec.VisitInNewEnv(order, old(factory.View()), ss).value == (factory.View(), env)
      decreases ss, 1
    {
      hide Spec.VisitList;
      factory.PushEnv();
      ok := VisitList(ss);
      env := factory.varEnv;
      if ok { ok := factory.PopEnv(); }
    }

    // ---- Branches and loops ---------------------------------------------------------------

    method VisitIf(s: Stmt) returns (ok: bool)
      requires Spec.Ready(factory.View()) && Valid() && s.If?
      modifies factory
      ensures ok == Spec.VisitStmt(order, old(factory.View()), s).Some?
      ensures ok ==> factory.View() == Spec.VisitStmt(order, old(factory.View()), s).value
      decreases s, 1
    {
      hide Spec.VisitCondition, Spec.VisitBranches;
      if s.first.Some? {
        ok := VisitStmt(s.first.value);
        if !ok { return; }
      }
      ok := VisitCondition(s.cond);
      if !ok { return; }
      ok := VisitBranches(s);
    }

    method VisitBranch(prefix: string, branch: BlockRef, place: nat, code: seq<Stmt>) returns (ok: bool, b: Option<Spec.Branch>)
      requires Spec.Ready(factory.View()) && Valid()
      modifies factory
      ensures ok == Spec.VisitBranch(order, old(factory.View()), prefix, branch, place, code).Some?
      ensures ok ==> b == Spec.VisitBranch(order, old(factory.View()), prefix, branch, place, code) && factory.View() == b.value.st
      decreases code, 2
    {
      hide Spec.VisitInNewEnv, MirFactory.AddBlock, MirFactory.AddOperands;
      var block := factory.AddBlock(prefix);
      factory.AddOperands(branch, place, [Label(block)]);
      var env;
      ok, env := TraverseInNewEnv(code);
      if !ok { return false, None; }
      var jump := factory.CreateInstruction();
      b := Some(Spec.Branch(View(), block, jump, env));
    }

    method VisitBranches(s: Stmt) returns (ok: bool)
      requires Spec.Ready(factory.View()) && Valid() && s.If? && LastBlock(factory.View()).instructions != []
      modifies factory
      ensures ok == Spec.VisitBranches(order, old(factory.View()), s).Some?
      ensures ok ==> factory.View() == Spec.VisitBranches(order, old(factory.View()), s).value
      decreases s, 0
    {
      hide Spec.VisitBranch, MirFactory.AddBlock, MirFactory.InsertJump, MirFactory.MergeEnvs, Spec.JoinBranches;
      var branch, n := factory.Position();
      var mainEnv := factory.varEnv;
      var t;
      ok, t := VisitBranch("if_then", branch, n - 1, s.onTrue);
      if !ok { return; }
      factory.SetVarEnv(mainEnv);
      if s.onFalse.NoElse? {
        var merge := factory.AddBlock("if_merge");
        factory.InsertJump(t.value.jump, t.value.block, merge);
        var _ := factory.MergeEnvs(order, mainEnv, t.value.env);
        factory.SetVarEnv(mainEnv);
      } else {
        var e;
        ok, e := VisitBranch("if_alt", branch, n - 1, s.onFalse.code);
        if !ok { return; }
        JoinBranches(t.value, e.value);
      }
    }

    method JoinBranches(t: Spec.Branch, e: Spec.Branch)
      requires Spec.Ready(factory.View()) && Valid() && t.env != []
      modifies factory
      ensures factory.View() == Spec.JoinBranches(order, old(factory.View()), t, e)
    {
      hide MirFactory.AddBlock, MirFactory.InsertJump, MirFactory.MergeEnvs;
      var merge := factory.AddBlock("if_merge");
      factory.InsertJump(t.jump, t.block, merge);
      factory.InsertJump(e.jump, e.block, merge);
      var merged := factory.MergeEnvs(order, t.env, e.env);
      factory.SetVarEnv(merged);
    }

    method CloseBlock(r: BlockRef, target: BlockRef, prefix: string) returns (next: BlockRef)
      requires Spec.Ready(factory.View())
      modifies factory
      ensures factory.View() == Spec.CloseBlock(old(factory.View()), r, target, prefix) && next == LastRef(factory.View())
    {
      hide MirFactory.InsertJump, MirFactory.AddBlock;
      var jump := factory.CreateInstruction();
      factory.InsertJump(jump, r, target);
      next := factory.AddBlock(prefix);
    }

    method VisitLoop(s: Stmt) returns (ok: bool)
      requires Spec.Ready(factory.View()) && Valid() && s.Loop?
      modifies factory
      ensures ok == Spec.VisitStmt(order, old(factory.View()), s).Some?
      ensures ok ==> factory.View() == Spec.VisitStmt(order, old(factory.View()), s).value
      decreases s, 1
    {
      hide Spec.VisitLoop;
      if s.first.None? || s.test.None? || s.post.None? { return false; }
      ok := VisitStmt(s.first.value);
      if !ok { return; }
      ok := VisitLoopBlocks(s);
    }

    method VisitLoopBlocks(s: Stmt) returns (ok: bool)
      requires Spec.Ready(factory.View()) && Valid() && s.Loop? && s.test.Some? && s.post.Some?
      modifies factory
      ensures ok == Spec.VisitLoop(order, old(factory.View()), s).Some?
      ensures ok ==> factory.View() == Spec.VisitLoop(order, old(factory.View()), s).value
      decreases s, 0
    {
      hide Spec.EnterBlock, Spec.VisitCondition, Spec.VisitStmt, Spec.CloseBlock, Spec.VisitInNewEnv, MirFactory.AddBlock, MirFactory.AddOperands;
      var condBlock := EnterBlock("loop_cond");
      ok := VisitCondition(s.test.value);
      if !ok { return; }
      var branch, n := factory.Position();
      var exprBlock := factory.AddBlock("loop_expr");
      ok := VisitStmt(s.post.value);
      if !ok { return; }
      var bodyBlock := CloseBlock(exprBlock, condBlock, "loop_body");
      var env;
      ok, env := TraverseInNewEnv(s.body);
      if !ok { return; }
      var merge := CloseBlock(bodyBlock, exprBlock, "loop_merge");
      factory.AddOperands(branch, n - 1, [Label(bodyBlock), Label(merge)]);
    }

    // ---- Top level ------------------------------------------------------------------------

    method VisitParams(params: seq<string>) returns (ok: bool)
      requires Spec.Ready(factory.View())
      modifies factory
      ensures ok == Spec.VisitParams(old(factory.View()), params).Some?
      ensures ok ==> factory.View() == Spec.VisitParams(old(factory.View()), params).value
    {
      hide VarBind;
      ghost var st := factory.View();
      assert params[0..] == params;
      for i := 0 to |params|
        invariant Spec.Ready(factory.View())
        invariant Spec.VisitParams(st, params) == Spec.VisitParams(factory.View(), params[i..])
      {
        assert params[i..][0] == params[i] && params[i..][1..] == params[i + 1..];
        var v := factory.AddParam();
        ok := factory.VarBind(params[i], v);
        if !ok { return; }
      }
      return true;
    }

    method VisitFunction(f: string, params: seq<string>, code: seq<Stmt>) returns (ok: bool)
      requires Spec.TopLevel(factory.View()) && Valid()
      modifies factory
      ensures ok == Spec.VisitItem(order, old(factory.View()), Function(f, params, code)).Some?
      ensures ok ==> factory.View() == Spec.VisitItem(order, old(factory.View()), Function(f, params, code)).value
    {
      hide Spec.VisitParams, Spec.VisitList, MirFactory.AddBlock, Find, Insert, Scopes.Update;
      factory.AddFunctionDefinition(f);
      var _ := factory.AddBlock("entry");
      factory.PushEnv();
      ok := VisitParams(params);
      if !ok { return; }
      ok := VisitList(code);
      if ok { ok := factory.PopEnv(); }
    }

    method VisitItem(item: Item) returns (ok: bool)
      requires Spec.TopLevel(factory.View()) && Valid()
      modifies factory
      ensures ok == Spec.VisitItem(order, old(factory.View()), item).Some?
      ensures ok ==> factory.View() == Spec.VisitItem(order, old(factory.View()), item).value
    {
      ok := true;
      match item
      case FunctionDecl(f) => factory.AddFunctionDeclaration(f);
      case GlobalDecl(x) => factory.AddGlobalDeclaration(x);
      case Function(f, params, code) => ok := VisitFunction(f, params, code);
    }

    /** Lowers a whole program; the module is what the factory then holds. A module begun from
        nothing is in SSA shape. */
    method Translate(items: seq<Item>) returns (ok: bool)
      requires Spec.TopLevel(factory.View()) && Valid()
      modifies factory
      ensures ok && old(factory.View()) == INITIAL ==> MirProgram.Ssa(factory.View())
      ensures ok == Spec.VisitItems(order, old(factory.View()), items).Some?
      ensures ok ==> factory.View() == Spec.VisitItems(order, old(factory.View()), items).value
    {
      hide Spec.VisitItem, MirProgram.Ssa;
      ghost var st := factory.View();
      assert items[0..] == items;
      for i := 0 to |items|
        invariant Spec.TopLevel(factory.View())
        invariant Spec.VisitItems(order, st, items) == Spec.VisitItems(order, factory.View(), items[i..])
      {
        assert items[i..][0] == items[i] && items[i..][1..] == items[i + 1..];
        ok := VisitItem(items[i]);
        if !ok { return; }
      }
      if st == INITIAL { MirProgram.SsaShape(order, items); }
      return true;
    }
  }

  /** Visiting all arguments comes down to visiting the ones that are left. */
  ghost predicate ArgsLeft(st: State, args: seq<Expr>, now: State, left: seq<Expr>, vars: seq<VarId>)
    requires Spec.Ready(st) && Spec.Ready(now)
  {
    var all, rest := Spec.VisitArgs(st, args), Spec.VisitArgs(now, left);
    all == if rest.None? then None else Some((rest.value.0, vars + rest.value.1))
  }

  lemma ArgsStart(st: State, args: seq<Expr>)
    requires Spec.Ready(st)
    ensures ArgsLeft(st, args, st, args[0..], [])
  {
    assert args[0..] == args;
    var all := Spec.VisitArgs(st, args);
    hide Spec.VisitArgs;
    if all.Some? { assert [] + all.value.1 == all.value.1; }
  }

  lemma ArgsStep(st: State, args: seq<Expr>, now: State, left: seq<Expr>, vars: seq<VarId>)
    requires Spec.Ready(st) && Spec.Ready(now) && ArgsLeft(st, args, now, left, vars) && left != []
    ensures var e := Spec.VisitExpr(now, left[0]);
      if e.None? || RequireLastVar(e.value).None? then Spec.VisitArgs(st, args).None?
      else ArgsLeft(st, args, e.value, left[1..], vars + [RequireLastVar(e.value).value])
  {
    hide Spec.VisitExpr, RequireLastVar;
    var all := Spec.VisitArgs(st, args);
    var e := Spec.VisitExpr(now, left[0]);
    if e.Some? && RequireLastVar(e.value).Some? {
      var v := RequireLastVar(e.value).value;
      var rest := Spec.VisitArgs(e.value, left[1..]);
      if rest.Some? { assert vars + ([v] + rest.value.1) == vars + [v] + rest.value.1; }
    }
  }

  lemma ArgsEnd(st: State, args: seq<Expr>, now: State, vars: seq<VarId>)
    requires Spec.Ready(st) && Spec.Ready(now) && ArgsLeft(st, args, now, args[|args|..], vars)
    ensures Spec.VisitArgs(st, args) == Some((now, vars))
  {
    assert Spec.VisitArgs(now, []) == Some((now, []));
    assert vars + [] == vars;
    assert args[|args|..] == [];
    hide Spec.VisitArgs;
  }
}
