/** Nothing of a program is lost, doubled or reordered: the instructions that compute, bind, test,
    call and leave, read block by block, are those of the source in visiting order, whatever the
    control flow. Jumps and PHIs are left to MirTargets and MirMerge. */
module MirTrace {
  import opened Ast
  import opened Statements
  import opened Scopes
  import opened Mir
  import opened MirFactory
  import opened MirBuilder
  import opened MirEffects
  import opened Words
  import Meaning

  datatype Event =
    | Enters(fname: string)
    | Number(n: int)
    | Decimal(digits: string)
    | Truth(b: bool)
    | ReadsGlobal(gname: string)
    | Copies
    | Computes(op: InfixOp)
    | Binds
    | Tests
    | Calls(callee: string)
    | Exits(effect: Effect)

  // ---- In the source ----------------------------------------------------------------------

  /** Reading a name. */
  function NameTrace(globals: set<string>, x: string): seq<Event> {
    if x in globals then [ReadsGlobal(x)] else [Copies]
  }

  function ExprTrace(globals: set<string>, e: Expr): seq<Event> {
    match e
    case Literal(IntLit(n)) => [Number(Wrap32(n))]
    case Literal(FloatLit(d)) => [Decimal(d)]
    case Literal(BoolLit(b)) => [Truth(b)]
    case Identifier(x) => NameTrace(globals, x)
    case FunctionCall(f, args) => ArgsTrace(globals, args) + [Calls(f)]
    case Prefix(Positive, x) => ExprTrace(globals, x)
    case Prefix(Negative, x) => ExprTrace(globals, x) + [Computes(Subtract)]
    case Infix(op, l, r) =>
      if op == And || op == Or then ExprTrace(globals, l) + [Tests] + ExprTrace(globals, r) + [Truth(op == Or)]
      else ExprTrace(globals, l) + ExprTrace(globals, r) + [Computes(op)]
    case _ => []
  }

  function ArgsTrace(globals: set<string>, args: seq<Expr>): seq<Event> {
    if args == [] then [] else ExprTrace(globals, args[0]) + ArgsTrace(globals, args[1..])
  }

  function OptionTrace(globals: set<string>, e: Option<Expr>): seq<Event> {
    if e.None? then [] else ExprTrace(globals, e.value)
  }

  /** The right side first; a compound assignment reads its name and computes. */
  function AssignTrace(globals: set<string>, op: AssignOp, target: Expr, value: Expr): seq<Event> {
    if !target.Identifier? then []
    else if op == Regular then ExprTrace(globals, value) + [Copies]
    else
      ExprTrace(globals, value) + NameTrace(globals, target.id) + [Computes(Meaning.AssignMeaning(op))]
      + if op == ModAssign then [] else [Copies]
  }

  function StmtTrace(globals: set<string>, s: Stmt): seq<Event>
    decreases s, 0
  {
    match s
    case Let(_, init) => OptionTrace(globals, init) + [Binds]
    case Var(_, init) => OptionTrace(globals, init) + [Binds]
    case Assign(op, target, value) => AssignTrace(globals, op, target, value)
    case Increment(x) => ExprTrace(globals, x) + [Computes(Add)]
    case Decrement(x) => ExprTrace(globals, x) + [Computes(Subtract)]
    case ExprStmt(e) => ExprTrace(globals, e)
    case Return(result) => OptionTrace(globals, result) + [Exits(LeavesFunction)]
    case If(first, cond, onTrue, onFalse) =>
      (if first.None? then [] else StmtTrace(globals, first.value)) + ExprTrace(globals, cond) + [Tests]
      + ListTrace(globals, onTrue) + if onFalse.NoElse? then [] else ListTrace(globals, onFalse.code)
    case Loop(first, test, post, body) =>
      (if first.None? then [] else StmtTrace(globals, first.value)) + OptionTrace(globals, test) + [Tests]
      + (if post.None? then [] else StmtTrace(globals, post.value)) + ListTrace(globals, body)
    case Break => [Exits(LeavesLoop)]
    case Continue => [Exits(NextRound)]
    case Defer(_) => []
  }

  function ListTrace(globals: set<string>, ss: seq<Stmt>): seq<Event>
    decreases ss, 0
  {
    if ss == [] then [] else StmtTrace(globals, ss[0]) + ListTrace(globals, ss[1..])
  }

  function Bindings(n: nat): seq<Event> {
    seq(n, i => Binds)
  }

  function ItemsTrace(globals: set<string>, items: seq<Item>): seq<Event>
    decreases |items|
  {
    if items == [] then []
    else
      match items[0]
      case FunctionDecl(_) => ItemsTrace(globals, items[1..])
      case GlobalDecl(x) => ItemsTrace(globals + {x}, items[1..])
      case Function(f, params, code) =>
        [Enters(f)] + Bindings(|params|) + ListTrace(globals, code) + ItemsTrace(globals, items[1..])
  }

  // ---- In the module ----------------------------------------------------------------------

  function Sum(a: Option<seq<Event>>, b: Option<seq<Event>>): Option<seq<Event>> {
    if a.None? || b.None? then None else Some(a.value + b.value)
  }

  /** What an instruction does; `None` for one that lacks its operand. */
  function Events(x: Instruction): Option<seq<Event>> {
    var o := if x.operands == [] then NullLocal else x.operands[0];
    match x.op
    case ConstInt => if o.IntConst? then Some([Number(o.n)]) else None
    case ConstFloat => if o.FloatConst? then Some([Decimal(o.digits)]) else None
    case ConstBool => if o.BoolConst? then Some([Truth(o.b)]) else None
    case Load => if o.Global? then Some([ReadsGlobal(o.name)]) else None
    case CallOp => if o.FunctionLabel? then Some([Calls(o.name)]) else None
    case Update => Some([Copies])
    case Bind => Some([Binds])
    case CondJump => Some([Tests])
    case BreakOp => Some([Exits(LeavesLoop)])
    case ContinueOp => Some([Exits(NextRound)])
    case ReturnOp => Some([Exits(LeavesFunction)])
    case IAdd => Some([Computes(Add)])
    case ISub => Some([Computes(Subtract)])
    case IMul => Some([Computes(Multiply)])
    case IDiv => Some([Computes(Divide)])
    case IMod => Some([Computes(Modulo)])
    case ICmpLt => Some([Computes(LessThan)])
    case ICmpLte => Some([Computes(LessThanEqual)])
    case ICmpEq => Some([Computes(Equal)])
    case ICmpNe => Some([Computes(NotEqual)])
    case ICmpGt => Some([Computes(GreaterThan)])
    case ICmpGte => Some([Computes(GreaterThanEqual)])
    case Jump => Some([])
    case Phi => Some([])
  }

  function CodeTrace(code: seq<Instruction>): Option<seq<Event>> {
    if code == [] then Some([]) else Sum(CodeTrace(code[..|code| - 1]), Events(code[|code| - 1]))
  }

  function BlocksTrace(bs: seq<Block>): Option<seq<Event>> {
    if bs == [] then Some([]) else Sum(BlocksTrace(bs[..|bs| - 1]), CodeTrace(bs[|bs| - 1].instructions))
  }

  /** What an instruction binds. */
  function Binding(x: Instruction): seq<VarId> {
    if x.op == Bind && x.result.Some? then [x.result.value] else []
  }

  /** The variables that were bound, in order. */
  function Bound(code: seq<Instruction>): seq<VarId> {
    if code == [] then [] else Bound(code[..|code| - 1]) + Binding(code[|code| - 1])
  }

  function BoundIn(bs: seq<Block>): seq<VarId> {
    if bs == [] then [] else BoundIn(bs[..|bs| - 1]) + Bound(bs[|bs| - 1].instructions)
  }

  /** `None` also for a function whose list of locals is not that of its bound variables. */
  function FunctionTrace(f: MirFunction): Option<seq<Event>> {
    if f.locals != BoundIn(f.blocks) then None else Sum(Some([Enters(f.name)]), BlocksTrace(f.blocks))
  }

  function Trace(fs: seq<MirFunction>): Option<seq<Event>> {
    if fs == [] then Some([]) else Sum(Trace(fs[..|fs| - 1]), FunctionTrace(fs[|fs| - 1]))
  }

  /** The trace grows by these events. */
  ghost predicate Adds(a: State, b: State, es: seq<Event>) {
    Trace(a.functions).Some? ==> Trace(b.functions) == Some(Trace(a.functions).value + es)
  }

  lemma AddsTrans(a: State, b: State, c: State, d: seq<Event>, e: seq<Event>)
    requires Adds(a, b, d) && Adds(b, c, e)
    ensures Adds(a, c, d + e)
  {
    if Trace(a.functions).Some? {
      assert Trace(a.functions).value + d + e == Trace(a.functions).value + (d + e);
    }
  }

  lemma AddsNothing(a: State, b: State)
    requires b.functions == a.functions
    ensures Adds(a, b, [])
  {
    if Trace(a.functions).Some? { assert Trace(a.functions).value + [] == Trace(a.functions).value; }
  }

  lemma AddsThen(a: State, b: State, c: State, d: seq<Event>)
    requires Adds(a, b, d) && Adds(b, c, [])
    ensures Adds(a, c, d)
  {
    AddsTrans(a, b, c, d, []);
    assert d + [] == d;
  }

  // ---- Changing a block -------------------------------------------------------------------

  lemma {:induction false} BlockReplaced(bs: seq<Block>, i: nat, b: Block)
    requires i < |bs|
    requires CodeTrace(bs[i].instructions).Some? ==> CodeTrace(b.instructions) == CodeTrace(bs[i].instructions)
    requires Bound(b.instructions) == Bound(bs[i].instructions)
    ensures BlocksTrace(bs).Some? ==> BlocksTrace(bs[i := b]) == BlocksTrace(bs)
    ensures BoundIn(bs[i := b]) == BoundIn(bs)
  {
    var n := |bs| - 1;
    if i == n {
      assert bs[i := b][..n] == bs[..n];
    } else {
      BlockReplaced(bs[..n], i, b);
      assert bs[i := b][..n] == bs[..n][i := b];
    }
  }

  lemma {:induction false} FunctionReplaced(fs: seq<MirFunction>, i: nat, f: MirFunction)
    requires i < |fs|
    requires FunctionTrace(fs[i]).Some? ==> FunctionTrace(f) == FunctionTrace(fs[i])
    ensures Trace(fs).Some? ==> Trace(fs[i := f]) == Trace(fs)
  {
    hide FunctionTrace;
    var n := |fs| - 1;
    if i == n {
      assert fs[i := f][..n] == fs[..n];
    } else {
      FunctionReplaced(fs[..n], i, f);
      assert fs[i := f][..n] == fs[..n][i := f];
    }
  }

  /** A change that a block's trace does not show. */
  lemma SilentChange(st: State, r: BlockRef, ins: seq<Instruction>)
    requires IsBlock(st, r)
    requires CodeTrace(Instructions(st, r)).Some? ==> CodeTrace(ins) == CodeTrace(Instructions(st, r))
    requires Bound(ins) == Bound(Instructions(st, r))
    ensures Adds(st, SetInstructions(st, r, ins), [])
  {
    var f := st.functions[r.fn];
    var b := f.blocks[r.block].(instructions := ins);
    BlockReplaced(f.blocks, r.block, b);
    FunctionReplaced(st.functions, r.fn, f.(blocks := f.blocks[r.block := b]));
    hide BlocksTrace, Trace, CodeTrace, BoundIn;
    if Trace(st.functions).Some? { assert Trace(st.functions).value + [] == Trace(st.functions).value; }
  }

  lemma LastFunctionAdds(fs: seq<MirFunction>, f: MirFunction, es: seq<Event>)
    requires fs != [] && f.name == fs[|fs| - 1].name
    requires BlocksTrace(f.blocks) == Sum(BlocksTrace(fs[|fs| - 1].blocks), Some(es))
    requires fs[|fs| - 1].locals == BoundIn(fs[|fs| - 1].blocks) ==> f.locals == BoundIn(f.blocks)
    ensures Trace(fs).Some? ==> Trace(fs[|fs| - 1 := f]) == Some(Trace(fs).value + es)
  {
    hide BlocksTrace, BoundIn;
    var n := |fs| - 1;
    assert fs[n := f][..n] == fs[..n];
    FunctionAdds(fs[n], f, es);
    hide FunctionTrace;
    SumRegroup(Trace(fs[..n]), FunctionTrace(fs[n]), Some(es));
  }

  lemma FunctionAdds(a: MirFunction, b: MirFunction, es: seq<Event>)
    requires b.name == a.name && BlocksTrace(b.blocks) == Sum(BlocksTrace(a.blocks), Some(es))
    requires a.locals == BoundIn(a.blocks) ==> b.locals == BoundIn(b.blocks)
    ensures FunctionTrace(a).Some? ==> FunctionTrace(b) == Sum(FunctionTrace(a), Some(es))
  {
    hide BlocksTrace, BoundIn;
    SumRegroup(Some([Enters(a.name)]), BlocksTrace(a.blocks), Some(es));
  }

  lemma CodeAppended(code: seq<Instruction>, x: Instruction)
    ensures CodeTrace(code + [x]) == Sum(CodeTrace(code), Events(x))
    ensures Bound(code + [x]) == Bound(code) + Binding(x)
  {
    assert (code + [x])[..|code|] == code;
  }

  lemma SumRegroup(a: Option<seq<Event>>, b: Option<seq<Event>>, c: Option<seq<Event>>)
    ensures Sum(a, Sum(b, c)) == Sum(Sum(a, b), c)
  {
    if a.Some? && b.Some? && c.Some? { assert a.value + (b.value + c.value) == a.value + b.value + c.value; }
  }

  lemma LastBlockTrace(bs: seq<Block>, b: Block)
    requires bs != []
    ensures var n := |bs| - 1;
      && BlocksTrace(bs[n := b]) == Sum(BlocksTrace(bs[..n]), CodeTrace(b.instructions))
      && BoundIn(bs[n := b]) == BoundIn(bs[..n]) + Bound(b.instructions)
  {
    var n := |bs| - 1;
    assert bs[n := b][..n] == bs[..n];
    hide CodeTrace, Bound, Sum;
  }

  lemma LastBlockAdds(bs: seq<Block>, x: Instruction)
    requires bs != []
    ensures var b := bs[|bs| - 1]; var bs' := bs[|bs| - 1 := b.(instructions := b.instructions + [x])];
      BlocksTrace(bs') == Sum(BlocksTrace(bs), Events(x)) && BoundIn(bs') == BoundIn(bs) + Binding(x)
  {
    hide *;
    var n := |bs| - 1;
    var b := bs[n].(instructions := bs[n].instructions + [x]);
    CodeAppended(bs[n].instructions, x);
    LastBlockTrace(bs, b);
    assert bs[n := bs[n]] == bs;
    LastBlockTrace(bs, bs[n]);
    SumRegroup(BlocksTrace(bs[..n]), CodeTrace(bs[n].instructions), Events(x));
    assert BoundIn(bs[..n]) + (Bound(bs[n].instructions) + Binding(x)) == BoundIn(bs[..n]) + Bound(bs[n].instructions) + Binding(x);
  }

  // ---- Factory operations -----------------------------------------------------------------

  /** The last block of a function gets one more instruction. */
  lemma AppendedAdds(a: State, b: State, x: Instruction)
    requires HasBlock(a) && Events(x).Some?
    requires var f := LastFunction(a); var last := LastBlock(a);
      b.functions == a.functions[|a.functions| - 1 :=
        f.(blocks := f.blocks[|f.blocks| - 1 := last.(instructions := last.instructions + [x])], locals := f.locals + Binding(x))]
    ensures Adds(a, b, Events(x).value)
  {
    hide Trace, BlocksTrace, BoundIn, Events, Binding;
    var f := LastFunction(a);
    LastBlockAdds(f.blocks, x);
    var f' := f.(blocks := f.blocks[|f.blocks| - 1 := LastBlock(a).(instructions := LastBlock(a).instructions + [x])], locals := f.locals + Binding(x));
    LastFunctionAdds(a.functions, f', Events(x).value);
  }

  lemma EmitAdds(st: State, op: Opcode, os: seq<Operand>, result: Option<VarId>)
    requires HasBlock(st) && op != Bind && Events(Instruction(st.instrId, op, os, result)).Some?
    ensures Adds(st, Emit(st, op, os, result), Events(Instruction(st.instrId, op, os, result)).value)
  {
    hide Adds, Events;
    var x := Instruction(st.instrId, op, os, result);
    assert LastFunction(st).locals + Binding(x) == LastFunction(st).locals;
    AppendedAdds(st, Emit(st, op, os, result), x);
  }

  lemma ResultAdds(st: State, op: Opcode, os: seq<Operand>)
    requires HasBlock(st) && op != Bind && Events(Instruction(st.instrId, op, os, Some(st.varId))).Some?
    ensures Adds(st, EmitResult(st, op, os), Events(Instruction(st.instrId, op, os, Some(st.varId))).value)
  {
    hide Emit, Events, Trace;
    EmitAdds(CreateVar(st), op, os, Some(st.varId));
  }

  lemma InsertAdds(st: State, id: nat, r: BlockRef, target: BlockRef)
    ensures Adds(st, InsertJump(st, id, r, target), [])
  {
    AddsNothing(st, st);
    if IsBlock(st, r) {
      var x := Instruction(id, Jump, [Label(target)], None);
      var code := Instructions(st, r);
      CodeAppended(code, x);
      if CodeTrace(code).Some? { assert CodeTrace(code).value + [] == CodeTrace(code).value; }
      assert Bound(code) + [] == Bound(code);
      hide CodeTrace, Adds, Bound;
      SilentChange(st, r, code + [x]);
    }
  }

  lemma OperandsAdd(st: State, r: BlockRef, i: nat, os: seq<Operand>)
    ensures Adds(st, AddOperands(st, r, i, os), [])
  {
    AddsNothing(st, st);
    if IsPlace(st, r, i) {
      var instr := Get(st, r, i);
      InstructionReplaced(Instructions(st, r), i, instr.(operands := instr.operands + os));
      hide CodeTrace, Adds, Events, Bound;
      SilentChange(st, r, Instructions(st, r)[i := instr.(operands := instr.operands + os)]);
    }
  }

  lemma {:induction false} InstructionReplaced(code: seq<Instruction>, i: nat, x: Instruction)
    requires i < |code| && x.op == code[i].op && code[i].operands <= x.operands && x.result == code[i].result
    ensures CodeTrace(code).Some? ==> CodeTrace(code[i := x]) == CodeTrace(code)
    ensures Bound(code[i := x]) == Bound(code)
  {
    var n := |code| - 1;
    if i == n {
      assert code[i := x][..n] == code[..n];
    } else {
      hide Events;
      InstructionReplaced(code[..n], i, x);
      assert code[i := x][..n] == code[..n][i := x];
    }
  }

  lemma BlockAdds(st: State, prefix: string)
    requires HasFunction(st)
    ensures Adds(st, AddBlock(st, prefix), [])
  {
    var f := LastFunction(st);
    var b := Block(MakeLabel(prefix, st.blockId), []);
    assert (f.blocks + [b])[..|f.blocks|] == f.blocks;
    assert BoundIn(f.blocks) + [] == BoundIn(f.blocks);
    LastFunctionAdds(st.functions, f.(blocks := f.blocks + [b]), []);
    hide Trace;
  }

  lemma UpdateAdds(st: State, x: string, v: VarId)
    requires HasBlock(st) && AddUpdate(st, x, v).Some?
    ensures Adds(st, AddUpdate(st, x, v).value, [Copies])
  {
    hide EmitResult, Trace, Find, Scopes.Update;
    ResultAdds(st, Opcode.Update, [Local(v)]);
  }

  lemma RefAdds(st: State, x: string)
    requires HasBlock(st) && AddVariableRef(st, x).Some?
    ensures Adds(st, AddVariableRef(st, x).value, NameTrace(st.globals, x))
  {
    if x in st.globals { ResultAdds(st, Load, [Global(x)]); } else { UpdateAdds(st, x, Find(st.varEnv, x).value.v); }
    hide EmitResult, AddUpdate, Adds;
  }

  /** Parameters are not part of the trace. */
  lemma SameCode(a: State, b: State)
    requires HasFunction(a) && |b.functions| == |a.functions| && b.functions[..|a.functions| - 1] == a.functions[..|a.functions| - 1]
    requires LastFunction(b).name == LastFunction(a).name && LastFunction(b).blocks == LastFunction(a).blocks
    requires LastFunction(b).locals == LastFunction(a).locals
    ensures Adds(a, b, [])
  {
    if Trace(a.functions).Some? { assert Trace(a.functions).value + [] == Trace(a.functions).value; }
  }

  lemma BindAdds(st: State, name: string, v: VarId)
    requires HasBlock(st) && st.varEnv != [] && VarBind(st, name, v).Some?
    ensures Adds(st, VarBind(st, name, v).value, [Binds])
  {
    hide Adds, Insert;
    var x := Instruction(st.instrId, Bind, [Local(v)], Some(st.varId));
    AppendedAdds(st, VarBind(st, name, v).value, x);
  }

  lemma ParamAdds(st: State)
    requires HasFunction(st)
    ensures Adds(st, AddParam(st), [])
  {
    SameCode(st, AddParam(st));
  }

  lemma {:induction false} LayerAdds(st: State, first: Layer<Site>, second: Layer<Site>, keys: seq<string>)
    requires HasBlock(st) && forall k <- keys :: k in first
    ensures Adds(st, MergeLayer(st, first, second, keys).0, [])
    decreases keys
  {
    hide Adds, EmitResult;
    AddsNothing(st, st);
    if keys != [] && keys[0] in second {
      var a, b := first[keys[0]], second[keys[0]];
      if a.v == b.v {
        LayerAdds(st, first, second, keys[1..]);
      } else {
        var os := [PhiArg(a.block, a.v), PhiArg(b.block, b.v)];
        ResultAdds(st, Phi, os);
        var rest := first[keys[0] := a.(v := st.varId)];
        LayerAdds(EmitResult(st, Phi, os), rest, second, keys[1..]);
        AddsThen(st, EmitResult(st, Phi, os), MergeLayer(EmitResult(st, Phi, os), rest, second, keys[1..]).0, []);
      }
    }
  }

  lemma {:induction false} MergeAdds(order: Order, st: State, e1: Stack<Site>, e2: Stack<Site>)
    requires HasBlock(st) && IsOrder(order)
    ensures Adds(st, MergeEnvs(order, st, e1, e2).0, [])
    decreases e1
  {
    hide Adds, MergeLayer;
    AddsNothing(st, st);
    if e1 != [] && e2 != [] {
      var keys := order(st, |e1|, e1[0].Keys);
      assert Enumerates(keys, e1[0].Keys);
      LayerAdds(st, e1[0], e2[0], keys);
      var st1 := MergeLayer(st, e1[0], e2[0], keys).0;
      MergeAdds(order, st1, e1[1..], e2[1..]);
      AddsThen(st, st1, MergeEnvs(order, st1, e1[1..], e2[1..]).0, []);
    }
  }

  // ---- Expressions ------------------------------------------------------------------------

  lemma {:induction false} ExprAdds(st: State, e: Expr)
    requires Ready(st) && VisitExpr(st, e).Some?
    ensures Adds(st, VisitExpr(st, e).value, ExprTrace(st.globals, e))
    decreases e, 1
  {
    hide AddVariableRef, EmitResult, RequireLastVar, VisitLogical, AddCall, VisitLiteral, Adds;
    AddsNothing(st, st);
    match e
    case Literal(lit) => LiteralAdds(st, lit);
    case Identifier(x) => RefAdds(st, x);
    case FunctionCall(f, args) =>
      var visited := VisitArgs(st, args).value;
      ArgsAdd(st, args);
      CallAdds(visited.0, f, visited.1);
      AddsTrans(st, visited.0, AddCall(visited.0, f, visited.1).value, ArgsTrace(st.globals, args), [Calls(f)]);
    case Prefix(op, x) => if op == Positive || op == Negative { PrefixAdds(st, op, x); }
    case Infix(op, l, r) =>
      if op == And || op == Or { LogicalAdds(st, op, l, r); } else { InfixAdds(st, op, l, r); }
    case _ =>
  }

  lemma LiteralAdds(st: State, lit: Ast.Literal)
    requires Ready(st) && VisitLiteral(st, lit).Some?
    ensures Adds(st, VisitLiteral(st, lit).value, ExprTrace(st.globals, Literal(lit)))
  {
    hide EmitResult, Adds;
    match lit
    case IntLit(n) => ResultAdds(st, ConstInt, [IntConst(Wrap32(n))]);
    case FloatLit(d) => ResultAdds(st, ConstFloat, [FloatConst(d)]);
    case BoolLit(b) => ResultAdds(st, ConstBool, [BoolConst(b)]);
    case CharLit(_) => AddsNothing(st, st);
  }

  lemma CallAdds(st: State, f: string, vars: seq<VarId>)
    requires HasBlock(st) && AddCall(st, f, vars).Some?
    ensures Adds(st, AddCall(st, f, vars).value, [Calls(f)])
  {
    CallEvents(st.instrId, f, vars);
    hide Adds, CallOperands, Events;
    EmitAdds(st, CallOp, CallOperands(f, vars), None);
    hide Emit;
  }

  lemma CallEvents(id: nat, f: string, vars: seq<VarId>)
    ensures Events(Instruction(id, CallOp, CallOperands(f, vars), None)) == Some([Calls(f)])
  {
    assert CallOperands(f, vars)[0] == FunctionLabel(f);
  }

  lemma {:induction false} PrefixAdds(st: State, op: PrefixOp, x: Expr)
    requires Ready(st) && (op == Positive || op == Negative) && VisitExpr(st, Prefix(op, x)).Some?
    ensures Adds(st, VisitExpr(st, Prefix(op, x)).value, ExprTrace(st.globals, Prefix(op, x)))
    decreases x, 2
  {
    hide EmitResult, RequireLastVar, Adds, VisitLogical;
    var st1 := VisitExpr(st, x).value;
    ExprAdds(st, x);
    if op == Negative {
      var os := [IntConst(0), Local(RequireLastVar(st1).value)];
      ResultAdds(st1, ISub, os);
      AddsTrans(st, st1, EmitResult(st1, ISub, os), ExprTrace(st.globals, x), [Computes(Subtract)]);
    }
  }

  lemma {:induction false} InfixAdds(st: State, op: InfixOp, l: Expr, r: Expr)
    requires Ready(st) && op != And && op != Or && VisitExpr(st, Infix(op, l, r)).Some?
    ensures Adds(st, VisitExpr(st, Infix(op, l, r)).value, ExprTrace(st.globals, Infix(op, l, r)))
    decreases Infix(op, l, r), 0
  {
    hide EmitResult, RequireLastVar, VisitLogical, Adds;
    var tl, tr := ExprTrace(st.globals, l), ExprTrace(st.globals, r);
    var st1 := VisitExpr(st, l).value;
    ExprAdds(st, l);
    var st2 := VisitExpr(st1, r).value;
    ExprAdds(st1, r);
    AddsTrans(st, st1, st2, tl, tr);
    var os := [Local(RequireLastVar(st1).value), Local(RequireLastVar(st2).value)];
    InfixEvents(st2, op, os);
    ResultAdds(st2, InfixOpcode(op), os);
    AddsTrans(st, st2, EmitResult(st2, InfixOpcode(op), os), tl + tr, [Computes(op)]);
  }

  lemma InfixEvents(st: State, op: InfixOp, os: seq<Operand>)
    requires op != And && op != Or
    ensures Events(Instruction(st.instrId, InfixOpcode(op), os, Some(st.varId))) == Some([Computes(op)])
  {}

  lemma {:induction false} ArgsAdd(st: State, args: seq<Expr>)
    requires Ready(st) && VisitArgs(st, args).Some?
    ensures Adds(st, VisitArgs(st, args).value.0, ArgsTrace(st.globals, args))
    decreases args, 1
  {
    hide RequireLastVar, Adds, VisitExpr, ExprTrace;
    AddsNothing(st, st);
    if args != [] {
      var st1 := VisitExpr(st, args[0]).value;
      ExprAdds(st, args[0]);
      ArgsAdd(st1, args[1..]);
      AddsTrans(st, st1, VisitArgs(st1, args[1..]).value.0, ExprTrace(st.globals, args[0]), ArgsTrace(st.globals, args[1..]));
    }
  }

  lemma EnterAdds(st: State, prefix: string)
    requires Ready(st)
    ensures Adds(st, EnterBlock(st, prefix), [])
  {
    var st1 := Emit(st, Jump, [], None);
    EmitAdds(st, Jump, [], None);
    var st2 := AddBlock(st1, prefix);
    BlockAdds(st1, prefix);
    var os := [Label(LastRef(st2))];
    OperandsAdd(st2, LastRef(st), |Instructions(st, LastRef(st))|, os);
    hide Emit, AddBlock, AddOperands, Adds;
    AddsThen(st, st1, st2, []);
    AddsThen(st, st2, EnterBlock(st, prefix), []);
  }

  lemma {:induction false} LogicalAdds(st: State, op: InfixOp, l: Expr, r: Expr)
    requires Ready(st) && (op == And || op == Or) && VisitLogical(st, op, l, r).Some?
    ensures Adds(st, VisitLogical(st, op, l, r).value, ExprTrace(st.globals, Infix(op, l, r)))
    decreases Infix(op, l, r), 0
  {
    hide RequireLastVar, Adds, VisitExpr, VisitLeftTerm, FinishLogical, AddBlock, LogicalName;
    var t := VisitLeftTerm(st, op, l).value;
    var st1 := AddBlock(t.st, LogicalName(op) + "_right_term");
    var st2 := VisitExpr(st1, r).value;
    var st3 := AddBlock(ReserveInstr(st2), LogicalName(op) + "_merge");
    var tl, tr := ExprTrace(st.globals, l), ExprTrace(st.globals, r);
    LeftAdds(st, op, l);
    BlockAdds(t.st, LogicalName(op) + "_right_term");
    BlockGlobals(t.st, LogicalName(op) + "_right_term");
    AddsThen(st, t.st, st1, tl + [Tests]);
    ExprAdds(st1, r);
    AddsTrans(st, st1, st2, tl + [Tests], tr);
    AddsNothing(st2, ReserveInstr(st2));
    BlockAdds(ReserveInstr(st2), LogicalName(op) + "_merge");
    AddsThen(st2, ReserveInstr(st2), st3, []);
    AddsThen(st, st2, st3, tl + [Tests] + tr);
    FinishAdds(st3, op, t, LastRef(st1), RequireLastVar(st2).value, st2.instrId);
    AddsTrans(st, st3, VisitLogical(st, op, l, r).value, tl + [Tests] + tr, [Truth(op == Or)]);
  }

  lemma {:induction false} LeftAdds(st: State, op: InfixOp, l: Expr)
    requires Ready(st) && VisitLeftTerm(st, op, l).Some?
    ensures Adds(st, VisitLeftTerm(st, op, l).value.st, ExprTrace(st.globals, l) + [Tests])
    decreases l, 2
  {
    hide RequireLastVar, Adds, VisitExpr, EnterBlock, EmitResult;
    var tl := ExprTrace(st.globals, l);
    var st1 := EnterBlock(st, LogicalName(op) + "_left_term");
    EnterAdds(st, LogicalName(op) + "_left_term");
    var st2 := VisitExpr(st1, l).value;
    ExprAdds(st1, l);
    AddsTrans(st, st1, st2, [], tl);
    assert [] + tl == tl;
    var st3 := EmitResult(st2, CondJump, []);
    ResultAdds(st2, CondJump, []);
    AddsTrans(st, st2, st3, tl, [Tests]);
    AddsNothing(st3, ReserveInstr(st3));
    AddsThen(st, st3, ReserveInstr(st3), tl + [Tests]);
  }

  lemma FinishAdds(st: State, op: InfixOp, t: LeftTerm, right: BlockRef, rv: VarId, rightJump: nat)
    requires Ready(st)
    ensures Adds(st, FinishLogical(st, op, t, right, rv, rightJump), [Truth(op == Or)])
  {
    hide AddOperands, InsertJump, EmitResult, Adds;
    var merge := LastRef(st);
    var labels := if op == And then [Local(t.leftVar), Label(right), Label(merge)] else [Local(t.leftVar), Label(merge), Label(right)];
    var st1 := AddOperands(st, t.branch, t.place, labels);
    OperandsAdd(st, t.branch, t.place, labels);
    var st2 := EmitResult(st1, ConstBool, [BoolConst(op == Or)]);
    ResultAdds(st1, ConstBool, [BoolConst(op == Or)]);
    AddsTrans(st, st1, st2, [], [Truth(op == Or)]);
    assert [] + [Truth(op == Or)] == [Truth(op == Or)];
    var choice := if op == And then [Local(t.branchVar), Local(rv), Local(st1.varId)] else [Local(t.branchVar), Local(st1.varId), Local(rv)];
    var st3 := EmitResult(st2, Phi, choice);
    ResultAdds(st2, Phi, choice);
    AddsThen(st, st2, st3, [Truth(op == Or)]);
    var st4 := InsertJump(st3, t.leftJump, t.left, merge);
    InsertAdds(st3, t.leftJump, t.left, merge);
    AddsThen(st, st3, st4, [Truth(op == Or)]);
    InsertAdds(st4, rightJump, right, merge);
    AddsThen(st, st4, InsertJump(st4, rightJump, right, merge), [Truth(op == Or)]);
  }

  // ---- Statements -------------------------------------------------------------------------

  /** Lowering a statement adds its events, in whatever blocks. */
  lemma {:induction false} StmtAdds(order: Order, st: State, s: Stmt)
    requires Ready(st) && IsOrder(order) && VisitStmt(order, st, s).Some?
    ensures Adds(st, VisitStmt(order, st, s).value, StmtTrace(st.globals, s))
    decreases s, 2
  {
    hide VisitExpr, VisitBinding, VisitAssignment, VisitStep, VisitCondition, VisitBranches, VisitLoop, RequireLastVar, Emit, Adds, ExprTrace;
    AddsNothing(st, st);
    match s
    case Let(x, init) => BindingAdds(st, x, init);
    case Var(x, init) => BindingAdds(st, x, init);
    case Assign(op, target, value) => AssignmentAdds(st, op, target, value);
    case Increment(x) => StepAdds(st, IAdd, x, Add);
    case Decrement(x) => StepAdds(st, ISub, x, Subtract);
    case ExprStmt(e) => ExprAdds(st, e);
    case Return(_) => ReturnAdds(order, st, s);
    case If(_, _, _, _) => IfAdds(order, st, s);
    case Loop(_, _, _, _) => LoopAdds(order, st, s);
    case Break => EmitAdds(st, BreakOp, [], None);
    case Continue => EmitAdds(st, ContinueOp, [], None);
    case Defer(_) =>
  }

  lemma BindingAdds(st: State, x: string, init: Option<Expr>)
    requires Ready(st) && VisitBinding(st, x, init).Some?
    ensures Adds(st, VisitBinding(st, x, init).value, OptionTrace(st.globals, init) + [Binds])
  {
    hide VisitExpr, RequireLastVar, VarBind, Adds, ExprTrace;
    var st1 := VisitExpr(st, init.value).value;
    ExprAdds(st, init.value);
    BindAdds(st1, x, RequireLastVar(st1).value);
    AddsTrans(st, st1, VisitBinding(st, x, init).value, ExprTrace(st.globals, init.value), [Binds]);
  }

  lemma StepAdds(st: State, code: Opcode, x: Expr, op: InfixOp)
    requires Ready(st) && VisitStep(st, code, x).Some? && op != And && op != Or && code == InfixOpcode(op)
    ensures Adds(st, VisitStep(st, code, x).value, ExprTrace(st.globals, x) + [Computes(op)])
  {
    hide VisitExpr, RequireLastVar, Emit, Adds, ExprTrace;
    var st1 := VisitExpr(st, x).value;
    ExprAdds(st, x);
    EmitAdds(st1, code, [Local(RequireLastVar(st1).value), IntConst(1)], None);
    AddsTrans(st, st1, VisitStep(st, code, x).value, ExprTrace(st.globals, x), [Computes(op)]);
  }

  lemma AssignmentAdds(st: State, op: AssignOp, target: Expr, value: Expr)
    requires Ready(st) && VisitAssignment(st, op, target, value).Some?
    ensures Adds(st, VisitAssignment(st, op, target, value).value, AssignTrace(st.globals, op, target, value))
  {
    hide VisitExpr, RequireLastVar, AddVariableRef, AddUpdate, Emit, Adds, ExprTrace, NameTrace, Events;
    var c, x, es := CreateVar(st), target.id, ExprTrace(st.globals, value);
    AddsNothing(st, c);
    var st1 := VisitExpr(c, value).value;
    ExprAdds(c, value);
    AddsTrans(st, c, st1, [], es);
    assert [] + es == es;
    var rv := RequireLastVar(st1).value;
    var st' := VisitAssignment(st, op, target, value).value;
    if op == Regular {
      UpdateAdds(st1, x, rv);
      AddsTrans(st, st1, st', es, [Copies]);
    } else {
      var st2 := AddVariableRef(st1, x).value;
      RefAdds(st1, x);
      AddsTrans(st, st1, st2, es, NameTrace(st.globals, x));
      var os := [Local(RequireLastVar(st2).value), Local(rv)];
      var st3 := Emit(st2, AssignOpcode(op), os, Some(st.varId));
      AssignEvents(st2, op, os, Some(st.varId));
      EmitAdds(st2, AssignOpcode(op), os, Some(st.varId));
      AddsTrans(st, st2, st3, es + NameTrace(st.globals, x), [Computes(Meaning.AssignMeaning(op))]);
      if op == ModAssign {
        AddsNothing(st3, st3);
        AddsThen(st, st3, st3, es + NameTrace(st.globals, x) + [Computes(Meaning.AssignMeaning(op))]);
        assert AssignTrace(st.globals, op, target, value) == es + NameTrace(st.globals, x) + [Computes(Meaning.AssignMeaning(op))];
      } else {
        UpdateAdds(st3, x, st.varId);
        AddsTrans(st, st3, st', es + NameTrace(st.globals, x) + [Computes(Meaning.AssignMeaning(op))], [Copies]);
      }
    }
  }

  lemma AssignEvents(st: State, op: AssignOp, os: seq<Operand>, result: Option<VarId>)
    requires op != Regular
    ensures Events(Instruction(st.instrId, AssignOpcode(op), os, result)) == Some([Computes(Meaning.AssignMeaning(op))])
  {}

  lemma ReturnAdds(order: Order, st: State, s: Stmt)
    requires Ready(st) && IsOrder(order) && s.Return? && VisitStmt(order, st, s).Some?
    ensures Adds(st, VisitStmt(order, st, s).value, OptionTrace(st.globals, s.result) + [Exits(LeavesFunction)])
  {
    hide VisitExpr, RequireLastVar, Emit, Adds, ExprTrace;
    var out := [Exits(LeavesFunction)];
    if s.result.None? {
      EmitAdds(st, ReturnOp, [], None);
      assert [] + out == out;
    } else {
      var e := s.result.value;
      var st1 := VisitExpr(st, e).value;
      ExprAdds(st, e);
      EmitAdds(st1, ReturnOp, [Local(RequireLastVar(st1).value)], None);
      AddsTrans(st, st1, VisitStmt(order, st, s).value, ExprTrace(st.globals, e), out);
    }
  }

  lemma ConditionAdds(st: State, cond: Expr)
    requires Ready(st) && VisitCondition(st, cond).Some?
    ensures Adds(st, VisitCondition(st, cond).value, ExprTrace(st.globals, cond) + [Tests])
  {
    hide VisitExpr, RequireLastVar, EmitResult, Adds, ExprTrace;
    var st1 := VisitExpr(st, cond).value;
    ExprAdds(st, cond);
    ResultAdds(st1, CondJump, [Local(RequireLastVar(st1).value)]);
    AddsTrans(st, st1, VisitCondition(st, cond).value, ExprTrace(st.globals, cond), [Tests]);
  }

  lemma {:induction false} ListAdds(order: Order, st: State, ss: seq<Stmt>)
    requires Ready(st) && IsOrder(order) && VisitList(order, st, ss).Some?
    ensures Adds(st, VisitList(order, st, ss).value, ListTrace(st.globals, ss))
    decreases ss, 0
  {
    hide VisitStmt, Adds, StmtTrace;
    AddsNothing(st, st);
    if ss != [] {
      var st1 := VisitStmt(order, st, ss[0]).value;
      StmtAdds(order, st, ss[0]);
      ListAdds(order, st1, ss[1..]);
      AddsTrans(st, st1, VisitList(order, st1, ss[1..]).value, StmtTrace(st.globals, ss[0]), ListTrace(st.globals, ss[1..]));
    }
  }

  lemma {:induction false} NewEnvAdds(order: Order, st: State, ss: seq<Stmt>)
    requires Ready(st) && IsOrder(order) && VisitInNewEnv(order, st, ss).Some?
    ensures Adds(st, VisitInNewEnv(order, st, ss).value.0, ListTrace(st.globals, ss))
    decreases ss, 1
  {
    hide VisitList, Adds, ListTrace;
    var es := ListTrace(st.globals, ss);
    var st1 := VisitList(order, PushEnv(st), ss).value;
    AddsNothing(st, PushEnv(st));
    ListAdds(order, PushEnv(st), ss);
    AddsTrans(st, PushEnv(st), st1, [], es);
    assert [] + es == es;
    AddsNothing(st1, PopEnv(st1).value);
    AddsThen(st, st1, PopEnv(st1).value, es);
  }

  lemma {:induction false} BranchAdds(order: Order, st: State, prefix: string, branch: BlockRef, place: nat, code: seq<Stmt>)
    requires Ready(st) && IsOrder(order) && VisitBranch(order, st, prefix, branch, place, code).Some?
    ensures Adds(st, VisitBranch(order, st, prefix, branch, place, code).value.st, ListTrace(st.globals, code))
    decreases code, 2
  {
    hide VisitInNewEnv, AddBlock, AddOperands, Adds, ListTrace;
    var es := ListTrace(st.globals, code);
    var st1 := AddBlock(st, prefix);
    BlockAdds(st, prefix);
    var st2 := AddOperands(st1, branch, place, [Label(LastRef(st1))]);
    OperandsAdd(st1, branch, place, [Label(LastRef(st1))]);
    AddsThen(st, st1, st2, []);
    GlobalsKept(st, prefix, branch, place);
    var st3 := VisitInNewEnv(order, st2, code).value.0;
    NewEnvAdds(order, st2, code);
    AddsTrans(st, st2, st3, [], es);
    assert [] + es == es;
    AddsNothing(st3, ReserveInstr(st3));
    AddsThen(st, st3, ReserveInstr(st3), es);
  }

  lemma GlobalsKept(st: State, prefix: string, branch: BlockRef, place: nat)
    requires Ready(st)
    ensures AddOperands(AddBlock(st, prefix), branch, place, [Label(LastRef(AddBlock(st, prefix)))]).globals == st.globals
    ensures AddBlock(st, prefix).globals == st.globals
  {}

  lemma {:induction false} IfAdds(order: Order, st: State, s: Stmt)
    requires Ready(st) && IsOrder(order) && s.If? && VisitStmt(order, st, s).Some?
    ensures Adds(st, VisitStmt(order, st, s).value, StmtTrace(st.globals, s))
    decreases s, 1
  {
    hide VisitCondition, VisitBranches, Adds, ExprTrace, ListTrace;
    var first := if s.first.None? then [] else StmtTrace(st.globals, s.first.value);
    var st1 := BeforeTest(order, st, s).value;
    AddsNothing(st, st);
    if s.first.Some? { StmtAdds(order, st, s.first.value); }
    var st2 := VisitCondition(st1, s.cond).value;
    ConditionAdds(st1, s.cond);
    AddsTrans(st, st1, st2, first, ExprTrace(st.globals, s.cond) + [Tests]);
    BranchesAdd(order, st2, s);
    var ts, fs := ListTrace(st.globals, s.onTrue), if s.onFalse.NoElse? then [] else ListTrace(st.globals, s.onFalse.code);
    AddsTrans(st, st2, VisitBranches(order, st2, s).value, first + (ExprTrace(st.globals, s.cond) + [Tests]), ts + fs);
    assert first + (ExprTrace(st.globals, s.cond) + [Tests]) + (ts + fs) == first + ExprTrace(st.globals, s.cond) + [Tests] + ts + fs;
  }

  lemma {:induction false} BranchesAdd(order: Order, st: State, s: Stmt)
    requires Ready(st) && IsOrder(order) && s.If? && LastBlock(st).instructions != [] && VisitBranches(order, st, s).Some?
    ensures Adds(st, VisitBranches(order, st, s).value,
      ListTrace(st.globals, s.onTrue) + if s.onFalse.NoElse? then [] else ListTrace(st.globals, s.onFalse.code))
    decreases s, 0
  {
    hide VisitBranch, MergeEnvs, AddBlock, InsertJump, JoinBranches, Adds, ListTrace;
    var branch := LastRef(st);
    var place := |Instructions(st, branch)| - 1;
    var ts := ListTrace(st.globals, s.onTrue);
    var t := VisitBranch(order, st, "if_then", branch, place, s.onTrue).value;
    BranchAdds(order, st, "if_then", branch, place, s.onTrue);
    var st1 := t.st.(varEnv := st.varEnv);
    AddsNothing(t.st, st1);
    AddsThen(st, t.st, st1, ts);
    if s.onFalse.NoElse? {
      JoinOneAdds(order, st1, t, st.varEnv);
      AddsTrans(st, st1, VisitBranches(order, st, s).value, ts, []);
    } else {
      var e := VisitBranch(order, st1, "if_alt", branch, place, s.onFalse.code).value;
      BranchAdds(order, st1, "if_alt", branch, place, s.onFalse.code);
      AddsTrans(st, st1, e.st, ts, ListTrace(st.globals, s.onFalse.code));
      JoinAdds(order, e.st, t, e);
      AddsThen(st, e.st, VisitBranches(order, st, s).value, ts + ListTrace(st.globals, s.onFalse.code));
    }
  }

  lemma JoinOneAdds(order: Order, st: State, t: Branch, env: Stack<Site>)
    requires Ready(st) && IsOrder(order)
    ensures var st2 := AddBlock(st, "if_merge"); var st3 := InsertJump(st2, t.jump, t.block, LastRef(st2));
      HasBlock(st3) && Adds(st, MergeEnvs(order, st3, env, t.env).0.(varEnv := env), [])
  {
    hide MergeEnvs, AddBlock, InsertJump, Adds;
    var st2 := AddBlock(st, "if_merge");
    BlockAdds(st, "if_merge");
    var st3 := InsertJump(st2, t.jump, t.block, LastRef(st2));
    InsertAdds(st2, t.jump, t.block, LastRef(st2));
    AddsThen(st, st2, st3, []);
    var st4 := MergeEnvs(order, st3, env, t.env).0;
    MergeAdds(order, st3, env, t.env);
    AddsThen(st, st3, st4, []);
    AddsNothing(st4, st4.(varEnv := env));
    AddsThen(st, st4, st4.(varEnv := env), []);
  }

  lemma JoinAdds(order: Order, st: State, t: Branch, e: Branch)
    requires Ready(st) && IsOrder(order) && t.env != []
    ensures Adds(st, JoinBranches(order, st, t, e), [])
  {
    hide MergeEnvs, AddBlock, InsertJump, Adds;
    var st1 := AddBlock(st, "if_merge");
    BlockAdds(st, "if_merge");
    var merge := LastRef(st1);
    var st2 := InsertJump(st1, t.jump, t.block, merge);
    InsertAdds(st1, t.jump, t.block, merge);
    AddsThen(st, st1, st2, []);
    var st3 := InsertJump(st2, e.jump, e.block, merge);
    InsertAdds(st2, e.jump, e.block, merge);
    AddsThen(st, st2, st3, []);
    var merged := MergeEnvs(order, st3, t.env, e.env);
    MergeAdds(order, st3, t.env, e.env);
    AddsThen(st, st3, merged.0, []);
    AddsNothing(merged.0, merged.0.(varEnv := merged.1));
    AddsThen(st, merged.0, merged.0.(varEnv := merged.1), []);
  }

  lemma CloseAdds(st: State, r: BlockRef, target: BlockRef, prefix: string)
    requires Ready(st)
    ensures Adds(st, CloseBlock(st, r, target, prefix), [])
  {
    var st1 := ReserveInstr(st);
    AddsNothing(st, st1);
    var st2 := InsertJump(st1, st.instrId, r, target);
    InsertAdds(st1, st.instrId, r, target);
    hide InsertJump, AddBlock, Adds;
    AddsThen(st, st1, st2, []);
    BlockAdds(st2, prefix);
    AddsThen(st, st2, CloseBlock(st, r, target, prefix), []);
  }

  lemma {:induction false} LoopAdds(order: Order, st: State, s: Stmt)
    requires Ready(st) && IsOrder(order) && s.Loop? && VisitStmt(order, st, s).Some?
    ensures Adds(st, VisitStmt(order, st, s).value, StmtTrace(st.globals, s))
    decreases s, 1
  {
    hide VisitLoop, Adds, ExprTrace, ListTrace;
    var first := StmtTrace(st.globals, s.first.value);
    var st1 := VisitStmt(order, st, s.first.value).value;
    StmtAdds(order, st, s.first.value);
    LoopPartAdds(order, st1, s);
    var test, post, body := ExprTrace(st.globals, s.test.value), StmtTrace(st.globals, s.post.value), ListTrace(st.globals, s.body);
    AddsTrans(st, st1, VisitLoop(order, st1, s).value, first, test + [Tests] + post + body);
    assert first + (test + [Tests] + post + body) == first + test + [Tests] + post + body;
  }

  lemma {:induction false} LoopPartAdds(order: Order, st: State, s: Stmt)
    requires Ready(st) && IsOrder(order) && s.Loop? && s.test.Some? && s.post.Some? && VisitLoop(order, st, s).Some?
    ensures Adds(st, VisitLoop(order, st, s).value,
      ExprTrace(st.globals, s.test.value) + [Tests] + StmtTrace(st.globals, s.post.value) + ListTrace(st.globals, s.body))
    decreases s, 0
  {
    hide VisitCondition, EnterBlock, AddBlock, CloseBlock, VisitInNewEnv, AddOperands, VisitStmt, Adds, ExprTrace, StmtTrace, ListTrace;
    var test, post, body := ExprTrace(st.globals, s.test.value) + [Tests], StmtTrace(st.globals, s.post.value), ListTrace(st.globals, s.body);
    var st1 := EnterBlock(st, "loop_cond");
    EnterAdds(st, "loop_cond");
    var st2 := VisitCondition(st1, s.test.value).value;
    ConditionAdds(st1, s.test.value);
    AddsTrans(st, st1, st2, [], test);
    assert [] + test == test;
    var st3 := AddBlock(st2, "loop_expr");
    BlockAdds(st2, "loop_expr");
    BlockGlobals(st2, "loop_expr");
    AddsThen(st, st2, st3, test);
    var st4 := VisitStmt(order, st3, s.post.value).value;
    StmtAdds(order, st3, s.post.value);
    AddsTrans(st, st3, st4, test, post);
    var st5 := CloseBlock(st4, LastRef(st3), LastRef(st1), "loop_body");
    CloseAdds(st4, LastRef(st3), LastRef(st1), "loop_body");
    AddsThen(st, st4, st5, test + post);
    var visited := VisitInNewEnv(order, st5, s.body).value.0;
    NewEnvAdds(order, st5, s.body);
    AddsTrans(st, st5, visited, test + post, body);
    var st6 := CloseBlock(visited, LastRef(st5), LastRef(st3), "loop_merge");
    CloseAdds(visited, LastRef(st5), LastRef(st3), "loop_merge");
    AddsThen(st, visited, st6, test + post + body);
    var os := [Label(LastRef(st5)), Label(LastRef(st6))];
    OperandsAdd(st6, LastRef(st2), |Instructions(st2, LastRef(st2))| - 1, os);
    AddsThen(st, st6, VisitLoop(order, st, s).value, test + post + body);
  }

  lemma BlockGlobals(st: State, prefix: string)
    requires Ready(st)
    ensures AddBlock(st, prefix).globals == st.globals
  {}

  // ---- Programs ---------------------------------------------------------------------------

  lemma {:induction false} ParamsAdd(st: State, params: seq<string>)
    requires Ready(st) && VisitParams(st, params).Some?
    ensures Adds(st, VisitParams(st, params).value, Bindings(|params|))
    decreases |params|
  {
    hide Adds, VarBind, AddParam;
    if params == [] {
      AddsNothing(st, st);
      assert Bindings(0) == [];
    } else {
      var st1 := AddParam(st);
      ParamKeeps(st);
      ParamAdds(st);
      var st2 := VarBind(st1, params[0], st.varId).value;
      BindAdds(st1, params[0], st.varId);
      AddsTrans(st, st1, st2, [], [Binds]);
      assert [] + [Binds] == [Binds];
      BindKeeps(st1, params[0], st.varId);
      ParamsAdd(st2, params[1..]);
      AddsTrans(st, st2, VisitParams(st, params).value, [Binds], Bindings(|params| - 1));
      assert [Binds] + Bindings(|params| - 1) == Bindings(|params|);
    }
  }

  lemma ParamKeeps(st: State)
    requires Ready(st)
    ensures Ready(AddParam(st)) && AddParam(st).globals == st.globals
  {}

  lemma BindKeeps(st: State, x: string, v: VarId)
    requires Ready(st) && VarBind(st, x, v).Some?
    ensures Ready(VarBind(st, x, v).value) && VarBind(st, x, v).value.globals == st.globals
  {}

  lemma ItemAdds(order: Order, st: State, item: Item)
    requires TopLevel(st) && IsOrder(order) && VisitItem(order, st, item).Some?
    ensures var st' := VisitItem(order, st, item).value;
      && st'.globals == (if item.GlobalDecl? then st.globals + {item.gname} else st.globals)
      && Adds(st, st', if item.Function? then [Enters(item.fname)] + Bindings(|item.params|) + ListTrace(st.globals, item.code) else [])
  {
    hide Adds, AddFunctionDefinition, AddBlock, VisitParams, VisitList, ListTrace;
    match item
    case FunctionDecl(f) => AddsNothing(st, VisitItem(order, st, item).value);
    case GlobalDecl(x) => AddsNothing(st, VisitItem(order, st, item).value);
    case Function(f, params, code) =>
      var st0 := AddFunctionDefinition(st, f);
      DefinitionAdds(st, f);
      var st1 := AddBlock(st0, "entry");
      BlockAdds(st0, "entry");
      EntryGlobals(st0, "entry");
      AddsThen(st, st0, st1, [Enters(f)]);
      AddsNothing(st1, PushEnv(st1));
      AddsThen(st, st1, PushEnv(st1), [Enters(f)]);
      var st2 := VisitParams(PushEnv(st1), params).value;
      ParamsAdd(PushEnv(st1), params);
      AddsTrans(st, PushEnv(st1), st2, [Enters(f)], Bindings(|params|));
      var st3 := VisitList(order, st2, code).value;
      ListAdds(order, st2, code);
      AddsTrans(st, st2, st3, [Enters(f)] + Bindings(|params|), ListTrace(st.globals, code));
      AddsNothing(st3, PopEnv(st3).value);
      AddsThen(st, st3, PopEnv(st3).value, [Enters(f)] + Bindings(|params|) + ListTrace(st.globals, code));
  }

  lemma DefinitionAdds(st: State, f: string)
    requires st.fnEnv != []
    ensures var st' := AddFunctionDefinition(st, f);
      st'.globals == st.globals && HasFunction(st') && Adds(st, st', [Enters(f)])
  {
    var fs := AddFunctionDefinition(st, f).functions;
    var n := |st.functions|;
    assert fs[..n] == st.functions;
    assert [Enters(f)] + [] == [Enters(f)];
    assert FunctionTrace(fs[n]) == Some([Enters(f)]);
  }

  lemma EntryGlobals(st: State, prefix: string)
    requires HasFunction(st)
    ensures AddBlock(st, prefix).globals == st.globals
  {}

  lemma {:induction false} ItemsAdd(order: Order, st: State, items: seq<Item>)
    requires TopLevel(st) && IsOrder(order) && VisitItems(order, st, items).Some?
    ensures Adds(st, VisitItems(order, st, items).value, ItemsTrace(st.globals, items))
    decreases |items|
  {
    hide Adds, VisitItem, ListTrace;
    AddsNothing(st, st);
    if items != [] {
      var st1 := VisitItem(order, st, items[0]).value;
      ItemAdds(order, st, items[0]);
      ItemsAdd(order, st1, items[1..]);
      var here := if items[0].Function? then [Enters(items[0].fname)] + Bindings(|items[0].params|) + ListTrace(st.globals, items[0].code) else [];
      var rest := ItemsTrace(st1.globals, items[1..]);
      AddsTrans(st, st1, VisitItems(order, st, items).value, here, rest);
      assert [] + rest == rest;
      assert ItemsTrace(st.globals, items) == here + rest;
    }
  }

  lemma {:induction false} LocalsBound(fs: seq<MirFunction>)
    requires Trace(fs).Some?
    ensures forall f <- fs :: f.locals == BoundIn(f.blocks)
  {
    hide BoundIn, BlocksTrace;
    if fs != [] { LocalsBound(fs[..|fs| - 1]); }
  }

  /** Every lowered program: the module's instructions, jumps and PHIs apart, are the events of the
      source in order, and the locals of a function are the variables that are bound in it. */
  lemma ProgramConserved(order: Order, items: seq<Item>)
    requires IsOrder(order) && VisitItems(order, INITIAL, items).Some?
    ensures Trace(VisitItems(order, INITIAL, items).value.functions) == Some(ItemsTrace({}, items))
    ensures forall f <- VisitItems(order, INITIAL, items).value.functions :: f.locals == BoundIn(f.blocks)
  {
    hide VisitItems, ItemsTrace, BoundIn;
    ItemsAdd(order, INITIAL, items);
    assert [] + ItemsTrace({}, items) == ItemsTrace({}, items);
    LocalsBound(VisitItems(order, INITIAL, items).value.functions);
  }
}
