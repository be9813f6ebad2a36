/** The visitor that lowers the abstract syntax tree, as functions on the factory's state.
    `None` stands for an exception. Nodes without a visitor of their own leave the state alone. */
module MirBuilder {
  import opened Ast
  import opened Statements
  import opened Scopes
  import opened Mir
  import opened MirFactory
  import opened Words

  /** Inside a function body. */
  predicate Ready(st: State) {
    HasBlock(st) && st.varEnv != [] && st.fnEnv != []
  }

  /** What every visit leaves as it was, or lets grow. */
  predicate Grown(before: State, after: State) {
    && Ready(after)
    && |after.varEnv| >= |before.varEnv|
    && after.fnEnv == before.fnEnv
    && after.globals == before.globals
    && |after.functions| == |before.functions|
  }

  function InfixOpcode(op: InfixOp): Opcode
    requires op != And && op != Or
  {
    match op
    case Multiply => IMul
    case Divide => IDiv
    case Modulo => IMod
    case Add => IAdd
    case Subtract => ISub
    case LessThan => ICmpLt
    case LessThanEqual => ICmpLte
    case Equal => ICmpEq
    case NotEqual => ICmpNe
    case GreaterThan => ICmpGt
    case GreaterThanEqual => ICmpGte
  }

  /** A literal is read as a 32-bit integer, whatever its size. */
  function VisitLiteral(st: State, lit: Ast.Literal): (r: Option<State>)
    requires Ready(st)
    ensures r.Some? ==> Grown(st, r.value) && |r.value.varEnv| == |st.varEnv|
  {
    match lit
    case IntLit(n) => Some(EmitResult(st, ConstInt, [IntConst(Wrap32(n))]))
    case FloatLit(d) => Some(EmitResult(st, ConstFloat, [FloatConst(d)]))
    case BoolLit(b) => Some(EmitResult(st, ConstBool, [BoolConst(b)]))
    case StringLit(_) => None
    case CharLit(_) => Some(st)
  }

  function VisitExpr(st: State, e: Expr): (r: Option<State>)
    requires Ready(st)
    ensures r.Some? ==> Grown(st, r.value) && |r.value.varEnv| == |st.varEnv|
    decreases e, 0
  {
    match e
    case Literal(lit) => VisitLiteral(st, lit)
    case Identifier(x) => AddVariableRef(st, x)
    case FunctionCall(f, args) =>
      var visited :- VisitArgs(st, args);
      AddCall(visited.0, f, visited.1)
    case Prefix(op, x) =>
      if op == Positive || op == Negative then
        var st1 :- VisitExpr(st, x);
        var v :- RequireLastVar(st1);
        Some(if op == Negative then EmitResult(st1, ISub, [IntConst(0), Local(v)]) else st1)
      else Some(st)
    case Infix(op, l, r) =>
      if op == And || op == Or then VisitLogical(st, op, l, r)
      else
        var st1 :- VisitExpr(st, l);
        var lv :- RequireLastVar(st1);
        var st2 :- VisitExpr(st1, r);
        var rv :- RequireLastVar(st2);
        Some(EmitResult(st2, InfixOpcode(op), [Local(lv), Local(rv)]))
    case ArrayExpr(_) => Some(st)
    case MemberAccess(_, _) => Some(st)
    case Subscript(_, _) => Some(st)
  }

  function VisitArgs(st: State, args: seq<Expr>): (r: Option<(State, seq<VarId>)>)
    requires Ready(st)
    ensures r.Some? ==> Grown(st, r.value.0) && |r.value.0.varEnv| == |st.varEnv|
    decreases args, 0
  {
    if args == [] then Some((st, []))
    else
      var st1 :- VisitExpr(st, args[0]);
      var v :- RequireLastVar(st1);
      var rest :- VisitArgs(st1, args[1..]);
      Some((rest.0, [v] + rest.1))
  }

  // ---- Short-circuit operators ------------------------------------------------------------

  function LogicalName(op: InfixOp): string {
    if op == And then "and" else "or"
  }

  /** A new block, and a jump to it from the end of the block before it. */
  function EnterBlock(st: State, prefix: string): (r: State)
    requires Ready(st)
    ensures Grown(st, r) && |r.varEnv| == |st.varEnv|
  {
    var st1 := AddBlock(Emit(st, Jump, [], None), prefix);
    AddOperands(st1, LastRef(st), |Instructions(st, LastRef(st))|, [Label(LastRef(st1))])
  }

  /** The left term in a block of its own, and the conditional jump behind it. */
  datatype LeftTerm = LeftTerm(st: State, left: BlockRef, leftVar: VarId, branch: BlockRef, place: nat, branchVar: VarId, leftJump: nat)

  function VisitLeftTerm(st: State, op: InfixOp, l: Expr): (r: Option<LeftTerm>)
    requires Ready(st)
    ensures r.Some? ==> Grown(st, r.value.st) && |r.value.st.varEnv| == |st.varEnv|
    decreases l, 1
  {
    var st1 := EnterBlock(st, LogicalName(op) + "_left_term");
    var left := LastRef(st1);
    var st2 :- VisitExpr(st1, l);
    var lv :- RequireLastVar(st2);
    var branch := LastRef(st2);
    var place := |Instructions(st2, branch)|;
    var st3 := EmitResult(st2, CondJump, []);
    Some(LeftTerm(ReserveInstr(st3), left, lv, branch, place, st2.varId, st3.instrId))
  }

  function VisitLogical(st: State, op: InfixOp, l: Expr, r: Expr): (res: Option<State>)
    requires Ready(st)
    ensures res.Some? ==> Grown(st, res.value) && |res.value.varEnv| == |st.varEnv|
    decreases Infix(op, l, r), 0, 0
  {
    var t :- VisitLeftTerm(st, op, l);
    var st1 := AddBlock(t.st, LogicalName(op) + "_right_term");
    var right := LastRef(st1);
    var st2 :- VisitExpr(st1, r);
    var rv :- RequireLastVar(st2);
    var st3 := AddBlock(ReserveInstr(st2), LogicalName(op) + "_merge");
    Some(FinishLogical(st3, op, t, right, rv, st2.instrId))
  }

  /** In the merge block: the branch gets its operands, the value is selected, and the two
      term blocks jump here. */
  function FinishLogical(st: State, op: InfixOp, t: LeftTerm, right: BlockRef, rv: VarId, rightJump: nat): (res: State)
    requires Ready(st)
    ensures Grown(st, res) && |res.varEnv| == |st.varEnv|
  {
    var merge := LastRef(st);
    var st1 := AddOperands(st, t.branch, t.place,
      if op == And then [Local(t.leftVar), Label(right), Label(merge)]
      else [Local(t.leftVar), Label(merge), Label(right)]);
    var st2 := EmitResult(st1, ConstBool, [BoolConst(op == Or)]);
    var short := st1.varId;
    var st3 := EmitResult(st2, Phi,
      if op == And then [Local(t.branchVar), Local(rv), Local(short)]
      else [Local(t.branchVar), Local(short), Local(rv)]);
    InsertJump(InsertJump(st3, t.leftJump, t.left, merge), rightJump, right, merge)
  }

  // ---- Statements -------------------------------------------------------------------------

  function VisitStmt(order: Order, st: State, s: Stmt): (r: Option<State>)
    requires Ready(st) && IsOrder(order)
    ensures r.Some? ==> Grown(st, r.value)
    decreases s, 1
  {
    match s
    case Let(x, init) => VisitBinding(st, x, init)
    case Var(x, init) => VisitBinding(st, x, init)
    case Assign(op, target, value) => VisitAssignment(st, op, target, value)
    case Increment(x) => VisitStep(st, IAdd, x)
    case Decrement(x) => VisitStep(st, ISub, x)
    case ExprStmt(e) => VisitExpr(st, e)
    case Return(None) => Some(Emit(st, ReturnOp, [], None))
    case Return(Some(e)) =>
      var st1 :- VisitExpr(st, e);
      var v :- RequireLastVar(st1);
      Some(Emit(st1, ReturnOp, [Local(v)], None))
    case If(first, cond, onTrue, onFalse) =>
      var st1 :- if first.None? then Some(st) else VisitStmt(order, st, first.value);
      var st2 :- VisitCondition(st1, cond);
      VisitBranches(order, st2, s)
    case Loop(first, test, post, body) =>
      if first.None? || test.None? || post.None? then None
      else
        var st1 :- VisitStmt(order, st, first.value);
        VisitLoop(order, st1, s)
    case Break => Some(Emit(st, BreakOp, [], None))
    case Continue => Some(Emit(st, ContinueOp, [], None))
    case Defer(_) => Some(st)
  }

  function VisitList(order: Order, st: State, ss: seq<Stmt>): (r: Option<State>)
    requires Ready(st) && IsOrder(order)
    ensures r.Some? ==> Grown(st, r.value)
    decreases ss, 0
  {
    if ss == [] then Some(st)
    else
      var st1 :- VisitStmt(order, st, ss[0]);
      VisitList(order, st1, ss[1..])
  }

  function VisitBinding(st: State, x: string, init: Option<Expr>): (r: Option<State>)
    requires Ready(st)
    ensures r.Some? ==> Grown(st, r.value)
  {
    var e :- init;
    var st1 :- VisitExpr(st, e);
    var v :- RequireLastVar(st1);
    VarBind(st1, x, v)
  }

  function AssignOpcode(op: AssignOp): Opcode
    requires op != Regular
  {
    match op
    case MulAssign => IMul
    case DivAssign => IDiv
    case ModAssign => IMod
    case AddAssign => IAdd
    case SubAssign => ISub
  }

  /** The result variable is created before either side is visited; the right side is visited
      first. `%=` computes its result but does not rebind the name. */
  function VisitAssignment(st: State, op: AssignOp, target: Expr, value: Expr): (r: Option<State>)
    requires Ready(st)
    ensures r.Some? ==> Grown(st, r.value)
  {
    if !target.Identifier? then None
    else
      var x := target.id;
      var st1 :- VisitExpr(CreateVar(st), value);
      var rv :- RequireLastVar(st1);
      if op == Regular then AddUpdate(st1, x, rv)
      else
        var st2 :- AddVariableRef(st1, x);
        var lv :- RequireLastVar(st2);
        var st3 := Emit(st2, AssignOpcode(op), [Local(lv), Local(rv)], Some(st.varId));
        if op == ModAssign then Some(st3) else AddUpdate(st3, x, st.varId)
  }

  /** `++` and `--` compute a value that nothing refers to. */
  function VisitStep(st: State, op: Opcode, x: Expr): (r: Option<State>)
    requires Ready(st)
    ensures r.Some? ==> Grown(st, r.value)
  {
    var st1 :- VisitExpr(st, x);
    var v :- RequireLastVar(st1);
    Some(Emit(st1, op, [Local(v), IntConst(1)], None))
  }

  /** A condition and the conditional jump, whose labels are still missing. */
  function VisitCondition(st: State, cond: Expr): (r: Option<State>)
    requires Ready(st)
    ensures r.Some? ==> Grown(st, r.value)
    ensures r.Some? ==> LastBlock(r.value).instructions != []
  {
    var st1 :- VisitExpr(st, cond);
    var v :- RequireLastVar(st1);
    Some(EmitResult(st1, CondJump, [Local(v)]))
  }

  /** A branch in a scope of its own; also the environment as it is at the branch's end. */
  function VisitInNewEnv(order: Order, st: State, ss: seq<Stmt>): (r: Option<(State, Stack<Site>)>)
    requires Ready(st) && IsOrder(order)
    ensures r.Some? ==> Grown(st, r.value.0) && |r.value.1| > |st.varEnv|
    decreases ss, 1
  {
    var st1 :- VisitList(order, PushEnv(st), ss);
    var st2 :- PopEnv(st1);
    Some((st2, st1.varEnv))
  }

  /** A lowered branch: its first block, the jump that will end that block, its environment. */
  datatype Branch = Branch(st: State, block: BlockRef, jump: nat, env: Stack<Site>)

  /** A branch in a new block, whose label the conditional jump at `place` receives. The
      environment before the branch is put back. */
  function VisitBranch(order: Order, st: State, prefix: string, branch: BlockRef, place: nat, code: seq<Stmt>): (r: Option<Branch>)
    requires Ready(st) && IsOrder(order)
    ensures r.Some? ==> Grown(st, r.value.st) && |r.value.env| > |st.varEnv|
    decreases code, 2
  {
    var st1 := AddBlock(st, prefix);
    var visited :- VisitInNewEnv(order, AddOperands(st1, branch, place, [Label(LastRef(st1))]), code);
    Some(Branch(ReserveInstr(visited.0), LastRef(st1), visited.0.instrId, visited.1))
  }

  /** The part of an `If` behind its conditional jump. Without an alternative the merge emits
      its PHIs but leaves the names as they were. */
  function VisitBranches(order: Order, st: State, s: Stmt): (r: Option<State>)
    requires Ready(st) && IsOrder(order) && s.If? && LastBlock(st).instructions != []
    ensures r.Some? ==> Grown(st, r.value)
    decreases s, 0
  {
    var branch := LastRef(st);
    var place := |Instructions(st, branch)| - 1;
    var t :- VisitBranch(order, st, "if_then", branch, place, s.onTrue);
    var st1 := t.st.(varEnv := st.varEnv);
    if s.onFalse.NoElse? then
      var st2 := AddBlock(st1, "if_merge");
      var st3 := InsertJump(st2, t.jump, t.block, LastRef(st2));
      Some(MergeEnvs(order, st3, st.varEnv, t.env).0.(varEnv := st.varEnv))
    else
      var e :- VisitBranch(order, st1, "if_alt", branch, place, s.onFalse.code);
      Some(JoinBranches(order, e.st, t, e))
  }

  /** The two branches by themselves. */
  function FirstBranch(order: Order, st: State, s: Stmt): (r: Option<Branch>)
    requires Ready(st) && IsOrder(order) && s.If? && LastBlock(st).instructions != []
    ensures r.Some? ==> Ready(r.value.st)
  {
    VisitBranch(order, st, "if_then", LastRef(st), |Instructions(st, LastRef(st))| - 1, s.onTrue)
  }

  function SecondBranch(order: Order, st: State, s: Stmt): (r: Option<Branch>)
    requires Ready(st) && IsOrder(order) && s.If? && s.onFalse.Else? && LastBlock(st).instructions != []
  {
    var place: nat := |Instructions(st, LastRef(st))| - 1;
    var t :- VisitBranch(order, st, "if_then", LastRef(st), place, s.onTrue);
    VisitBranch(order, t.st.(varEnv := st.varEnv), "if_alt", LastRef(st), place, s.onFalse.code)
  }

  /** The state in which the test of an `If` is lowered. */
  function BeforeTest(order: Order, st: State, s: Stmt): (r: Option<State>)
    requires Ready(st) && IsOrder(order) && s.If?
    ensures r.Some? ==> Ready(r.value)
  {
    if s.first.None? then Some(st) else VisitStmt(order, st, s.first.value)
  }

  function JoinBranches(order: Order, st: State, t: Branch, e: Branch): (r: State)
    requires Ready(st) && IsOrder(order) && t.env != []
    ensures Ready(r) && |r.varEnv| == |t.env| && r.fnEnv == st.fnEnv && r.globals == st.globals
    ensures |r.functions| == |st.functions|
  {
    var st1 := AddBlock(st, "if_merge");
    var merge := LastRef(st1);
    var st2 := InsertJump(InsertJump(st1, t.jump, t.block, merge), e.jump, e.block, merge);
    var merged := MergeEnvs(order, st2, t.env, e.env);
    merged.0.(varEnv := merged.1)
  }

  /** Block `r` ends with a jump to `target`, and a new block begins. */
  function CloseBlock(st: State, r: BlockRef, target: BlockRef, prefix: string): (st': State)
    requires Ready(st)
    ensures Grown(st, st')
  {
    AddBlock(InsertJump(ReserveInstr(st), st.instrId, r, target), prefix)
  }

  /** The part of a `Loop` behind its initialisation. */
  function VisitLoop(order: Order, st: State, s: Stmt): (r: Option<State>)
    requires Ready(st) && IsOrder(order) && s.Loop? && s.test.Some? && s.post.Some?
    ensures r.Some? ==> Grown(st, r.value)
    decreases s, 0
  {
    var st1 := EnterBlock(st, "loop_cond");
    var condBlock := LastRef(st1);
    var st2 :- VisitCondition(st1, s.test.value);
    var branch := LastRef(st2);
    var place := |Instructions(st2, branch)| - 1;
    var st3 := AddBlock(st2, "loop_expr");
    var exprBlock := LastRef(st3);
    var st4 :- VisitStmt(order, st3, s.post.value);
    var st5 := CloseBlock(st4, exprBlock, condBlock, "loop_body");
    var bodyBlock := LastRef(st5);
    var visited :- VisitInNewEnv(order, st5, s.body);
    var st6 := CloseBlock(visited.0, bodyBlock, exprBlock, "loop_merge");
    Some(AddOperands(st6, branch, place, [Label(bodyBlock), Label(LastRef(st6))]))
  }

  // ---- Top level --------------------------------------------------------------------------

  function VisitParams(st: State, params: seq<string>): (r: Option<State>)
    requires Ready(st)
    ensures r.Some? ==> Grown(st, r.value)
    decreases |params|
  {
    if params == [] then Some(st)
    else
      var st1 :- VarBind(AddParam(st), params[0], st.varId);
      VisitParams(st1, params[1..])
  }

  predicate TopLevel(st: State) {
    st.varEnv != [] && st.fnEnv != []
  }

  function VisitItem(order: Order, st: State, item: Item): (r: Option<State>)
    requires TopLevel(st) && IsOrder(order)
    ensures r.Some? ==> TopLevel(r.value)
  {
    match item
    case FunctionDecl(f) => Some(AddFunctionDeclaration(st, f))
    case GlobalDecl(x) => Some(st.(globals := st.globals + {x}))
    case Function(f, params, code) =>
      var st1 := PushEnv(AddBlock(AddFunctionDefinition(st, f), "entry"));
      var st2 :- VisitParams(st1, params);
      var st3 :- VisitList(order, st2, code);
      PopEnv(st3)
  }

  function VisitItems(order: Order, st: State, items: seq<Item>): (r: Option<State>)
    requires TopLevel(st) && IsOrder(order)
    ensures r.Some? ==> TopLevel(r.value)
    decreases |items|
  {
    if items == [] then Some(st)
    else
      var st1 :- VisitItem(order, st, items[0]);
      VisitItems(order, st1, items[1..])
  }
}
