/** A function that touches only names of its own scopes is lowered as if no other name were
    visible, whatever earlier functions left behind. */
module MirFrame {
  import opened Ast
  import opened Statements
  import opened Scopes
  import opened Sequences
  import opened Words
  import opened Mir
  import opened MirFactory
  import opened MirBuilder
  import opened MirNames
  import opened MirSsa
  import opened MirBlocks
  import opened MirEnds
  import opened MirTouches

  /** The outermost scopes are those of `f`, and there are others. */
  ghost predicate Framed(f: Stack<Site>, st: State) {
    |st.varEnv| > |f| && st.varEnv[..|f|] == f
  }

  /** As many scopes, without names. */
  function Blank(n: nat): (env: Stack<Site>)
    ensures |env| == n && forall i :: 0 <= i < n ==> env[i] == map[]
  {
    Repeat(n, map[])
  }

  function HiddenEnv(n: nat, env: Stack<Site>): (r: Stack<Site>)
    requires n <= |env|
    ensures |r| == |env| && (forall i :: 0 <= i < n ==> r[i] == map[]) && (forall i :: n <= i < |env| ==> r[i] == env[i])
  {
    Blank(n) + env[n..]
  }

  function Hidden(n: nat, st: State): State
    requires n <= |st.varEnv|
  {
    st.(varEnv := HiddenEnv(n, st.varEnv))
  }

  /** The walks of a hidden state are those of the state. */
  function HiddenOrder(order: Order, f: Stack<Site>): Order {
    (st: State, n: nat, keys: set<string>) => order(if |st.varEnv| >= |f| then st.(varEnv := f + st.varEnv[|f|..]) else st, n, keys)
  }

  lemma HiddenIsOrder(order: Order, f: Stack<Site>)
    requires IsOrder(order)
    ensures IsOrder(HiddenOrder(order, f))
  {
    forall st, n, keys ensures Enumerates(HiddenOrder(order, f)(st, n, keys), keys) {
      var shown := if |st.varEnv| >= |f| then st.(varEnv := f + st.varEnv[|f|..]) else st;
      assert Enumerates(order(shown, n, keys), keys);
    }
  }

  lemma HiddenWalk(order: Order, f: Stack<Site>, st: State, n: nat, keys: set<string>)
    requires |st.varEnv| >= |f| && st.varEnv[..|f|] == f
    ensures HiddenOrder(order, f)(Hidden(|f|, st), n, keys) == order(st, n, keys)
  {
    var h := Hidden(|f|, st);
    assert f + h.varEnv[|f|..] == st.varEnv;
    assert h.(varEnv := st.varEnv) == st;
  }

  ghost predicate AllOwn(n: nat, t: set<Place>) {
    forall p :: p in t ==> p.0 >= n
  }

  // ---- The factory ------------------------------------------------------------------------

  lemma HomeHidden(n: nat, env: Stack<Site>, x: string)
    requires n <= |env| && Home(NamesOf(env), x).Some? && Home(NamesOf(env), x).value >= n
    ensures Home(NamesOf(HiddenEnv(n, env)), x) == Home(NamesOf(env), x)
  {
    var h, k := Home(NamesOf(HiddenEnv(n, env)), x), Home(NamesOf(env), x).value;
    assert x in NamesOf(env)[k] && x in NamesOf(HiddenEnv(n, env))[k];
    forall i | k < i < |env| ensures x !in NamesOf(HiddenEnv(n, env))[i] { assert x !in NamesOf(env)[i]; }
  }

  lemma FindHidden(n: nat, env: Stack<Site>, x: string, s: Site)
    requires n <= |env| && Find(env, x).Some? && AllOwn(n, Writes(NamesOf(env), x))
    ensures var henv := HiddenEnv(n, env); Find(henv, x) == Find(env, x) && Scopes.Update(henv, x, s) == HiddenEnv(n, Scopes.Update(env, x, s))
    ensures Scopes.Update(env, x, s)[..n] == env[..n]
  {
    var henv := HiddenEnv(n, env);
    HomeFinds(env, x);
    assert (Home(NamesOf(env), x).value, x) in Writes(NamesOf(env), x);
    HomeHidden(n, env, x);
    HomeFinds(henv, x);
    HomeUpdates(env, x, s);
    HomeUpdates(henv, x, s);
    hide Find, Scopes.Update, Home;
  }

  lemma EmitHidden(n: nat, st: State, op: Opcode, os: seq<Operand>, result: Option<VarId>)
    requires HasBlock(st) && n <= |st.varEnv|
    ensures Emit(st, op, os, result).varEnv == st.varEnv
    ensures Emit(Hidden(n, st), op, os, result) == Hidden(n, Emit(st, op, os, result))
  {}

  lemma ResultHidden(n: nat, st: State, op: Opcode, os: seq<Operand>)
    requires HasBlock(st) && n <= |st.varEnv|
    ensures EmitResult(st, op, os).varEnv == st.varEnv
    ensures EmitResult(Hidden(n, st), op, os) == Hidden(n, EmitResult(st, op, os))
  {
    EmitHidden(n, CreateVar(st), op, os, Some(st.varId));
    hide Emit;
  }

  lemma BlockHidden(n: nat, st: State, prefix: string)
    requires HasFunction(st) && n <= |st.varEnv|
    ensures AddBlock(st, prefix).varEnv == st.varEnv && AddBlock(Hidden(n, st), prefix) == Hidden(n, AddBlock(st, prefix))
  {}

  lemma OperandsHidden(n: nat, st: State, r: BlockRef, i: nat, os: seq<Operand>)
    requires n <= |st.varEnv|
    ensures AddOperands(st, r, i, os).varEnv == st.varEnv && AddOperands(Hidden(n, st), r, i, os) == Hidden(n, AddOperands(st, r, i, os))
  {}

  lemma InsertHidden(n: nat, st: State, id: nat, r: BlockRef, target: BlockRef)
    requires n <= |st.varEnv|
    ensures InsertJump(st, id, r, target).varEnv == st.varEnv
    ensures InsertJump(Hidden(n, st), id, r, target) == Hidden(n, InsertJump(st, id, r, target))
  {}

  lemma UpdateHidden(f: Stack<Site>, st: State, x: string, v: VarId)
    requires HasBlock(st) && Framed(f, st) && AddUpdate(st, x, v).Some? && AllOwn(|f|, Writes(NamesOf(st.varEnv), x))
    ensures Framed(f, AddUpdate(st, x, v).value) && AddUpdate(Hidden(|f|, st), x, v) == Some(Hidden(|f|, AddUpdate(st, x, v).value))
  {
    hide EmitResult, Find, Scopes.Update, Writes, AllOwn, HiddenEnv;
    ResultHidden(|f|, st, Opcode.Update, [Local(v)]);
    FindHidden(|f|, st.varEnv, x, Site(LastRef(st), st.varId));
  }

  lemma RefHidden(f: Stack<Site>, st: State, x: string)
    requires HasBlock(st) && Framed(f, st) && AddVariableRef(st, x).Some? && AllOwn(|f|, Reads(NamesOf(st.varEnv), st.globals, x))
    ensures Framed(f, AddVariableRef(st, x).value) && AddVariableRef(Hidden(|f|, st), x) == Some(Hidden(|f|, AddVariableRef(st, x).value))
  {
    if x in st.globals {
      ResultHidden(|f|, st, Load, [Global(x)]);
    } else {
      UpdateHidden(f, st, x, Find(st.varEnv, x).value.v);
      FindHidden(|f|, st.varEnv, x, Site(LastRef(st), st.varId));
    }
    hide EmitResult, AddUpdate, Find, Scopes.Update, Writes, AllOwn;
  }

  lemma BindHidden(f: Stack<Site>, st: State, x: string, v: VarId)
    requires HasBlock(st) && Framed(f, st) && VarBind(st, x, v).Some?
    ensures Framed(f, VarBind(st, x, v).value) && VarBind(Hidden(|f|, st), x, v) == Some(Hidden(|f|, VarBind(st, x, v).value))
  {
    ResultHidden(|f|, st, Bind, [Local(v)]);
    LastHidden(|f|, st.varEnv, x, Site(LastRef(st), st.varId));
    hide EmitResult, HiddenEnv;
  }

  lemma LastHidden(n: nat, env: Stack<Site>, x: string, s: Site)
    requires n < |env|
    ensures var k := |env| - 1; var henv := HiddenEnv(n, env);
      && henv[k] == env[k] && henv != [] && env[k := env[k][x := s]][..n] == env[..n]
      && HiddenEnv(n, env[k := env[k][x := s]]) == henv[k := env[k][x := s]]
  {}

  // ---- Merging ----------------------------------------------------------------------------

  lemma {:induction false} LayerHidden(n: nat, st: State, first: Layer<Site>, second: Layer<Site>, keys: seq<string>)
    requires HasBlock(st) && n <= |st.varEnv| && forall k <- keys :: k in first
    ensures var r := MergeLayer(st, first, second, keys);
      r.0.varEnv == st.varEnv && MergeLayer(Hidden(n, st), first, second, keys) == (Hidden(n, r.0), r.1)
    decreases keys
  {
    hide EmitResult;
    if keys != [] && keys[0] in second {
      var a, b := first[keys[0]], second[keys[0]];
      if a.v == b.v {
        LayerHidden(n, st, first, second, keys[1..]);
      } else {
        var os := [PhiArg(a.block, a.v), PhiArg(b.block, b.v)];
        ResultHidden(n, st, Phi, os);
        LayerHidden(n, EmitResult(st, Phi, os), first[keys[0] := a.(v := st.varId)], second, keys[1..]);
      }
    }
  }

  /** Equal layers are merged without a trace. */
  lemma {:induction false} SameLayer(st: State, layer: Layer<Site>, keys: seq<string>)
    requires HasBlock(st) && forall k <- keys :: k in layer
    ensures MergeLayer(st, layer, layer, keys) == (st, layer)
    decreases keys
  {
    if keys != [] { SameLayer(st, layer, keys[1..]); }
  }

  lemma {:induction false} OwnEnvsMerge(order: Order, f: Stack<Site>, st: State, e1: Stack<Site>, e2: Stack<Site>)
    requires HasBlock(st) && IsOrder(order) && Framed(f, st)
    ensures IsOrder(HiddenOrder(order, f))
    ensures var r := MergeEnvs(order, st, e1, e2);
      r.0.varEnv == st.varEnv && MergeEnvs(HiddenOrder(order, f), Hidden(|f|, st), e1, e2) == (Hidden(|f|, r.0), r.1)
    decreases |e1|
  {
    hide MergeLayer, HiddenOrder, Hidden;
    HiddenIsOrder(order, f);
    if e1 != [] && e2 != [] {
      var keys := order(st, |e1|, e1[0].Keys);
      assert Enumerates(keys, e1[0].Keys);
      HiddenWalk(order, f, st, |e1|, e1[0].Keys);
      LayerHidden(|f|, st, e1[0], e2[0], keys);
      OwnEnvsMerge(order, f, MergeLayer(st, e1[0], e2[0], keys).0, e1[1..], e2[1..]);
    }
  }

  /** Equal outer layers make no difference. */
  lemma {:induction false} OuterEnvsMerge(order: Order, st: State, p: Stack<Site>, e1: Stack<Site>, e2: Stack<Site>)
    requires HasBlock(st) && IsOrder(order)
    ensures var r := MergeEnvs(order, st, e1, e2); MergeEnvs(order, st, p + e1, p + e2) == (r.0, p + r.1)
    decreases |p|
  {
    hide MergeEnvs;
    var r := MergeEnvs(order, st, e1, e2);
    if p == [] {
      assert p + e1 == e1 && p + e2 == e2 && p + r.1 == r.1;
    } else {
      OuterEnvsMerge(order, st, p[1..], e1, e2);
      OuterMerge(order, st, p[0], p[1..] + e1, p[1..] + e2);
      FirstOf(p, e1);
      FirstOf(p, e2);
      FirstOf(p, r.1);
    }
  }

  lemma FirstOf<T>(p: seq<T>, e: seq<T>)
    requires p != []
    ensures [p[0]] + (p[1..] + e) == p + e
  {}

  lemma OuterMerge(order: Order, st: State, layer: Layer<Site>, e1: Stack<Site>, e2: Stack<Site>)
    requires HasBlock(st) && IsOrder(order)
    ensures var r := MergeEnvs(order, st, e1, e2); MergeEnvs(order, st, [layer] + e1, [layer] + e2) == (r.0, [layer] + r.1)
  {
    var keys := order(st, |e1| + 1, layer.Keys);
    assert Enumerates(keys, layer.Keys);
    SameLayer(st, layer, keys);
    hide MergeLayer;
    assert ([layer] + e1)[1..] == e1 && ([layer] + e2)[1..] == e2;
  }

  /** Merging hides and shows the outer layers of both environments alike. */
  lemma EnvsMerge(order: Order, f: Stack<Site>, st: State, e1: Stack<Site>, e2: Stack<Site>)
    requires HasBlock(st) && IsOrder(order) && Framed(f, st)
    requires |f| <= |e1| && |f| <= |e2| && e1[..|f|] == f && e2[..|f|] == f
    ensures IsOrder(HiddenOrder(order, f))
    ensures var r := MergeEnvs(order, st, e1, e2);
      && r.0.varEnv == st.varEnv && |r.1| == |e1| && r.1[..|f|] == f
      && MergeEnvs(HiddenOrder(order, f), Hidden(|f|, st), HiddenEnv(|f|, e1), HiddenEnv(|f|, e2)) == (Hidden(|f|, r.0), HiddenEnv(|f|, r.1))
  {
    HiddenIsOrder(order, f);
    hide MergeEnvs, HiddenOrder, IsOrder, Hidden;
    var o1, o2 := e1[|f|..], e2[|f|..];
    assert e1 == f + o1 && e2 == f + o2;
    OwnEnvsMerge(order, f, st, o1, o2);
    OuterEnvsMerge(order, st, f, o1, o2);
    var r := MergeEnvs(order, st, o1, o2);
    assert (f + r.1)[|f|..] == r.1;
    HiddenHasBlock(|f|, st);
    OuterEnvsMerge(HiddenOrder(order, f), Hidden(|f|, st), Blank(|f|), o1, o2);
  }

  lemma HiddenHasBlock(n: nat, st: State)
    requires HasBlock(st) && n <= |st.varEnv|
    ensures var h := Hidden(n, st);
      && HasBlock(h) && LastRef(h) == LastRef(st) && RequireLastVar(h) == RequireLastVar(st)
      && h.functions == st.functions && h.varId == st.varId && h.instrId == st.instrId && h.globals == st.globals && h.fnEnv == st.fnEnv
      && h.varEnv == HiddenEnv(n, st.varEnv)
  {}

  // ---- Expressions ------------------------------------------------------------------------

  /** Both ways of lowering succeed, and differ in the names that are hidden only. */
  ghost predicate Mirrored(f: Stack<Site>, a: Option<State>, b: Option<State>) {
    a.Some? && Framed(f, a.value) && b == Some(Hidden(|f|, a.value))
  }

  lemma EmitMirrored(f: Stack<Site>, st: State, op: Opcode, os: seq<Operand>, result: Option<VarId>)
    requires HasBlock(st) && Framed(f, st)
    ensures HasBlock(Hidden(|f|, st)) && Mirrored(f, Some(Emit(st, op, os, result)), Some(Emit(Hidden(|f|, st), op, os, result)))
  {
    EmitHidden(|f|, st, op, os, result);
    HiddenHasBlock(|f|, st);
    hide Emit;
  }

  lemma ResultMirrored(f: Stack<Site>, st: State, op: Opcode, os: seq<Operand>)
    requires HasBlock(st) && Framed(f, st)
    ensures HasBlock(Hidden(|f|, st)) && Mirrored(f, Some(EmitResult(st, op, os)), Some(EmitResult(Hidden(|f|, st), op, os)))
  {
    ResultHidden(|f|, st, op, os);
    HiddenHasBlock(|f|, st);
    hide EmitResult;
  }

  /** An expression that touches own names only. */
  lemma {:induction false} ExprFrame(f: Stack<Site>, st: State, e: Expr)
    requires Ready(st) && Framed(f, st) && Below(st.varEnv, st.varId) && VisitExpr(st, e).Some?
    requires AllOwn(|f|, ExprTouches(NamesOf(st.varEnv), st.globals, e))
    ensures Ready(Hidden(|f|, st)) && Mirrored(f, VisitExpr(st, e), VisitExpr(Hidden(|f|, st), e))
    decreases e, 1
  {
    HiddenHasBlock(|f|, st);
    hide AddVariableRef, EmitResult, RequireLastVar, VisitLogical, AddCall, VisitLiteral, Below, Reads, HiddenEnv;
    match e
    case Literal(lit) => LiteralFrame(f, st, lit);
    case Identifier(x) => RefHidden(f, st, x);
    case FunctionCall(g, args) =>
      ArgsFrame(f, st, args);
      CallFrame(f, VisitArgs(st, args).value.0, g, VisitArgs(st, args).value.1);
    case Prefix(op, x) => if op == Positive || op == Negative { PrefixFrame(f, st, op, x); }
    case Infix(op, l, r) => if op == And || op == Or { LogicalFrame(f, st, op, l, r); } else { InfixFrame(f, st, op, l, r); }
    case _ =>
  }

  lemma LiteralFrame(f: Stack<Site>, st: State, lit: Ast.Literal)
    requires Ready(st) && Framed(f, st) && VisitLiteral(st, lit).Some?
    ensures Ready(Hidden(|f|, st)) && Mirrored(f, VisitLiteral(st, lit), VisitLiteral(Hidden(|f|, st), lit))
  {
    HiddenHasBlock(|f|, st);
    hide EmitResult, HiddenEnv;
    match lit
    case IntLit(n) => ResultMirrored(f, st, ConstInt, [IntConst(Wrap32(n))]);
    case FloatLit(d) => ResultMirrored(f, st, ConstFloat, [FloatConst(d)]);
    case BoolLit(b) => ResultMirrored(f, st, ConstBool, [BoolConst(b)]);
    case _ =>
  }

  lemma CallFrame(f: Stack<Site>, st: State, g: string, vars: seq<VarId>)
    requires HasBlock(st) && Framed(f, st) && AddCall(st, g, vars).Some?
    ensures HasBlock(Hidden(|f|, st)) && Mirrored(f, AddCall(st, g, vars), AddCall(Hidden(|f|, st), g, vars))
  {
    EmitMirrored(f, st, CallOp, CallOperands(g, vars), None);
    hide Emit, HiddenEnv;
  }

  lemma {:induction false} ArgsFrame(f: Stack<Site>, st: State, args: seq<Expr>)
    requires Ready(st) && Framed(f, st) && Below(st.varEnv, st.varId) && VisitArgs(st, args).Some?
    requires AllOwn(|f|, ArgsTouch(NamesOf(st.varEnv), st.globals, args))
    ensures Ready(Hidden(|f|, st)) && Framed(f, VisitArgs(st, args).value.0)
    ensures var r := VisitArgs(st, args).value; VisitArgs(Hidden(|f|, st), args) == Some((Hidden(|f|, r.0), r.1))
    decreases args, 0
  {
    HiddenHasBlock(|f|, st);
    hide RequireLastVar, VisitExpr, ExprTouches, Below, HiddenEnv, Touched;
    if args != [] {
      var st1 := VisitExpr(st, args[0]).value;
      ExprAdvances(st, args[0]);
      ExprFrame(f, st, args[0]);
      HiddenHasBlock(|f|, st1);
      ArgsFrame(f, st1, args[1..]);
    }
  }

  lemma {:induction false} PrefixFrame(f: Stack<Site>, st: State, op: PrefixOp, x: Expr)
    requires Ready(st) && Framed(f, st) && Below(st.varEnv, st.varId) && VisitExpr(st, Prefix(op, x)).Some? && (op == Positive || op == Negative)
    requires AllOwn(|f|, ExprTouches(NamesOf(st.varEnv), st.globals, x))
    ensures Ready(Hidden(|f|, st)) && Mirrored(f, VisitExpr(st, Prefix(op, x)), VisitExpr(Hidden(|f|, st), Prefix(op, x)))
    decreases x, 2
  {
    HiddenHasBlock(|f|, st);
    hide EmitResult, RequireLastVar, Below, ExprTouches, HiddenEnv;
    var st1 := VisitExpr(st, x).value;
    ExprFrame(f, st, x);
    HiddenHasBlock(|f|, st1);
    if op == Negative { ResultMirrored(f, st1, ISub, [IntConst(0), Local(RequireLastVar(st1).value)]); }
  }

  lemma {:induction false} InfixFrame(f: Stack<Site>, st: State, op: InfixOp, l: Expr, r: Expr)
    requires Ready(st) && Framed(f, st) && Below(st.varEnv, st.varId) && VisitExpr(st, Infix(op, l, r)).Some? && op != And && op != Or
    requires AllOwn(|f|, ExprTouches(NamesOf(st.varEnv), st.globals, l)) && AllOwn(|f|, ExprTouches(NamesOf(st.varEnv), st.globals, r))
    ensures Ready(Hidden(|f|, st)) && Mirrored(f, VisitExpr(st, Infix(op, l, r)), VisitExpr(Hidden(|f|, st), Infix(op, l, r)))
    decreases Infix(op, l, r), 0
  {
    HiddenHasBlock(|f|, st);
    hide EmitResult, RequireLastVar, Below, Touched, ExprTouches, HiddenEnv;
    var st1 := VisitExpr(st, l).value;
    ExprAdvances(st, l);
    ExprFrame(f, st, l);
    HiddenHasBlock(|f|, st1);
    var st2 := VisitExpr(st1, r).value;
    ExprFrame(f, st1, r);
    HiddenHasBlock(|f|, st2);
    ResultMirrored(f, st2, InfixOpcode(op), [Local(RequireLastVar(st1).value), Local(RequireLastVar(st2).value)]);
  }

  lemma EnterHidden(f: Stack<Site>, st: State, prefix: string)
    requires Ready(st) && Framed(f, st)
    ensures Ready(Hidden(|f|, st)) && Mirrored(f, Some(EnterBlock(st, prefix)), Some(EnterBlock(Hidden(|f|, st), prefix)))
  {
    HiddenHasBlock(|f|, st);
    hide Emit, AddBlock, AddOperands, HiddenEnv;
    var st1 := Emit(st, Jump, [], None);
    EmitHidden(|f|, st, Jump, [], None);
    var st2 := AddBlock(st1, prefix);
    BlockHidden(|f|, st1, prefix);
    HiddenHasBlock(|f|, st2);
    OperandsHidden(|f|, st2, LastRef(st), |Instructions(st, LastRef(st))|, [Label(LastRef(st2))]);
  }

  lemma {:induction false} LeftFrame(f: Stack<Site>, st: State, op: InfixOp, l: Expr)
    requires Ready(st) && Framed(f, st) && Below(st.varEnv, st.varId) && VisitLeftTerm(st, op, l).Some?
    requires AllOwn(|f|, ExprTouches(NamesOf(st.varEnv), st.globals, l))
    ensures Ready(Hidden(|f|, st)) && Framed(f, VisitLeftTerm(st, op, l).value.st)
    ensures var t := VisitLeftTerm(st, op, l).value; VisitLeftTerm(Hidden(|f|, st), op, l) == Some(t.(st := Hidden(|f|, t.st)))
    decreases l, 2
  {
    HiddenHasBlock(|f|, st);
    LeftIs(st, op, l);
    LeftIs(Hidden(|f|, st), op, l);
    hide RequireLastVar, Below, VisitExpr, EnterBlock, EmitResult, ExprTouches, LogicalName, HiddenEnv, VisitLeftTerm;
    var st1 := EnterBlock(st, LogicalName(op) + "_left_term");
    EnterFrame(st, LogicalName(op) + "_left_term");
    EnterHidden(f, st, LogicalName(op) + "_left_term");
    HiddenHasBlock(|f|, st1);
    var st2 := VisitExpr(st1, l).value;
    ExprFrame(f, st1, l);
    HiddenHasBlock(|f|, st2);
    ResultMirrored(f, st2, CondJump, []);
    HiddenHasBlock(|f|, EmitResult(st2, CondJump, []));
    ReservedHidden(|f|, EmitResult(st2, CondJump, []));
    hide Hidden;
  }

  lemma ReservedHidden(n: nat, st: State)
    requires n <= |st.varEnv|
    ensures ReserveInstr(Hidden(n, st)) == Hidden(n, ReserveInstr(st)) && ReserveInstr(st).varEnv == st.varEnv
  {}

  /** The parts of a lowered left term. */
  lemma LeftIs(st: State, op: InfixOp, l: Expr)
    requires Ready(st)
    ensures var st1 := EnterBlock(st, LogicalName(op) + "_left_term"); var visited := VisitExpr(st1, l);
      VisitLeftTerm(st, op, l) ==
        if visited.None? || RequireLastVar(visited.value).None? then None
        else
          var st2 := visited.value; var st3 := EmitResult(st2, CondJump, []);
          Some(LeftTerm(ReserveInstr(st3), LastRef(st1), RequireLastVar(st2).value, LastRef(st2), |Instructions(st2, LastRef(st2))|, st2.varId, st3.instrId))
  {
    hide RequireLastVar, VisitExpr, EnterBlock, EmitResult, LogicalName;
  }

  /** The parts of a lowered short-circuit operator. */
  lemma LogicalIs(st: State, op: InfixOp, l: Expr, r: Expr, t: LeftTerm, st1: State, st2: State, st3: State)
    requires Ready(st) && VisitLeftTerm(st, op, l) == Some(t) && st1 == AddBlock(t.st, LogicalName(op) + "_right_term") && Ready(st1)
    requires VisitExpr(st1, r) == Some(st2) && RequireLastVar(st2).Some? && st3 == AddBlock(ReserveInstr(st2), LogicalName(op) + "_merge") && Ready(st3)
    ensures VisitLogical(st, op, l, r) == Some(FinishLogical(st3, op, t, LastRef(st1), RequireLastVar(st2).value, st2.instrId))
  {
    hide RequireLastVar, VisitExpr, VisitLeftTerm, FinishLogical, AddBlock, LogicalName;
  }

  lemma {:induction false} LogicalFrame(f: Stack<Site>, st: State, op: InfixOp, l: Expr, r: Expr)
    requires Ready(st) && Framed(f, st) && Below(st.varEnv, st.varId) && VisitLogical(st, op, l, r).Some?
    requires AllOwn(|f|, ExprTouches(NamesOf(st.varEnv), st.globals, l)) && AllOwn(|f|, ExprTouches(NamesOf(st.varEnv), st.globals, r))
    ensures Ready(Hidden(|f|, st)) && Mirrored(f, VisitLogical(st, op, l, r), VisitLogical(Hidden(|f|, st), op, l, r))
    decreases Infix(op, l, r), 0
  {
    hide *;
    LogicalParts(st, op, l, r);
    HiddenReady(f, st);
    LeftParts(f, st, op, l);
    var t := VisitLeftTerm(st, op, l).value;
    var right, merge := LogicalName(op) + "_right_term", LogicalName(op) + "_merge";
    LeftFrame(f, st, op, l);
    RightFrame(f, t.st, right, merge, r);
    var st1 := AddBlock(t.st, right);
    var st2 := VisitExpr(st1, r).value;
    var st3 := AddBlock(ReserveInstr(st2), merge);
    LogicalIs(Hidden(|f|, st), op, l, r, t.(st := Hidden(|f|, t.st)), Hidden(|f|, st1), Hidden(|f|, st2), Hidden(|f|, st3));
    FinishHidden(f, st3, op, t, LastRef(st1), RequireLastVar(st2).value, st2.instrId);
  }

  lemma HiddenReady(f: Stack<Site>, st: State)
    requires Ready(st) && Framed(f, st)
    ensures |f| < |st.varEnv| && Ready(Hidden(|f|, st)) && HasFunction(st)
  {
    HiddenHasBlock(|f|, st);
  }

  lemma LeftParts(f: Stack<Site>, st: State, op: InfixOp, l: Expr)
    requires Ready(st) && Framed(f, st) && Below(st.varEnv, st.varId) && VisitLeftTerm(st, op, l).Some?
    ensures var t := VisitLeftTerm(st, op, l).value;
      && Ready(t.st) && |f| < |t.st.varEnv| && Below(t.st.varEnv, t.st.varId) && NamesOf(t.st.varEnv) == NamesOf(st.varEnv) && t.st.globals == st.globals
  {
    LeftAdvances(st, op, l);
    hide VisitLeftTerm, Touched, Below, ExprTouches;
  }

  lemma {:induction false} RightFrame(f: Stack<Site>, st: State, right: string, merge: string, r: Expr)
    requires Ready(st) && Framed(f, st) && Below(st.varEnv, st.varId) && VisitExpr(AddBlock(st, right), r).Some?
    requires AllOwn(|f|, ExprTouches(NamesOf(st.varEnv), st.globals, r))
    ensures var st1 := AddBlock(st, right); var st2 := VisitExpr(st1, r).value; var st3 := AddBlock(ReserveInstr(st2), merge);
      && HasFunction(st) && Ready(st1) && HasFunction(ReserveInstr(st2)) && Ready(st3) && Framed(f, st1) && Framed(f, st2) && Framed(f, st3) && Ready(Hidden(|f|, st1)) && Ready(Hidden(|f|, st2)) && Ready(Hidden(|f|, st3))
      && HasFunction(Hidden(|f|, st)) && HasFunction(ReserveInstr(Hidden(|f|, st2)))
      && LastRef(Hidden(|f|, st1)) == LastRef(st1) && RequireLastVar(Hidden(|f|, st2)) == RequireLastVar(st2) && Hidden(|f|, st2).instrId == st2.instrId
      && AddBlock(Hidden(|f|, st), right) == Hidden(|f|, st1)
      && VisitExpr(Hidden(|f|, st1), r) == Some(Hidden(|f|, st2)) && AddBlock(ReserveInstr(Hidden(|f|, st2)), merge) == Hidden(|f|, st3)
    decreases r, 2
  {
    hide RequireLastVar, Below, VisitExpr, AddBlock, ExprTouches, HiddenEnv;
    HiddenHasBlock(|f|, st);
    var st1 := AddBlock(st, right);
    BlockFrame(st, right);
    BlockHidden(|f|, st, right);
    HiddenHasBlock(|f|, st1);
    var st2 := VisitExpr(st1, r).value;
    ExprFrame(f, st1, r);
    HiddenHasBlock(|f|, st2);
    ReservedHidden(|f|, st2);
    BlockHidden(|f|, ReserveInstr(st2), merge);
    HiddenHasBlock(|f|, AddBlock(ReserveInstr(st2), merge));
  }

  lemma FinishHidden(f: Stack<Site>, st: State, op: InfixOp, t: LeftTerm, right: BlockRef, rv: VarId, rightJump: nat)
    requires Ready(st) && Framed(f, st) && |f| <= |t.st.varEnv|
    ensures Ready(Hidden(|f|, st))
    ensures Mirrored(f, Some(FinishLogical(st, op, t, right, rv, rightJump)),
                     Some(FinishLogical(Hidden(|f|, st), op, t.(st := Hidden(|f|, t.st)), right, rv, rightJump)))
  {
    HiddenHasBlock(|f|, st);
    var merge := LastRef(st);
    var labels := if op == And then [Local(t.leftVar), Label(right), Label(merge)] else [Local(t.leftVar), Label(merge), Label(right)];
    OperandsHidden(|f|, st, t.branch, t.place, labels);
    var short := st.varId;
    OperandsFrameEnv(st, t.branch, t.place, labels);
    var choice := if op == And then [Local(t.branchVar), Local(rv), Local(short)] else [Local(t.branchVar), Local(short), Local(rv)];
    SelectHidden(f, AddOperands(st, t.branch, t.place, labels), t, [BoolConst(op == Or)], choice, right, rightJump, merge);
    HiddenHasBlock(|f|, AddOperands(st, t.branch, t.place, labels));
    hide AddOperands, InsertJump, EmitResult, Hidden, Mirrored;
  }

  lemma SelectHidden(f: Stack<Site>, st: State, t: LeftTerm, value: seq<Operand>, choice: seq<Operand>, right: BlockRef, rightJump: nat, merge: BlockRef)
    requires HasBlock(st) && Framed(f, st)
    ensures HasBlock(Hidden(|f|, st))
    ensures Mirrored(f,
      Some(InsertJump(InsertJump(EmitResult(EmitResult(st, ConstBool, value), Phi, choice), t.leftJump, t.left, merge), rightJump, right, merge)),
      Some(InsertJump(InsertJump(EmitResult(EmitResult(Hidden(|f|, st), ConstBool, value), Phi, choice), t.leftJump, t.left, merge), rightJump, right, merge)))
  {
    HiddenHasBlock(|f|, st);
    hide InsertJump, EmitResult, Hidden;
    var st1 := EmitResult(st, ConstBool, value);
    ResultHidden(|f|, st, ConstBool, value);
    var st2 := EmitResult(st1, Phi, choice);
    ResultHidden(|f|, st1, Phi, choice);
    InsertHidden(|f|, st2, t.leftJump, t.left, merge);
    InsertHidden(|f|, InsertJump(st2, t.leftJump, t.left, merge), rightJump, right, merge);
  }

  // ---- Statements -------------------------------------------------------------------------

  /** All places that are touched while a statement is lowered, in branches whose environment is not
      kept as well. */
  function StmtUses(ns: Names, globals: set<string>, s: Stmt): set<Place>
    requires ns != []
    decreases s, 1
  {
    match s
    case If(first, cond, onTrue, onFalse) =>
      var ns1 := if first.None? then ns else After(ns, first.value);
      (if first.None? then {} else StmtUses(ns, globals, first.value)) + ExprTouches(ns1, globals, cond) +
      ListUses(ns1 + [{}], globals, onTrue) + (if onFalse.NoElse? then {} else ListUses(ns1 + [{}], globals, onFalse.code))
    case Loop(first, test, post, body) =>
      var ns1 := if first.None? then ns else After(ns, first.value);
      var ns2 := if post.None? then ns1 else After(ns1, post.value);
      (if first.None? then {} else StmtUses(ns, globals, first.value)) + OptionTouches(ns1, globals, test) +
      (if post.None? then {} else StmtUses(ns1, globals, post.value)) + ListUses(ns2 + [{}], globals, body)
    case _ => StmtTouches(ns, globals, s)
  }

  function ListUses(ns: Names, globals: set<string>, ss: seq<Stmt>): set<Place>
    requires ns != []
    decreases ss, 0
  {
    if ss == [] then {} else StmtUses(ns, globals, ss[0]) + ListUses(After(ns, ss[0]), globals, ss[1..])
  }

  lemma IfUses(ns: Names, globals: set<string>, s: Stmt)
    requires ns != [] && s.If?
    ensures var ns1 := if s.first.None? then ns else After(ns, s.first.value);
      StmtUses(ns, globals, s) ==
        (if s.first.None? then {} else StmtUses(ns, globals, s.first.value)) + ExprTouches(ns1, globals, s.cond) +
        ListUses(ns1 + [{}], globals, s.onTrue) + (if s.onFalse.NoElse? then {} else ListUses(ns1 + [{}], globals, s.onFalse.code))
  {
    hide ExprTouches, ListUses, AllAfter;
  }

  lemma LoopUses(ns: Names, globals: set<string>, s: Stmt)
    requires ns != [] && s.Loop? && s.first.Some? && s.test.Some? && s.post.Some?
    ensures var ns1 := After(ns, s.first.value);
      StmtUses(ns, globals, s) ==
        StmtUses(ns, globals, s.first.value) + ExprTouches(ns1, globals, s.test.value) +
        StmtUses(ns1, globals, s.post.value) + ListUses(After(ns1, s.post.value) + [{}], globals, s.body)
  {
    hide ExprTouches, ListUses, AllAfter;
  }

  lemma BindingAlone(f: Stack<Site>, st: State, x: string, init: Option<Expr>)
    requires Ready(st) && Framed(f, st) && Below(st.varEnv, st.varId) && VisitBinding(st, x, init).Some?
    requires AllOwn(|f|, OptionTouches(NamesOf(st.varEnv), st.globals, init))
    ensures Ready(Hidden(|f|, st)) && Mirrored(f, VisitBinding(st, x, init), VisitBinding(Hidden(|f|, st), x, init))
  {
    HiddenReady(f, st);
    hide VisitExpr, RequireLastVar, VarBind, Below, ExprTouches, HiddenEnv;
    var st1 := VisitExpr(st, init.value).value;
    ExprFrame(f, st, init.value);
    HiddenHasBlock(|f|, st1);
    BindHidden(f, st1, x, RequireLastVar(st1).value);
    hide Hidden;
  }

  lemma AssignmentAlone(f: Stack<Site>, st: State, op: AssignOp, target: Expr, value: Expr)
    requires Ready(st) && Framed(f, st) && Below(st.varEnv, st.varId) && VisitAssignment(st, op, target, value).Some?
    requires AllOwn(|f|, StmtUses(NamesOf(st.varEnv), st.globals, Assign(op, target, value)))
    ensures Ready(Hidden(|f|, st)) && Mirrored(f, VisitAssignment(st, op, target, value), VisitAssignment(Hidden(|f|, st), op, target, value))
  {
    HiddenReady(f, st);
    CreatedHidden(|f|, st);
    hide VisitExpr, RequireLastVar, AddVariableRef, AddUpdate, Emit, Below, Touched, ExprTouches, Reads, Writes, HiddenEnv;
    var x := target.id;
    var st0 := CreateVar(st);
    SameAdvances(st, st0);
    var st1 := VisitExpr(st0, value).value;
    ExprAdvances(st0, value);
    ExprFrame(f, st0, value);
    HiddenHasBlock(|f|, st1);
    HiddenHasBlock(|f|, st);
    hide Hidden;
    var rv := RequireLastVar(st1).value;
    if op == Regular {
      UpdateHidden(f, st1, x, rv);
    } else {
      ComputedAlone(f, st1, op, x, rv, st.varId);
    }
  }

  lemma CreatedHidden(n: nat, st: State)
    requires n <= |st.varEnv|
    ensures CreateVar(Hidden(n, st)) == Hidden(n, CreateVar(st)) && CreateVar(st).varEnv == st.varEnv
  {}

  lemma ComputedAlone(f: Stack<Site>, st1: State, op: AssignOp, x: string, rv: VarId, result: VarId)
    requires HasBlock(st1) && Framed(f, st1) && Below(st1.varEnv, st1.varId) && op != Regular && AddVariableRef(st1, x).Some?
    requires RequireLastVar(AddVariableRef(st1, x).value).Some?
    requires AllOwn(|f|, Reads(NamesOf(st1.varEnv), st1.globals, x)) && (op == ModAssign || AllOwn(|f|, Writes(NamesOf(st1.varEnv), x)))
    requires var st2 := AddVariableRef(st1, x).value;
      var st3 := Emit(st2, AssignOpcode(op), [Local(RequireLastVar(st2).value), Local(rv)], Some(result));
      op == ModAssign || AddUpdate(st3, x, result).Some?
    ensures HasBlock(Hidden(|f|, st1)) && AddVariableRef(Hidden(|f|, st1), x).Some?
    ensures var st2, h2 := AddVariableRef(st1, x).value, AddVariableRef(Hidden(|f|, st1), x).value;
      && RequireLastVar(h2) == RequireLastVar(st2)
      && var st3, h3 := Emit(st2, AssignOpcode(op), [Local(RequireLastVar(st2).value), Local(rv)], Some(result)),
                        Emit(h2, AssignOpcode(op), [Local(RequireLastVar(h2).value), Local(rv)], Some(result));
      Mirrored(f, if op == ModAssign then Some(st3) else AddUpdate(st3, x, result), if op == ModAssign then Some(h3) else AddUpdate(h3, x, result))
  {
    HiddenHasBlock(|f|, st1);
    hide RequireLastVar, AddVariableRef, AddUpdate, Emit, Below, Touched, Reads, Writes, Hidden;
    var st2 := AddVariableRef(st1, x).value;
    RefAdvances(st1, x);
    RefHidden(f, st1, x);
    HiddenHasBlock(|f|, st2);
    var os := [Local(RequireLastVar(st2).value), Local(rv)];
    var st3 := Emit(st2, AssignOpcode(op), os, Some(result));
    EmitMirrored(f, st2, AssignOpcode(op), os, Some(result));
    EmitHidden(|f|, st2, AssignOpcode(op), os, Some(result));
    if op != ModAssign { UpdateHidden(f, st3, x, result); }
  }

  lemma StepAlone(f: Stack<Site>, st: State, op: Opcode, x: Expr)
    requires Ready(st) && Framed(f, st) && Below(st.varEnv, st.varId) && VisitStep(st, op, x).Some?
    requires AllOwn(|f|, ExprTouches(NamesOf(st.varEnv), st.globals, x))
    ensures Ready(Hidden(|f|, st)) && Mirrored(f, VisitStep(st, op, x), VisitStep(Hidden(|f|, st), op, x))
  {
    hide VisitExpr, RequireLastVar, Emit, Below, ExprTouches, HiddenEnv, Hidden, AllOwn, Framed;
    HiddenReady(f, st);
    var st1 := VisitExpr(st, x).value;
    ExprFrame(f, st, x);
    StillFramed(f, st1);
    HiddenHasBlock(|f|, st1);
    EmitMirrored(f, st1, op, [Local(RequireLastVar(st1).value), IntConst(1)], None);
  }

  lemma StillFramed(f: Stack<Site>, st: State)
    requires Framed(f, st)
    ensures |f| < |st.varEnv|
  {}

  lemma ConditionAlone(f: Stack<Site>, st: State, cond: Expr)
    requires Ready(st) && Framed(f, st) && Below(st.varEnv, st.varId) && VisitCondition(st, cond).Some?
    requires AllOwn(|f|, ExprTouches(NamesOf(st.varEnv), st.globals, cond))
    ensures Ready(Hidden(|f|, st)) && Mirrored(f, VisitCondition(st, cond), VisitCondition(Hidden(|f|, st), cond))
  {
    HiddenReady(f, st);
    hide VisitExpr, RequireLastVar, EmitResult, Below, ExprTouches, HiddenEnv;
    var st1 := VisitExpr(st, cond).value;
    ExprFrame(f, st, cond);
    HiddenHasBlock(|f|, st1);
    ResultMirrored(f, st1, CondJump, [Local(RequireLastVar(st1).value)]);
    hide Hidden;
  }

  lemma ReturnAlone(order: Order, f: Stack<Site>, st: State, result: Option<Expr>)
    requires Ready(st) && IsOrder(order) && Framed(f, st) && Below(st.varEnv, st.varId) && VisitStmt(order, st, Return(result)).Some?
    requires AllOwn(|f|, OptionTouches(NamesOf(st.varEnv), st.globals, result))
    ensures IsOrder(HiddenOrder(order, f)) && Ready(Hidden(|f|, st))
    ensures Mirrored(f, VisitStmt(order, st, Return(result)), VisitStmt(HiddenOrder(order, f), Hidden(|f|, st), Return(result)))
  {
    HiddenReady(f, st);
    HiddenIsOrder(order, f);
    hide VisitExpr, RequireLastVar, Emit, Below, ExprTouches, HiddenEnv, HiddenOrder;
    if result.None? {
      EmitMirrored(f, st, ReturnOp, [], None);
    } else {
      var st1 := VisitExpr(st, result.value).value;
      ExprFrame(f, st, result.value);
      HiddenHasBlock(|f|, st1);
      EmitMirrored(f, st1, ReturnOp, [Local(RequireLastVar(st1).value)], None);
    }
    hide Hidden;
  }

  /** A statement that touches own names only. */
  lemma {:induction false} StmtAlone(order: Order, f: Stack<Site>, st: State, s: Stmt)
    requires Ready(st) && IsOrder(order) && Framed(f, st) && Below(st.varEnv, st.varId) && VisitStmt(order, st, s).Some?
    requires AllOwn(|f|, StmtUses(NamesOf(st.varEnv), st.globals, s))
    ensures IsOrder(HiddenOrder(order, f)) && Ready(Hidden(|f|, st))
    ensures Mirrored(f, VisitStmt(order, st, s), VisitStmt(HiddenOrder(order, f), Hidden(|f|, st), s))
    decreases s, 2
  {
    HiddenReady(f, st);
    HiddenIsOrder(order, f);
    hide Below, VisitExpr, VisitBinding, VisitAssignment, VisitStep, VisitCondition, VisitBranches, VisitLoop, Emit, ExprTouches, HiddenEnv, HiddenOrder, AllOwn;
    match s
    case Let(x, init) => BindingAlone(f, st, x, init);
    case Var(x, init) => BindingAlone(f, st, x, init);
    case Assign(op, target, value) => AssignmentAlone(f, st, op, target, value);
    case Increment(x) => StepAlone(f, st, IAdd, x);
    case Decrement(x) => StepAlone(f, st, ISub, x);
    case ExprStmt(e) => ExprFrame(f, st, e);
    case Return(result) => ReturnAlone(order, f, st, result);
    case If(_, _, _, _) => IfAlone(order, f, st, s);
    case Loop(_, _, _, _) => LoopAlone(order, f, st, s);
    case Break => EmitMirrored(f, st, BreakOp, [], None);
    case Continue => EmitMirrored(f, st, ContinueOp, [], None);
    case Defer(_) =>
  }

  lemma {:induction false} ListAlone(order: Order, f: Stack<Site>, st: State, ss: seq<Stmt>)
    requires Ready(st) && IsOrder(order) && Framed(f, st) && Below(st.varEnv, st.varId) && VisitList(order, st, ss).Some?
    requires AllOwn(|f|, ListUses(NamesOf(st.varEnv), st.globals, ss))
    ensures IsOrder(HiddenOrder(order, f)) && Ready(Hidden(|f|, st))
    ensures Mirrored(f, VisitList(order, st, ss), VisitList(HiddenOrder(order, f), Hidden(|f|, st), ss))
    decreases ss, 0
  {
    HiddenReady(f, st);
    HiddenIsOrder(order, f);
    hide VisitStmt, Below, Touched, StmtUses, After, HiddenEnv, HiddenOrder;
    if ss != [] {
      var st1 := VisitStmt(order, st, ss[0]).value;
      StmtAdvances(order, st, ss[0]);
      StmtAlone(order, f, st, ss[0]);
      ListAlone(order, f, st1, ss[1..]);
    }
  }

  lemma PushHidden(f: Stack<Site>, st: State)
    requires Framed(f, st)
    ensures Framed(f, PushEnv(st)) && PushEnv(Hidden(|f|, st)) == Hidden(|f|, PushEnv(st))
  {
    assert HiddenEnv(|f|, st.varEnv + [map[]]) == HiddenEnv(|f|, st.varEnv) + [map[]];
  }

  lemma PopHidden(f: Stack<Site>, st: State)
    requires Framed(f, st) && |st.varEnv| > |f| + 1 && PopEnv(st).Some?
    ensures Mirrored(f, PopEnv(st), PopEnv(Hidden(|f|, st)))
  {
    var n := |st.varEnv| - 1;
    assert HiddenEnv(|f|, st.varEnv)[..n] == HiddenEnv(|f|, st.varEnv[..n]);
    assert st.varEnv[..n][..|f|] == st.varEnv[..|f|];
  }

  lemma {:induction false} NewEnvAlone(order: Order, f: Stack<Site>, st: State, ss: seq<Stmt>)
    requires Ready(st) && IsOrder(order) && Framed(f, st) && Below(st.varEnv, st.varId) && VisitInNewEnv(order, st, ss).Some?
    requires AllOwn(|f|, ListUses(NamesOf(st.varEnv) + [{}], st.globals, ss))
    ensures IsOrder(HiddenOrder(order, f)) && Ready(Hidden(|f|, st))
    ensures var r := VisitInNewEnv(order, st, ss).value;
      && Framed(f, r.0) && |r.1| > |f| && r.1[..|f|] == f
      && VisitInNewEnv(HiddenOrder(order, f), Hidden(|f|, st), ss) == Some((Hidden(|f|, r.0), HiddenEnv(|f|, r.1)))
    decreases ss, 1
  {
    HiddenReady(f, st);
    HiddenIsOrder(order, f);
    var st1 := VisitList(order, PushEnv(st), ss).value;
    hide VisitList, Below, Touched, ListUses, HiddenEnv, HiddenOrder, AllOwn, IsOrder, Hidden;
    PushHidden(f, st);
    PushAdvances(st);
    ListAlone(order, f, PushEnv(st), ss);
    PopHidden(f, st1);
    HiddenReady(f, PushEnv(st));
    HiddenHasBlock(|f|, st1);
  }

  function HiddenBranch(n: nat, b: Branch): Branch
    requires n <= |b.st.varEnv| && n <= |b.env|
  {
    Branch(Hidden(n, b.st), b.block, b.jump, HiddenEnv(n, b.env))
  }

  ghost predicate FramedBranch(f: Stack<Site>, b: Branch) {
    Framed(f, b.st) && |b.env| > |f| && b.env[..|f|] == f
  }

  lemma {:induction false} BranchAlone(order: Order, f: Stack<Site>, st: State, prefix: string, branch: BlockRef, place: nat, code: seq<Stmt>)
    requires Ready(st) && IsOrder(order) && Framed(f, st) && Below(st.varEnv, st.varId) && VisitBranch(order, st, prefix, branch, place, code).Some?
    requires AllOwn(|f|, ListUses(NamesOf(st.varEnv) + [{}], st.globals, code))
    ensures IsOrder(HiddenOrder(order, f)) && Ready(Hidden(|f|, st))
    ensures var b := VisitBranch(order, st, prefix, branch, place, code).value;
      && FramedBranch(f, b)
      && VisitBranch(HiddenOrder(order, f), Hidden(|f|, st), prefix, branch, place, code) == Some(HiddenBranch(|f|, b))
    decreases code, 2
  {
    HiddenReady(f, st);
    HiddenIsOrder(order, f);
    hide VisitInNewEnv, AddBlock, AddOperands, Below, ListUses, HiddenEnv, HiddenOrder;
    var st1 := AddBlock(st, prefix);
    BlockFrame(st, prefix);
    BlockHidden(|f|, st, prefix);
    HiddenHasBlock(|f|, st1);
    var os := [Label(LastRef(st1))];
    var st2 := AddOperands(st1, branch, place, os);
    OperandsFrameEnv(st1, branch, place, os);
    OperandsHidden(|f|, st1, branch, place, os);
    NewEnvAlone(order, f, st2, code);
    var visited := VisitInNewEnv(order, st2, code).value.0;
    HiddenHasBlock(|f|, visited);
    ReservedHidden(|f|, visited);
    hide Hidden;
  }

  lemma {:induction false} IfAlone(order: Order, f: Stack<Site>, st: State, s: Stmt)
    requires Ready(st) && IsOrder(order) && Framed(f, st) && Below(st.varEnv, st.varId) && s.If? && VisitStmt(order, st, s).Some?
    requires AllOwn(|f|, StmtUses(NamesOf(st.varEnv), st.globals, s))
    ensures IsOrder(HiddenOrder(order, f)) && Ready(Hidden(|f|, st))
    ensures Mirrored(f, VisitStmt(order, st, s), VisitStmt(HiddenOrder(order, f), Hidden(|f|, st), s))
    decreases s, 1
  {
    HiddenReady(f, st);
    HiddenIsOrder(order, f);
    IfUses(NamesOf(st.varEnv), st.globals, s);
    hide VisitCondition, VisitBranches, Below, Touched, ExprTouches, ListUses, StmtUses, After, AllAfter, HiddenEnv, HiddenOrder;
    var ns := NamesOf(st.varEnv);
    var st1, ns1 := st, ns;
    if s.first.Some? {
      st1 := VisitStmt(order, st, s.first.value).value;
      StmtAdvances(order, st, s.first.value);
      StmtAlone(order, f, st, s.first.value);
      ns1 := After(ns, s.first.value);
    }
    var st2 := VisitCondition(st1, s.cond).value;
    ConditionAdvances(st1, s.cond);
    ConditionAlone(f, st1, s.cond);
    BranchesAlone(order, f, st2, s);
  }

  lemma HiddenLast(n: nat, st: State)
    requires HasBlock(st) && n <= |st.varEnv|
    ensures HasBlock(Hidden(n, st)) && LastBlock(Hidden(n, st)) == LastBlock(st)
    ensures forall r :: IsBlock(st, r) ==> IsBlock(Hidden(n, st), r) && Instructions(Hidden(n, st), r) == Instructions(st, r)
  {}

  lemma SetHidden(f: Stack<Site>, st: State, env: Stack<Site>)
    requires Framed(f, st) && |env| > |f| && env[..|f|] == f
    ensures Framed(f, st.(varEnv := env)) && Hidden(|f|, st).(varEnv := HiddenEnv(|f|, env)) == Hidden(|f|, st.(varEnv := env))
  {}

  lemma {:induction false} BranchesAlone(order: Order, f: Stack<Site>, st: State, s: Stmt)
    requires Ready(st) && IsOrder(order) && Framed(f, st) && Below(st.varEnv, st.varId) && s.If? && LastBlock(st).instructions != []
    requires VisitBranches(order, st, s).Some?
    requires AllOwn(|f|, ListUses(NamesOf(st.varEnv) + [{}], st.globals, s.onTrue))
    requires s.onFalse.Else? ==> AllOwn(|f|, ListUses(NamesOf(st.varEnv) + [{}], st.globals, s.onFalse.code))
    ensures IsOrder(HiddenOrder(order, f)) && Ready(Hidden(|f|, st)) && LastBlock(Hidden(|f|, st)).instructions != []
    ensures Mirrored(f, VisitBranches(order, st, s), VisitBranches(HiddenOrder(order, f), Hidden(|f|, st), s))
    decreases s, 0
  {
    hide *;
    HiddenReady(f, st);
    HiddenIsOrder(order, f);
    BranchingHidden(f, st);
    BranchesAre(order, st, s);
    BranchesAre(HiddenOrder(order, f), Hidden(|f|, st), s);
    var branch := LastRef(st);
    var place: nat := |Instructions(st, branch)| - 1;
    var t := VisitBranch(order, st, "if_then", branch, place, s.onTrue).value;
    BranchAlone(order, f, st, "if_then", branch, place, s.onTrue);
    var st1 := t.st.(varEnv := st.varEnv);
    Resumed(order, f, st, "if_then", branch, place, s.onTrue);
    if s.onFalse.NoElse? {
      NoElseAlone(order, f, st1, t);
    } else {
      var e := VisitBranch(order, st1, "if_alt", branch, place, s.onFalse.code).value;
      BranchAlone(order, f, st1, "if_alt", branch, place, s.onFalse.code);
      Joinable(order, f, st1, "if_alt", branch, place, s.onFalse.code);
      JoinAlone(order, f, e.st, t, e);
    }
  }

  lemma BranchingHidden(f: Stack<Site>, st: State)
    requires Ready(st) && Framed(f, st) && LastBlock(st).instructions != []
    ensures Ready(Hidden(|f|, st)) && LastBlock(Hidden(|f|, st)).instructions != [] && LastRef(Hidden(|f|, st)) == LastRef(st)
    ensures HasBlock(st) && IsBlock(st, LastRef(st)) && IsBlock(Hidden(|f|, st), LastRef(st))
    ensures |Instructions(st, LastRef(st))| > 0 && Instructions(Hidden(|f|, st), LastRef(st)) == Instructions(st, LastRef(st))
    ensures Hidden(|f|, st).varEnv == HiddenEnv(|f|, st.varEnv)
  {
    HiddenReady(f, st);
    HiddenHasBlock(|f|, st);
    HiddenLast(|f|, st);
    LastIsBlock(st);
  }

  /** Behind the first branch the environment is the one in front of it. */
  lemma {:induction false} Resumed(order: Order, f: Stack<Site>, st: State, prefix: string, branch: BlockRef, place: nat, code: seq<Stmt>)
    requires Ready(st) && IsOrder(order) && Framed(f, st) && Below(st.varEnv, st.varId) && VisitBranch(order, st, prefix, branch, place, code).Some?
    requires FramedBranch(f, VisitBranch(order, st, prefix, branch, place, code).value)
    ensures var t := VisitBranch(order, st, prefix, branch, place, code).value; var st1 := t.st.(varEnv := st.varEnv);
      && Ready(st1) && HasBlock(st1) && Framed(f, st1) && Below(st1.varEnv, st1.varId) && NamesOf(st1.varEnv) == NamesOf(st.varEnv)
      && st1.globals == st.globals && t.env != [] && |f| <= |t.st.varEnv| && |f| <= |st1.varEnv| && |f| <= |t.env|
      && HiddenBranch(|f|, t).st.(varEnv := HiddenEnv(|f|, st.varEnv)) == Hidden(|f|, st1)
  {
    BranchTouches(order, st, prefix, branch, place, code);
    var t := VisitBranch(order, st, prefix, branch, place, code).value;
    BelowMore(st.varEnv, st.varId, t.st.varId);
    SetHidden(f, t.st, st.varEnv);
    hide VisitBranch, Below, Touched, ListTouches, AllAfter, HiddenEnv, Hidden;
  }

  lemma Joinable(order: Order, f: Stack<Site>, st: State, prefix: string, branch: BlockRef, place: nat, code: seq<Stmt>)
    requires Ready(st) && IsOrder(order) && VisitBranch(order, st, prefix, branch, place, code).Some?
    requires FramedBranch(f, VisitBranch(order, st, prefix, branch, place, code).value)
    ensures var e := VisitBranch(order, st, prefix, branch, place, code).value;
      && Ready(e.st) && Framed(f, e.st) && |f| <= |e.st.varEnv| && |f| <= |e.env|
      && HiddenBranch(|f|, e).st == Hidden(|f|, e.st)
  {
    hide VisitBranch, HiddenEnv, Hidden;
  }

  /** The parts of what stands behind the condition of an `If`. */
  lemma BranchesAre(order: Order, st: State, s: Stmt)
    requires Ready(st) && IsOrder(order) && s.If? && LastBlock(st).instructions != []
    ensures var place: nat := |Instructions(st, LastRef(st))| - 1;
      var t := VisitBranch(order, st, "if_then", LastRef(st), place, s.onTrue);
      VisitBranches(order, st, s) ==
        if t.None? then None
        else
          var st1 := t.value.st.(varEnv := st.varEnv);
          if s.onFalse.NoElse? then Some(Closing(order, st1, t.value))
          else
            var e := VisitBranch(order, st1, "if_alt", LastRef(st), place, s.onFalse.code);
            if e.None? then None else Some(JoinBranches(order, e.value.st, t.value, e.value))
  {
    hide VisitBranch, MergeEnvs, AddBlock, InsertJump, JoinBranches;
  }

  /** The end of an `If` without an alternative. */
  function Merging(st: State, t: Branch): (r: State)
    requires HasBlock(st)
    ensures HasBlock(r)
  {
    var st2 := AddBlock(st, "if_merge");
    InsertJump(st2, t.jump, t.block, LastRef(st2))
  }

  function Closing(order: Order, st: State, t: Branch): State
    requires HasBlock(st) && IsOrder(order)
  {
    MergeEnvs(order, Merging(st, t), st.varEnv, t.env).0.(varEnv := st.varEnv)
  }

  lemma MergingHidden(f: Stack<Site>, st: State, t: Branch)
    requires HasBlock(st) && Framed(f, st) && FramedBranch(f, t)
    ensures HasBlock(Hidden(|f|, st)) && Framed(f, Merging(st, t)) && Hidden(|f|, st).varEnv == HiddenEnv(|f|, st.varEnv)
    ensures Merging(Hidden(|f|, st), HiddenBranch(|f|, t)) == Hidden(|f|, Merging(st, t))
    ensures |f| < |st.varEnv| && st.varEnv[..|f|] == f && |f| < |t.env| && t.env[..|f|] == f && HiddenBranch(|f|, t).env == HiddenEnv(|f|, t.env)
  {
    HiddenHasBlock(|f|, st);
    hide AddBlock, InsertJump, HiddenEnv, Hidden;
    var st2 := AddBlock(st, "if_merge");
    BlockHidden(|f|, st, "if_merge");
    HiddenHasBlock(|f|, st2);
    InsertHidden(|f|, st2, t.jump, t.block, LastRef(st2));
  }

  lemma NoElseAlone(order: Order, f: Stack<Site>, st: State, t: Branch)
    requires HasBlock(st) && IsOrder(order) && Framed(f, st) && FramedBranch(f, t)
    ensures IsOrder(HiddenOrder(order, f)) && HasBlock(Hidden(|f|, st))
    ensures Mirrored(f, Some(Closing(order, st, t)), Some(Closing(HiddenOrder(order, f), Hidden(|f|, st), HiddenBranch(|f|, t))))
  {
    MergingHidden(f, st, t);
    HiddenIsOrder(order, f);
    hide Merging, MergeEnvs, Hidden, HiddenEnv, HiddenOrder, IsOrder, HiddenBranch, HasBlock, FramedBranch, Framed;
    EnvsMerge(order, f, Merging(st, t), st.varEnv, t.env);
    ReplacedEnv(f, MergeEnvs(order, Merging(st, t), st.varEnv, t.env).0, Merging(st, t), st.varEnv);
  }

  lemma ReplacedEnv(f: Stack<Site>, st: State, st1: State, env: Stack<Site>)
    requires Framed(f, st1) && st.varEnv == st1.varEnv && |env| > |f| && env[..|f|] == f
    ensures |f| <= |st.varEnv| && Mirrored(f, Some(st.(varEnv := env)), Some(Hidden(|f|, st).(varEnv := HiddenEnv(|f|, env))))
  {
    SetHidden(f, st, env);
  }

  /** The merge block of an `If` with an alternative. */
  function Joining(st: State, t: Branch, e: Branch): (r: State)
    requires HasBlock(st)
    ensures HasBlock(r)
  {
    var st1 := AddBlock(st, "if_merge");
    InsertJump(InsertJump(st1, t.jump, t.block, LastRef(st1)), e.jump, e.block, LastRef(st1))
  }

  lemma JoinIs(order: Order, st: State, t: Branch, e: Branch)
    requires Ready(st) && IsOrder(order) && t.env != []
    ensures HasBlock(st)
    ensures var merged := MergeEnvs(order, Joining(st, t, e), t.env, e.env); JoinBranches(order, st, t, e) == merged.0.(varEnv := merged.1)
  {
    hide MergeEnvs, AddBlock, InsertJump;
  }

  lemma JoiningHidden(f: Stack<Site>, st: State, t: Branch, e: Branch)
    requires Ready(st) && Framed(f, st) && FramedBranch(f, t) && FramedBranch(f, e)
    ensures Ready(Hidden(|f|, st)) && HasBlock(Hidden(|f|, st)) && Framed(f, Joining(st, t, e)) && |f| < |st.varEnv|
    ensures |f| < |t.st.varEnv| && |f| < |e.st.varEnv|
    ensures |f| < |t.env| && t.env[..|f|] == f && HiddenBranch(|f|, t).env == HiddenEnv(|f|, t.env) && HiddenEnv(|f|, t.env) != []
    ensures |f| < |e.env| && e.env[..|f|] == f && HiddenBranch(|f|, e).env == HiddenEnv(|f|, e.env)
    ensures Joining(Hidden(|f|, st), HiddenBranch(|f|, t), HiddenBranch(|f|, e)) == Hidden(|f|, Joining(st, t, e))
  {
    HiddenReady(f, st);
    hide AddBlock, InsertJump, HiddenEnv, Hidden;
    var st1 := AddBlock(st, "if_merge");
    BlockHidden(|f|, st, "if_merge");
    HiddenHasBlock(|f|, st1);
    var merge := LastRef(st1);
    InsertHidden(|f|, st1, t.jump, t.block, merge);
    InsertHidden(|f|, InsertJump(st1, t.jump, t.block, merge), e.jump, e.block, merge);
  }

  lemma JoinAlone(order: Order, f: Stack<Site>, st: State, t: Branch, e: Branch)
    requires Ready(st) && IsOrder(order) && t.env != [] && Framed(f, st) && FramedBranch(f, t) && FramedBranch(f, e)
    ensures IsOrder(HiddenOrder(order, f)) && Ready(Hidden(|f|, st)) && HiddenEnv(|f|, t.env) != []
    ensures Mirrored(f, Some(JoinBranches(order, st, t, e)),
                     Some(JoinBranches(HiddenOrder(order, f), Hidden(|f|, st), HiddenBranch(|f|, t), HiddenBranch(|f|, e))))
  {
    hide *;
    HiddenIsOrder(order, f);
    JoiningHidden(f, st, t, e);
    JoinIs(order, st, t, e);
    JoinIs(HiddenOrder(order, f), Hidden(|f|, st), HiddenBranch(|f|, t), HiddenBranch(|f|, e));
    var st1 := Joining(st, t, e);
    EnvsMerge(order, f, st1, t.env, e.env);
    var merged := MergeEnvs(order, st1, t.env, e.env);
    ReplacedEnv(f, merged.0, st1, merged.1);
  }

  lemma CloseHidden(n: nat, st: State, r: BlockRef, target: BlockRef, prefix: string)
    requires Ready(st) && n < |st.varEnv|
    ensures Ready(Hidden(n, st)) && CloseBlock(st, r, target, prefix).varEnv == st.varEnv
    ensures CloseBlock(Hidden(n, st), r, target, prefix) == Hidden(n, CloseBlock(st, r, target, prefix))
  {
    HiddenHasBlock(n, st);
    ReservedHidden(n, st);
    InsertHidden(n, ReserveInstr(st), st.instrId, r, target);
    BlockHidden(n, InsertJump(ReserveInstr(st), st.instrId, r, target), prefix);
    hide InsertJump, AddBlock, HiddenEnv;
  }

  lemma {:induction false} LoopAlone(order: Order, f: Stack<Site>, st: State, s: Stmt)
    requires Ready(st) && IsOrder(order) && Framed(f, st) && Below(st.varEnv, st.varId) && s.Loop? && VisitStmt(order, st, s).Some?
    requires AllOwn(|f|, StmtUses(NamesOf(st.varEnv), st.globals, s))
    ensures IsOrder(HiddenOrder(order, f)) && Ready(Hidden(|f|, st))
    ensures Mirrored(f, VisitStmt(order, st, s), VisitStmt(HiddenOrder(order, f), Hidden(|f|, st), s))
    decreases s, 1
  {
    HiddenReady(f, st);
    HiddenIsOrder(order, f);
    LoopUses(NamesOf(st.varEnv), st.globals, s);
    hide VisitLoop, Below, Touched, ExprTouches, ListUses, StmtUses, StmtTouches, After, HiddenEnv, HiddenOrder;
    var st0 := VisitStmt(order, st, s.first.value).value;
    StmtAdvances(order, st, s.first.value);
    StmtAlone(order, f, st, s.first.value);
    VisitLoopAlone(order, f, st0, s);
  }

  lemma {:induction false} VisitLoopAlone(order: Order, f: Stack<Site>, st: State, s: Stmt)
    requires Ready(st) && IsOrder(order) && Framed(f, st) && Below(st.varEnv, st.varId)
    requires s.Loop? && s.test.Some? && s.post.Some? && VisitLoop(order, st, s).Some?
    requires AllOwn(|f|, ExprTouches(NamesOf(st.varEnv), st.globals, s.test.value))
    requires AllOwn(|f|, StmtUses(NamesOf(st.varEnv), st.globals, s.post.value))
    requires AllOwn(|f|, ListUses(After(NamesOf(st.varEnv), s.post.value) + [{}], st.globals, s.body))
    ensures IsOrder(HiddenOrder(order, f)) && Ready(Hidden(|f|, st))
    ensures Mirrored(f, VisitLoop(order, st, s), VisitLoop(HiddenOrder(order, f), Hidden(|f|, st), s))
    decreases s, 0
  {
    HiddenReady(f, st);
    HiddenIsOrder(order, f);
    hide EnterBlock, VisitCondition, AddBlock, CloseBlock, AddOperands, VisitInNewEnv, VisitStmt, VisitLoop, Below, Touched, ExprTouches, ListUses, StmtUses, StmtTouches,
         After, HiddenEnv, HiddenOrder;
    LoopFinish(order, st, s);
    var p := LoopParts(order, st, s).value;
    PartsAlone(order, f, st, s);
    LoopFinish(HiddenOrder(order, f), Hidden(|f|, st), s);
    hide LoopParts;
    EndAlone(f, p);
  }

  function HiddenParts(n: nat, p: LoopStates): LoopStates
    requires n <= |p.tested.varEnv| && n <= |p.stepped.varEnv| && n <= |p.entered.varEnv| && n <= |p.left.varEnv|
  {
    LoopStates(p.cond, Hidden(n, p.tested), Hidden(n, p.stepped), Hidden(n, p.entered), Hidden(n, p.left))
  }

  ghost predicate FramedParts(f: Stack<Site>, p: LoopStates) {
    Framed(f, p.tested) && Framed(f, p.stepped) && Framed(f, p.entered) && Framed(f, p.left)
  }

  lemma {:induction false} PartsAlone(order: Order, f: Stack<Site>, st: State, s: Stmt)
    requires Ready(st) && IsOrder(order) && Framed(f, st) && Below(st.varEnv, st.varId)
    requires s.Loop? && s.test.Some? && s.post.Some? && VisitLoop(order, st, s).Some?
    requires AllOwn(|f|, ExprTouches(NamesOf(st.varEnv), st.globals, s.test.value))
    requires AllOwn(|f|, StmtUses(NamesOf(st.varEnv), st.globals, s.post.value))
    requires AllOwn(|f|, ListUses(After(NamesOf(st.varEnv), s.post.value) + [{}], st.globals, s.body))
    ensures IsOrder(HiddenOrder(order, f)) && Ready(Hidden(|f|, st)) && LoopParts(order, st, s).Some?
    ensures var p := LoopParts(order, st, s).value;
      FramedParts(f, p) && LoopParts(HiddenOrder(order, f), Hidden(|f|, st), s) == Some(HiddenParts(|f|, p))
    decreases s, 0, 0
  {
    hide *;
    HiddenReady(f, st);
    HiddenIsOrder(order, f);
    LoopFinish(order, st, s);
    PartsBody(order, st, s);
    PartsStep(order, st, s);
    TestAlone(order, f, st, s);
    var p := LoopParts(order, st, s).value;
    StepPart(order, f, p, s);
    EnteredPart(f, p);
    BodyPart(order, f, p, s);
    PartsAre(HiddenOrder(order, f), Hidden(|f|, st), s, HiddenParts(|f|, p));
  }

  lemma TestAlone(order: Order, f: Stack<Site>, st: State, s: Stmt)
    requires Ready(st) && IsOrder(order) && Framed(f, st) && Below(st.varEnv, st.varId)
    requires s.Loop? && s.test.Some? && s.post.Some? && VisitLoop(order, st, s).Some?
    requires AllOwn(|f|, ExprTouches(NamesOf(st.varEnv), st.globals, s.test.value))
    ensures LoopParts(order, st, s).Some? && Ready(Hidden(|f|, st))
    ensures var p := LoopParts(order, st, s).value;
      && Ready(p.tested) && Framed(f, p.tested) && Below(p.tested.varEnv, p.tested.varId)
      && NamesOf(p.tested.varEnv) == NamesOf(st.varEnv) && p.tested.globals == st.globals
      && p.cond == LastRef(EnterBlock(Hidden(|f|, st), "loop_cond"))
      && VisitCondition(EnterBlock(Hidden(|f|, st), "loop_cond"), s.test.value) == Some(Hidden(|f|, p.tested))
  {
    TestAdvances(order, st, s);
    HiddenReady(f, st);
    TestIs(order, st, s);
    hide VisitLoop, LoopParts, EnterBlock, VisitCondition, Below, Touched, ExprTouches, HiddenEnv, Hidden;
    var st1 := EnterBlock(st, "loop_cond");
    EnterFrame(st, "loop_cond");
    EnterHidden(f, st, "loop_cond");
    HiddenHasBlock(|f|, st1);
    ConditionAlone(f, st1, s.test.value);
  }

  lemma TestIs(order: Order, st: State, s: Stmt)
    requires Ready(st) && IsOrder(order) && s.Loop? && s.test.Some? && s.post.Some? && LoopParts(order, st, s).Some?
    ensures var p := LoopParts(order, st, s).value;
      VisitCondition(EnterBlock(st, "loop_cond"), s.test.value) == Some(p.tested) && p.cond == LastRef(EnterBlock(st, "loop_cond"))
  {
    hide VisitCondition, EnterBlock, AddBlock, CloseBlock, VisitInNewEnv, VisitStmt;
  }

  lemma {:induction false} StepPart(order: Order, f: Stack<Site>, p: LoopStates, s: Stmt)
    requires IsOrder(order) && s.Loop? && s.post.Some? && Ready(p.tested) && Framed(f, p.tested) && Below(p.tested.varEnv, p.tested.varId)
    requires VisitStmt(order, AddBlock(p.tested, "loop_expr"), s.post.value) == Some(p.stepped)
    requires AllOwn(|f|, StmtUses(NamesOf(p.tested.varEnv), p.tested.globals, s.post.value))
    ensures IsOrder(HiddenOrder(order, f)) && |f| < |p.tested.varEnv|
    ensures Ready(p.stepped) && Framed(f, p.stepped) && Below(p.stepped.varEnv, p.stepped.varId) && p.stepped.globals == p.tested.globals
    ensures NamesOf(p.stepped.varEnv) == After(NamesOf(p.tested.varEnv), s.post.value)
    ensures Ready(Hidden(|f|, p.tested)) && HasFunction(Hidden(|f|, p.tested)) && Ready(AddBlock(Hidden(|f|, p.tested), "loop_expr"))
    ensures VisitStmt(HiddenOrder(order, f), AddBlock(Hidden(|f|, p.tested), "loop_expr"), s.post.value) == Some(Hidden(|f|, p.stepped))
    decreases s, 0, 0, 0
  {
    HiddenReady(f, p.tested);
    hide AddBlock, VisitStmt, Below, Touched, StmtUses, StmtTouches, After, HiddenEnv, Hidden, HiddenOrder, AllOwn, IsOrder;
    var st3 := AddBlock(p.tested, "loop_expr");
    BlockFrame(p.tested, "loop_expr");
    BlockHidden(|f|, p.tested, "loop_expr");
    StmtAdvances(order, st3, s.post.value);
    StmtAlone(order, f, st3, s.post.value);
  }

  lemma EnteredPart(f: Stack<Site>, p: LoopStates)
    requires Ready(p.tested) && Framed(f, p.tested) && Ready(p.stepped) && Framed(f, p.stepped) && Below(p.stepped.varEnv, p.stepped.varId)
    requires p.entered == CloseBlock(p.stepped, StepBlock(p), p.cond, "loop_body")
    ensures Ready(p.entered) && Framed(f, p.entered) && Below(p.entered.varEnv, p.entered.varId)
    ensures NamesOf(p.entered.varEnv) == NamesOf(p.stepped.varEnv) && p.entered.globals == p.stepped.globals
    ensures |f| < |p.tested.varEnv| && |f| < |p.stepped.varEnv| && |f| < |p.entered.varEnv|
    ensures Ready(Hidden(|f|, p.stepped)) && Ready(Hidden(|f|, p.entered)) && HasBlock(Hidden(|f|, p.tested))
    ensures Hidden(|f|, p.entered) == CloseBlock(Hidden(|f|, p.stepped), LastRef(AddBlock(Hidden(|f|, p.tested), "loop_expr")), p.cond, "loop_body")
  {
    HiddenReady(f, p.tested);
    HiddenReady(f, p.stepped);
    BlockHidden(|f|, p.tested, "loop_expr");
    HiddenHasBlock(|f|, p.tested);
    HiddenHasBlock(|f|, AddBlock(p.tested, "loop_expr"));
    hide CloseBlock, AddBlock, HiddenEnv, Hidden, Below;
    CloseFrame(p.stepped, StepBlock(p), p.cond, "loop_body");
    CloseHidden(|f|, p.stepped, StepBlock(p), p.cond, "loop_body");
    HiddenReady(f, p.entered);
  }

  lemma {:induction false} BodyPart(order: Order, f: Stack<Site>, p: LoopStates, s: Stmt)
    requires IsOrder(order) && s.Loop? && Ready(p.entered) && Framed(f, p.entered) && Below(p.entered.varEnv, p.entered.varId)
    requires VisitInNewEnv(order, p.entered, s.body).Some? && VisitInNewEnv(order, p.entered, s.body).value.0 == p.left
    requires AllOwn(|f|, ListUses(NamesOf(p.entered.varEnv) + [{}], p.entered.globals, s.body))
    requires Framed(f, p.tested) && Framed(f, p.stepped)
    ensures IsOrder(HiddenOrder(order, f)) && FramedParts(f, p) && Ready(Hidden(|f|, p.entered))
    ensures |f| < |p.tested.varEnv| && |f| < |p.stepped.varEnv| && |f| < |p.entered.varEnv| && |f| < |p.left.varEnv|
    ensures var h := HiddenParts(|f|, p);
      && h.cond == p.cond && h.tested == Hidden(|f|, p.tested) && h.stepped == Hidden(|f|, p.stepped) && h.entered == Hidden(|f|, p.entered)
      && h.left == Hidden(|f|, p.left)
      && (HasBlock(h.tested) ==> StepBlock(h) == LastRef(AddBlock(h.tested, "loop_expr")))
    ensures VisitInNewEnv(HiddenOrder(order, f), Hidden(|f|, p.entered), s.body).Some?
    ensures VisitInNewEnv(HiddenOrder(order, f), Hidden(|f|, p.entered), s.body).value.0 == Hidden(|f|, p.left)
    decreases s, 0, 0, 0
  {
    hide VisitInNewEnv, Below, ListUses, HiddenEnv, Hidden, HiddenOrder, IsOrder, AllOwn, AddBlock;
    HiddenReady(f, p.entered);
    NewEnvAlone(order, f, p.entered, s.body);
  }

  lemma PartsAre(order: Order, st: State, s: Stmt, p: LoopStates)
    requires Ready(st) && IsOrder(order) && s.Loop? && s.test.Some? && s.post.Some?
    requires p.cond == LastRef(EnterBlock(st, "loop_cond")) && VisitCondition(EnterBlock(st, "loop_cond"), s.test.value) == Some(p.tested)
    requires Ready(p.tested) && Ready(AddBlock(p.tested, "loop_expr")) && VisitStmt(order, AddBlock(p.tested, "loop_expr"), s.post.value) == Some(p.stepped)
    requires Ready(p.stepped) && p.entered == CloseBlock(p.stepped, StepBlock(p), p.cond, "loop_body") && Ready(p.entered)
    requires VisitInNewEnv(order, p.entered, s.body).Some? && VisitInNewEnv(order, p.entered, s.body).value.0 == p.left
    ensures LoopParts(order, st, s) == Some(p)
  {
    hide EnterBlock, VisitCondition, AddBlock, CloseBlock, VisitInNewEnv, VisitStmt;
  }

  /** The end of a loop. */
  lemma EndAlone(f: Stack<Site>, p: LoopStates)
    requires Ready(p.tested) && Ready(p.stepped) && Ready(p.entered) && Ready(p.left) && FramedParts(f, p) && |Instructions(p.tested, LastRef(p.tested))| > 0
    ensures var h := HiddenParts(|f|, p);
      && Ready(h.tested) && Ready(h.entered) && Ready(h.left) && |Instructions(h.tested, LastRef(h.tested))| > 0
      && var st6, h6 := CloseBlock(p.left, LastRef(p.entered), StepBlock(p), "loop_merge"), CloseBlock(h.left, LastRef(h.entered), StepBlock(h), "loop_merge");
         Mirrored(f,
           Some(AddOperands(st6, LastRef(p.tested), |Instructions(p.tested, LastRef(p.tested))| - 1, [Label(LastRef(p.entered)), Label(LastRef(st6))])),
           Some(AddOperands(h6, LastRef(h.tested), |Instructions(h.tested, LastRef(h.tested))| - 1, [Label(LastRef(h.entered)), Label(LastRef(h6))])))
  {
    HiddenReady(f, p.left);
    HiddenHasBlock(|f|, p.tested);
    HiddenHasBlock(|f|, p.stepped);
    HiddenHasBlock(|f|, p.entered);
    HiddenLast(|f|, p.tested);
    LastIsBlock(p.tested);
    StepHidden(|f|, p);
    hide CloseBlock, AddOperands, HiddenEnv, StepBlock, Hidden;
    var st6 := CloseBlock(p.left, LastRef(p.entered), StepBlock(p), "loop_merge");
    CloseHidden(|f|, p.left, LastRef(p.entered), StepBlock(p), "loop_merge");
    HiddenHasBlock(|f|, st6);
    OperandsHidden(|f|, st6, LastRef(p.tested), |Instructions(p.tested, LastRef(p.tested))| - 1, [Label(LastRef(p.entered)), Label(LastRef(st6))]);
  }

  lemma StepHidden(n: nat, p: LoopStates)
    requires HasBlock(p.tested) && n <= |p.tested.varEnv| && n <= |p.stepped.varEnv| && n <= |p.entered.varEnv| && n <= |p.left.varEnv|
    ensures HasBlock(HiddenParts(n, p).tested) && StepBlock(HiddenParts(n, p)) == StepBlock(p)
  {
    BlockHidden(n, p.tested, "loop_expr");
    HiddenHasBlock(n, AddBlock(p.tested, "loop_expr"));
    HiddenHasBlock(n, p.tested);
    hide AddBlock, Hidden, HiddenEnv;
  }
}
