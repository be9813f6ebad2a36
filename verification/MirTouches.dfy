/** Which names stand for another variable behind a piece of code. This can be read off the code
    and the names in scope: a name is touched where it is read or assigned in a visited place. */
module MirTouches {
  import opened Ast
  import opened Statements
  import opened Scopes
  import opened Mir
  import opened MirFactory
  import opened MirBuilder
  import opened Words
  import opened MirShape
  import opened MirMeaning
  import opened MirMerge
  import opened MirNames
  import opened MirBlocks
  import opened MirEnds

  /** The names of each scope, outermost first. */
  type Names = seq<set<string>>

  /** A name in a scope. */
  type Place = (nat, string)

  function NamesOf(env: Stack<Site>): (ns: Names)
    ensures |ns| == |env|
  {
    seq(|env|, i requires 0 <= i < |env| => env[i].Keys)
  }

  /** The innermost scope that has the name. */
  function Home(ns: Names, x: string): (h: Option<nat>)
    ensures h.Some? ==> h.value < |ns| && x in ns[h.value] && forall i :: h.value < i < |ns| ==> x !in ns[i]
    ensures h.None? ==> forall i :: 0 <= i < |ns| ==> x !in ns[i]
  {
    if ns == [] then None
    else if x in ns[|ns| - 1] then Some(|ns| - 1)
    else Home(ns[..|ns| - 1], x)
  }

  function Writes(ns: Names, x: string): set<Place> {
    if Home(ns, x).None? then {} else {(Home(ns, x).value, x)}
  }

  /** A global is loaded; any other name that is read stands for a copy afterwards. */
  function Reads(ns: Names, globals: set<string>, x: string): set<Place> {
    if x in globals then {} else Writes(ns, x)
  }

  function ExprTouches(ns: Names, globals: set<string>, e: Expr): set<Place>
    decreases e, 1
  {
    match e
    case Identifier(x) => Reads(ns, globals, x)
    case FunctionCall(_, args) => ArgsTouch(ns, globals, args)
    case Prefix(op, x) => if op == Positive || op == Negative then ExprTouches(ns, globals, x) else {}
    case Infix(_, l, r) => ExprTouches(ns, globals, l) + ExprTouches(ns, globals, r)
    case _ => {}
  }

  function ArgsTouch(ns: Names, globals: set<string>, args: seq<Expr>): set<Place>
    decreases args, 0
  {
    if args == [] then {} else ExprTouches(ns, globals, args[0]) + ArgsTouch(ns, globals, args[1..])
  }

  function OptionTouches(ns: Names, globals: set<string>, e: Option<Expr>): set<Place> {
    if e.None? then {} else ExprTouches(ns, globals, e.value)
  }

  // ---- Statements -------------------------------------------------------------------------

  /** The names in scope behind a statement. */
  function After(ns: Names, s: Stmt): (r: Names)
    requires ns != []
    ensures |r| >= |ns|
    decreases s, 1
  {
    match s
    case Let(x, _) => ns[|ns| - 1 := ns[|ns| - 1] + {x}]
    case Var(x, _) => ns[|ns| - 1 := ns[|ns| - 1] + {x}]
    case If(first, _, onTrue, onFalse) =>
      var ns1 := if first.None? then ns else After(ns, first.value);
      if onFalse.NoElse? then ns1 else AllAfter(ns1 + [{}], onTrue)
    case Loop(first, _, post, body) =>
      var ns1 := if first.None? then ns else After(ns, first.value);
      var ns2 := if post.None? then ns1 else After(ns1, post.value);
      BlockAfter(ns2, body)
    case _ => ns
  }

  function AllAfter(ns: Names, ss: seq<Stmt>): (r: Names)
    requires ns != []
    ensures |r| >= |ns|
    decreases ss, 0
  {
    if ss == [] then ns else AllAfter(After(ns, ss[0]), ss[1..])
  }

  /** Behind a scope of its own. */
  function BlockAfter(ns: Names, ss: seq<Stmt>): (r: Names)
    requires ns != []
    ensures |r| >= |ns|
    decreases ss, 1
  {
    var inside := AllAfter(ns + [{}], ss);
    inside[..|inside| - 1]
  }

  function StmtTouches(ns: Names, globals: set<string>, s: Stmt): set<Place>
    requires ns != []
    decreases s, 1
  {
    match s
    case Let(_, init) => OptionTouches(ns, globals, init)
    case Var(_, init) => OptionTouches(ns, globals, init)
    case Assign(op, target, value) =>
      ExprTouches(ns, globals, value) +
      (if !target.Identifier? then {}
       else (if op == Regular then {} else Reads(ns, globals, target.id)) + (if op == ModAssign then {} else Writes(ns, target.id)))
    case Increment(x) => ExprTouches(ns, globals, x)
    case Decrement(x) => ExprTouches(ns, globals, x)
    case ExprStmt(e) => ExprTouches(ns, globals, e)
    case Return(result) => OptionTouches(ns, globals, result)
    case If(first, cond, onTrue, onFalse) =>
      var ns1 := if first.None? then ns else After(ns, first.value);
      (if first.None? then {} else StmtTouches(ns, globals, first.value)) + ExprTouches(ns1, globals, cond) +
      (if onFalse.NoElse? then {} else ListTouches(ns1 + [{}], globals, onTrue) + ListTouches(ns1 + [{}], globals, onFalse.code))
    case Loop(first, test, post, body) =>
      var ns1 := if first.None? then ns else After(ns, first.value);
      var ns2 := if post.None? then ns1 else After(ns1, post.value);
      (if first.None? then {} else StmtTouches(ns, globals, first.value)) + OptionTouches(ns1, globals, test) +
      (if post.None? then {} else StmtTouches(ns1, globals, post.value)) + ListTouches(ns2 + [{}], globals, body)
    case _ => {}
  }

  function ListTouches(ns: Names, globals: set<string>, ss: seq<Stmt>): set<Place>
    requires ns != []
    decreases ss, 0
  {
    if ss == [] then {} else StmtTouches(ns, globals, ss[0]) + ListTouches(After(ns, ss[0]), globals, ss[1..])
  }

  // ---- What touching means ----------------------------------------------------------------

  /** Names stay where they are. Those that are not in `t` stand for the variable they stood for;
      all others, and all new names, for one that was created from `n` on. */
  ghost predicate Touched(a: Stack<Site>, n: VarId, b: Stack<Site>, t: set<Place>) {
    && |a| <= |b|
    && (forall i: nat, x :: i < |a| && x in a[i] ==> x in b[i])
    && (forall i: nat, x :: i < |b| && x in b[i] ==>
          if i < |a| && x in a[i] && (i, x) !in t then b[i][x] == a[i][x] else b[i][x].v >= n)
  }

  /** No name stands for a variable that is still to be created. */
  ghost predicate Below(env: Stack<Site>, n: VarId) {
    forall i: nat, x :: i < |env| && x in env[i] ==> env[i][x].v < n
  }

  ghost predicate Advances(a: State, b: State, ns: Names, t: set<Place>) {
    && Below(b.varEnv, b.varId) && NamesOf(b.varEnv) == ns && Touched(a.varEnv, a.varId, b.varEnv, t)
    && a.varId <= b.varId && b.globals == a.globals
  }

  lemma TouchedTrans(a: Stack<Site>, n: VarId, b: Stack<Site>, t: set<Place>, m: VarId, c: Stack<Site>, u: set<Place>)
    requires Touched(a, n, b, t) && Touched(b, m, c, u) && n <= m
    ensures Touched(a, n, c, t + u)
  {
    forall i: nat, x | i < |c| && x in c[i]
      ensures if i < |a| && x in a[i] && (i, x) !in t + u then c[i][x] == a[i][x] else c[i][x].v >= n
    {
      if i < |b| && x in b[i] && (i, x) !in u { assert c[i][x] == b[i][x]; }
    }
  }

  lemma AdvancesTrans(a: State, b: State, ns: Names, t: set<Place>, c: State, ns': Names, u: set<Place>)
    requires Advances(a, b, ns, t) && Advances(b, c, ns', u)
    ensures Advances(a, c, ns', t + u)
  {
    TouchedTrans(a.varEnv, a.varId, b.varEnv, t, b.varId, c.varEnv, u);
    hide Touched, Below;
  }

  lemma SameAdvances(a: State, b: State)
    requires Below(a.varEnv, a.varId) && b.varEnv == a.varEnv && b.varId >= a.varId && b.globals == a.globals
    ensures Advances(a, b, NamesOf(a.varEnv), {})
  {}

  /** A step that touches no name, behind one. */
  lemma ThenSame(a: State, b: State, ns: Names, t: set<Place>, c: State)
    requires Advances(a, b, ns, t) && c.varEnv == b.varEnv && c.varId >= b.varId && c.globals == b.globals
    ensures Advances(a, c, ns, t)
  {
    SameAdvances(b, c);
    AdvancesTrans(a, b, ns, t, c, ns, {});
    assert t + {} == t;
    hide Touched, Below;
  }

  lemma {:induction false} HomeFinds(env: Stack<Site>, x: string)
    ensures Find(env, x).Some? <==> Home(NamesOf(env), x).Some?
    ensures Find(env, x).Some? ==> Find(env, x).value == env[Home(NamesOf(env), x).value][x]
  {
    if env != [] {
      var n := |env| - 1;
      assert NamesOf(env)[..n] == NamesOf(env[..n]);
      if x !in env[n] { HomeFinds(env[..n], x); }
    }
  }

  lemma {:induction false} HomeUpdates(env: Stack<Site>, x: string, s: Site)
    requires Find(env, x).Some?
    ensures var h := Home(NamesOf(env), x);
      h.Some? && Scopes.Update(env, x, s) == env[h.value := env[h.value][x := s]]
  {
    var n := |env| - 1;
    assert NamesOf(env)[..n] == NamesOf(env[..n]);
    if x !in env[n] { HomeUpdates(env[..n], x, s); }
  }

  lemma NamesUpdated(env: Stack<Site>, h: nat, x: string, s: Site, n: VarId)
    requires h < |env| && x in env[h] && s.v >= n && Below(env, s.v)
    ensures var r := env[h := env[h][x := s]]; NamesOf(r) == NamesOf(env) && Touched(env, n, r, {(h, x)}) && Below(r, s.v + 1)
  {
    var r := env[h := env[h][x := s]];
    forall i | 0 <= i < |env| ensures r[i].Keys == env[i].Keys {}
  }

  // ---- The factory ------------------------------------------------------------------------

  lemma EmitAdvances(st: State, op: Opcode, os: seq<Operand>, result: Option<VarId>)
    requires HasBlock(st) && Below(st.varEnv, st.varId)
    ensures Advances(st, Emit(st, op, os, result), NamesOf(st.varEnv), {})
  {
    EmitFrame(st, op, os, result);
    SameAdvances(st, Emit(st, op, os, result));
    hide Emit, Below, Touched;
  }

  lemma ResultAdvances(st: State, op: Opcode, os: seq<Operand>)
    requires HasBlock(st) && Below(st.varEnv, st.varId)
    ensures Advances(st, EmitResult(st, op, os), NamesOf(st.varEnv), {}) && EmitResult(st, op, os).varId == st.varId + 1
    ensures EmitResult(st, op, os).varEnv == st.varEnv
  {
    EmitFrame(CreateVar(st), op, os, Some(st.varId));
    SameAdvances(st, EmitResult(st, op, os));
    hide Emit, Below, Touched;
  }

  lemma UpdateAdvances(st: State, x: string, v: VarId)
    requires HasBlock(st) && Below(st.varEnv, st.varId) && AddUpdate(st, x, v).Some?
    ensures Advances(st, AddUpdate(st, x, v).value, NamesOf(st.varEnv), Writes(NamesOf(st.varEnv), x))
  {
    ResultAdvances(st, Opcode.Update, [Local(v)]);
    hide EmitResult;
    var s := Site(LastRef(st), st.varId);
    HomeUpdates(st.varEnv, x, s);
    HomeFinds(st.varEnv, x);
    NamesUpdated(st.varEnv, Home(NamesOf(st.varEnv), x).value, x, s, st.varId);
    hide Below, Touched, Find, Scopes.Update, Home;
  }

  lemma RefAdvances(st: State, x: string)
    requires HasBlock(st) && Below(st.varEnv, st.varId) && AddVariableRef(st, x).Some?
    ensures Advances(st, AddVariableRef(st, x).value, NamesOf(st.varEnv), Reads(NamesOf(st.varEnv), st.globals, x))
  {
    if x in st.globals { ResultAdvances(st, Load, [Global(x)]); } else { UpdateAdvances(st, x, Find(st.varEnv, x).value.v); }
    hide EmitResult, AddUpdate, Below, Touched, Find, Advances;
  }

  lemma BindAdvances(st: State, x: string, v: VarId)
    requires HasBlock(st) && st.varEnv != [] && Below(st.varEnv, st.varId) && VarBind(st, x, v).Some?
    ensures var ns := NamesOf(st.varEnv); Advances(st, VarBind(st, x, v).value, ns[|ns| - 1 := ns[|ns| - 1] + {x}], {})
  {
    ResultAdvances(st, Bind, [Local(v)]);
    hide EmitResult;
    var st' := VarBind(st, x, v).value;
    var n := |st.varEnv| - 1;
    var s := Site(LastRef(st), st.varId);
    assert st'.varEnv == st.varEnv[n := st.varEnv[n][x := s]];
    assert st'.varId == st.varId + 1 && st'.globals == st.globals;
    BoundNames(st.varEnv, x, s);
  }

  lemma BoundNames(env: Stack<Site>, x: string, s: Site)
    requires env != [] && x !in env[|env| - 1] && Below(env, s.v)
    ensures var n := |env| - 1; var r := env[n := env[n][x := s]]; var ns := NamesOf(env);
      NamesOf(r) == ns[n := ns[n] + {x}] && Touched(env, s.v, r, {}) && Below(r, s.v + 1)
  {
    var n := |env| - 1;
    var r, ns := env[n := env[n][x := s]], NamesOf(env);
    forall i | 0 <= i < |env| ensures r[i].Keys == ns[n := ns[n] + {x}][i] {}
  }

  // ---- Expressions ------------------------------------------------------------------------

  /** Lowering an expression touches exactly what can be read off it. */
  lemma {:induction false} ExprAdvances(st: State, e: Expr)
    requires Ready(st) && Below(st.varEnv, st.varId) && VisitExpr(st, e).Some?
    ensures Advances(st, VisitExpr(st, e).value, NamesOf(st.varEnv), ExprTouches(NamesOf(st.varEnv), st.globals, e))
    decreases e, 1
  {
    SameAdvances(st, st);
    hide AddVariableRef, EmitResult, RequireLastVar, VisitLogical, AddCall, VisitLiteral, Below, Touched, Advances, Reads;
    match e
    case Literal(lit) => LiteralAdvances(st, lit);
    case Identifier(x) => RefAdvances(st, x);
    case FunctionCall(f, args) =>
      ArgsAdvance(st, args);
      CallAdvances(st, VisitArgs(st, args).value.0, f, VisitArgs(st, args).value.1, ArgsTouch(NamesOf(st.varEnv), st.globals, args));
    case Prefix(op, x) => if op == Positive || op == Negative { PrefixAdvances(st, op, x); }
    case Infix(op, l, r) => if op == And || op == Or { LogicalAdvances(st, op, l, r); } else { InfixAdvances(st, op, l, r); }
    case _ =>
  }

  lemma LiteralAdvances(st: State, lit: Ast.Literal)
    requires Ready(st) && Below(st.varEnv, st.varId) && VisitLiteral(st, lit).Some?
    ensures Advances(st, VisitLiteral(st, lit).value, NamesOf(st.varEnv), {})
  {
    SameAdvances(st, st);
    hide Below, Touched, Advances, EmitResult;
    match lit
    case IntLit(n) => ResultAdvances(st, ConstInt, [IntConst(Wrap32(n))]);
    case FloatLit(d) => ResultAdvances(st, ConstFloat, [FloatConst(d)]);
    case BoolLit(b) => ResultAdvances(st, ConstBool, [BoolConst(b)]);
    case _ =>
  }

  lemma CallAdvances(st: State, st1: State, f: string, vars: seq<VarId>, t: set<Place>)
    requires HasBlock(st1) && AddCall(st1, f, vars).Some? && Advances(st, st1, NamesOf(st.varEnv), t)
    ensures Advances(st, AddCall(st1, f, vars).value, NamesOf(st.varEnv), t)
  {
    EmitFrame(st1, CallOp, CallOperands(f, vars), None);
    ThenSame(st, st1, NamesOf(st.varEnv), t, AddCall(st1, f, vars).value);
    hide Emit, Advances;
  }

  lemma {:induction false} ArgsAdvance(st: State, args: seq<Expr>)
    requires Ready(st) && Below(st.varEnv, st.varId) && VisitArgs(st, args).Some?
    ensures Advances(st, VisitArgs(st, args).value.0, NamesOf(st.varEnv), ArgsTouch(NamesOf(st.varEnv), st.globals, args))
    decreases args, 1
  {
    hide RequireLastVar, Touched, VisitExpr, ExprTouches;
    if args == [] {
      SameAdvances(st, st);
    } else {
      var ns := NamesOf(st.varEnv);
      var st1 := VisitExpr(st, args[0]).value;
      ExprAdvances(st, args[0]);
      ArgsAdvance(st1, args[1..]);
      AdvancesTrans(st, st1, ns, ExprTouches(ns, st.globals, args[0]), VisitArgs(st1, args[1..]).value.0, ns, ArgsTouch(ns, st.globals, args[1..]));
      hide Advances;
    }
  }

  lemma {:induction false} PrefixAdvances(st: State, op: PrefixOp, x: Expr)
    requires Ready(st) && Below(st.varEnv, st.varId) && VisitExpr(st, Prefix(op, x)).Some? && (op == Positive || op == Negative)
    ensures Advances(st, VisitExpr(st, Prefix(op, x)).value, NamesOf(st.varEnv), ExprTouches(NamesOf(st.varEnv), st.globals, x))
    decreases x, 2
  {
    hide EmitResult, RequireLastVar, Touched, ExprTouches;
    var ns := NamesOf(st.varEnv);
    var st1 := VisitExpr(st, x).value;
    ExprAdvances(st, x);
    if op == Negative {
      var os := [IntConst(0), Local(RequireLastVar(st1).value)];
      ResultAdvances(st1, ISub, os);
      ThenSame(st, st1, ns, ExprTouches(ns, st.globals, x), EmitResult(st1, ISub, os));
    }
  }

  lemma {:induction false} InfixAdvances(st: State, op: InfixOp, l: Expr, r: Expr)
    requires Ready(st) && Below(st.varEnv, st.varId) && VisitExpr(st, Infix(op, l, r)).Some? && op != And && op != Or
    ensures var ns := NamesOf(st.varEnv);
      Advances(st, VisitExpr(st, Infix(op, l, r)).value, ns, ExprTouches(ns, st.globals, l) + ExprTouches(ns, st.globals, r))
    decreases Infix(op, l, r), 0
  {
    hide EmitResult, RequireLastVar, Touched, ExprTouches;
    var ns := NamesOf(st.varEnv);
    var st1 := VisitExpr(st, l).value;
    ExprAdvances(st, l);
    var st2 := VisitExpr(st1, r).value;
    ExprAdvances(st1, r);
    var t, u := ExprTouches(ns, st.globals, l), ExprTouches(ns, st.globals, r);
    AdvancesTrans(st, st1, ns, t, st2, ns, u);
    var os := [Local(RequireLastVar(st1).value), Local(RequireLastVar(st2).value)];
    ResultAdvances(st2, InfixOpcode(op), os);
    ThenSame(st, st2, ns, t + u, EmitResult(st2, InfixOpcode(op), os));
  }

  lemma EnterFrame(st: State, prefix: string)
    requires Ready(st)
    ensures var st' := EnterBlock(st, prefix); st'.varEnv == st.varEnv && st'.varId == st.varId && st'.globals == st.globals
  {}

  lemma {:induction false} LogicalAdvances(st: State, op: InfixOp, l: Expr, r: Expr)
    requires Ready(st) && Below(st.varEnv, st.varId) && VisitLogical(st, op, l, r).Some?
    ensures var ns := NamesOf(st.varEnv);
      Advances(st, VisitLogical(st, op, l, r).value, ns, ExprTouches(ns, st.globals, l) + ExprTouches(ns, st.globals, r))
    decreases Infix(op, l, r), 0
  {
    hide *;
    LogicalParts(st, op, l, r);
    var ns := NamesOf(st.varEnv);
    LeftReady(st, op, l);
    LeftAdvances(st, op, l);
    var t := VisitLeftTerm(st, op, l).value;
    var left, right := ExprTouches(ns, st.globals, l), ExprTouches(ns, st.globals, r);
    RightAdvances(st, t.st, ns, left, LogicalName(op) + "_right_term", r);
    RightFinishes(t.st, op, t, LogicalName(op) + "_right_term", LogicalName(op) + "_merge", r);
    var st2 := VisitExpr(AddBlock(t.st, LogicalName(op) + "_right_term"), r).value;
    ThenSame(st, st2, ns, left + right, VisitLogical(st, op, l, r).value);
  }

  lemma LeftReady(st: State, op: InfixOp, l: Expr)
    requires Ready(st) && VisitLeftTerm(st, op, l).Some?
    ensures Ready(VisitLeftTerm(st, op, l).value.st) && HasFunction(VisitLeftTerm(st, op, l).value.st)
  {
    hide VisitLeftTerm;
  }

  /** Completing the operator leaves the environment as it is behind the right term. */
  lemma RightFinishes(st: State, op: InfixOp, t: LeftTerm, right: string, merge: string, r: Expr)
    requires Ready(st) && VisitExpr(AddBlock(st, right), r).Some? && RequireLastVar(VisitExpr(AddBlock(st, right), r).value).Some?
    ensures Ready(AddBlock(st, right))
    ensures var st1 := AddBlock(st, right); var st2 := VisitExpr(st1, r).value; var st3 := AddBlock(ReserveInstr(st2), merge);
      var st' := FinishLogical(st3, op, t, LastRef(st1), RequireLastVar(st2).value, st2.instrId);
      st'.varEnv == st2.varEnv && st'.varId >= st2.varId && st'.globals == st2.globals
  {
    hide RequireLastVar, VisitExpr, AddBlock, FinishLogical;
    var st1 := AddBlock(st, right);
    var st2 := VisitExpr(st1, r).value;
    BlockFrame(ReserveInstr(st2), merge);
    FinishFrameEnv(AddBlock(ReserveInstr(st2), merge), op, t, LastRef(st1), RequireLastVar(st2).value, st2.instrId);
  }

  lemma {:induction false} RightAdvances(st: State, st1: State, ns: Names, t: set<Place>, prefix: string, r: Expr)
    requires Ready(st1) && Advances(st, st1, ns, t) && VisitExpr(AddBlock(st1, prefix), r).Some?
    ensures Advances(st, VisitExpr(AddBlock(st1, prefix), r).value, ns, t + ExprTouches(ns, st.globals, r))
    decreases r, 2
  {
    hide Touched, Below, VisitExpr, AddBlock, ExprTouches;
    var st2 := AddBlock(st1, prefix);
    BlockFrame(st1, prefix);
    ExprAdvances(st2, r);
    ThenSame(st, st1, ns, t, st2);
    AdvancesTrans(st, st2, ns, t, VisitExpr(st2, r).value, ns, ExprTouches(ns, st.globals, r));
  }

  lemma BlockFrame(st: State, prefix: string)
    requires HasFunction(st)
    ensures var st' := AddBlock(st, prefix); st'.varEnv == st.varEnv && st'.varId == st.varId && st'.globals == st.globals
  {}

  lemma {:induction false} LeftAdvances(st: State, op: InfixOp, l: Expr)
    requires Ready(st) && Below(st.varEnv, st.varId) && VisitLeftTerm(st, op, l).Some?
    ensures Advances(st, VisitLeftTerm(st, op, l).value.st, NamesOf(st.varEnv), ExprTouches(NamesOf(st.varEnv), st.globals, l))
    decreases l, 2
  {
    hide RequireLastVar, Touched, VisitExpr, EnterBlock, EmitResult, ExprTouches, LogicalName;
    var ns := NamesOf(st.varEnv);
    var st1 := EnterBlock(st, LogicalName(op) + "_left_term");
    EnterFrame(st, LogicalName(op) + "_left_term");
    SameAdvances(st, st1);
    var st2 := VisitExpr(st1, l).value;
    ExprAdvances(st1, l);
    AdvancesTrans(st, st1, ns, {}, st2, ns, ExprTouches(ns, st.globals, l));
    assert {} + ExprTouches(ns, st.globals, l) == ExprTouches(ns, st.globals, l);
    ResultAdvances(st2, CondJump, []);
    ThenSame(st, st2, ns, ExprTouches(ns, st.globals, l), VisitLeftTerm(st, op, l).value.st);
  }

  lemma FinishFrameEnv(st: State, op: InfixOp, t: LeftTerm, right: BlockRef, rv: VarId, rightJump: nat)
    requires Ready(st)
    ensures var st' := FinishLogical(st, op, t, right, rv, rightJump); st'.varEnv == st.varEnv && st'.varId >= st.varId && st'.globals == st.globals
  {
    hide AddOperands, InsertJump, EmitResult;
    var merge := LastRef(st);
    var labels := if op == And then [Local(t.leftVar), Label(right), Label(merge)] else [Local(t.leftVar), Label(merge), Label(right)];
    var st1 := AddOperands(st, t.branch, t.place, labels);
    OperandsFrameEnv(st, t.branch, t.place, labels);
    var st2 := EmitResult(st1, ConstBool, [BoolConst(op == Or)]);
    ResultFrame(st1, ConstBool, [BoolConst(op == Or)]);
    var choice := if op == And then [Local(t.branchVar), Local(rv), Local(st1.varId)] else [Local(t.branchVar), Local(st1.varId), Local(rv)];
    var st3 := EmitResult(st2, Phi, choice);
    ResultFrame(st2, Phi, choice);
    InsertFrame(st3, t.leftJump, t.left, merge);
    InsertFrame(InsertJump(st3, t.leftJump, t.left, merge), rightJump, right, merge);
  }

  lemma ResultFrame(st: State, op: Opcode, os: seq<Operand>)
    requires HasBlock(st)
    ensures var st' := EmitResult(st, op, os); st'.varEnv == st.varEnv && st'.varId == st.varId + 1 && st'.globals == st.globals
  {}

  lemma InsertFrame(st: State, id: nat, r: BlockRef, target: BlockRef)
    ensures var st' := InsertJump(st, id, r, target); st'.varEnv == st.varEnv && st'.varId == st.varId && st'.globals == st.globals
  {}

  lemma OperandsFrameEnv(st: State, r: BlockRef, i: nat, os: seq<Operand>)
    ensures var st' := AddOperands(st, r, i, os); st'.varEnv == st.varEnv && st'.varId == st.varId && st'.globals == st.globals
  {}

  // ---- Environments -----------------------------------------------------------------------

  lemma PushAdvances(st: State)
    requires Below(st.varEnv, st.varId)
    ensures Advances(st, PushEnv(st), NamesOf(st.varEnv) + [{}], {})
  {
    var empty: Layer<Site> := map[];
    assert empty.Keys == {};
    assert NamesOf(st.varEnv + [empty]) == NamesOf(st.varEnv) + [{}];
  }

  lemma PopAdvances(st: State, st1: State, ns: Names, t: set<Place>)
    requires Advances(st, st1, ns, t) && |st1.varEnv| > |st.varEnv| && PopEnv(st1).Some?
    ensures Advances(st, PopEnv(st1).value, ns[..|ns| - 1], t)
  {}

  /** A merged name keeps its variable, or stands for a new selection; in a layer whose names are all
      in the matching layer, it keeps it exactly when the two environments agree. */
  ghost predicate MergedSite(st: State, st': State, e1: Stack<Site>, e2: Stack<Site>, env: Stack<Site>, i: nat, x: string)
    requires i < |e1| && x in e1[i]
  {
    && i < |env| && x in env[i]
    && (env[i][x] == e1[i][x] || st.varId <= env[i][x].v < st'.varId)
    && (i < |e2| && e1[i].Keys <= e2[i].Keys ==>
          if e1[i][x].v == e2[i][x].v then env[i][x] == e1[i][x] else env[i][x].v >= st.varId)
  }

  lemma MergeTouches(order: Order, st: State, e1: Stack<Site>, e2: Stack<Site>)
    requires HasBlock(st) && IsOrder(order)
    ensures var r := MergeEnvs(order, st, e1, e2);
      && r.0.varId >= st.varId && NamesOf(r.1) == NamesOf(e1)
      && forall i: nat, x :: i < |e1| && x in e1[i] ==> MergedSite(st, r.0, e1, e2, r.1, i, x)
  {
    hide MergeEnvs, CutAll, Differing, Straight, Code, Selected, MergedSite;
    var d := MergeEnvsSpec(order, st, e1, e2);
    var cuts, r := CutAll(order, st, e1, e2), MergeEnvs(order, st, e1, e2);
    assert NamesOf(r.1) == NamesOf(e1);
    forall i: nat, x | i < |e1| && x in e1[i] ensures MergedSite(st, r.0, e1, e2, r.1, i, x) {
      if i < |e2| && e1[i].Keys <= e2[i].Keys { WholeLayer(order, st, e1, e2, i); }
      SiteMerges(st, e1, cuts, e2, d, r, i, x);
    }
  }

  lemma SiteMerges(st: State, e1: Stack<Site>, cuts: Stack<Site>, e2: Stack<Site>, d: seq<Place>, r: (State, Stack<Site>), i: nat, x: string)
    requires Merged(st, e1, cuts, d, r) && i < |e1| && x in e1[i]
    requires i < |e2| && e1[i].Keys <= e2[i].Keys ==> i < |cuts| && x in cuts[i] && cuts[i][x] == e2[i][x]
    ensures MergedSite(st, r.0, e1, e2, r.1, i, x)
  {
    hide Straight, Code;
    assert r.1[i].Keys == e1[i].Keys;
    if Differs(e1, cuts, (i, x)) {
      var j: nat :| j < |d| && d[j] == (i, x);
      assert Selected(st, e1, cuts, r, d[j], j);
    }
  }

  // ---- Statements -------------------------------------------------------------------------

  lemma BindingAdvances(st: State, x: string, init: Option<Expr>)
    requires Ready(st) && Below(st.varEnv, st.varId) && VisitBinding(st, x, init).Some?
    ensures var ns := NamesOf(st.varEnv);
      Advances(st, VisitBinding(st, x, init).value, ns[|ns| - 1 := ns[|ns| - 1] + {x}], OptionTouches(ns, st.globals, init))
  {
    hide VisitExpr, RequireLastVar, VarBind, Touched, ExprTouches;
    var ns, t := NamesOf(st.varEnv), ExprTouches(NamesOf(st.varEnv), st.globals, init.value);
    var st1 := VisitExpr(st, init.value).value;
    ExprAdvances(st, init.value);
    BindAdvances(st1, x, RequireLastVar(st1).value);
    AdvancesTrans(st, st1, ns, t, VisitBinding(st, x, init).value, ns[|ns| - 1 := ns[|ns| - 1] + {x}], {});
    assert t + {} == t;
  }

  lemma AssignmentAdvances(st: State, op: AssignOp, target: Expr, value: Expr)
    requires Ready(st) && Below(st.varEnv, st.varId) && VisitAssignment(st, op, target, value).Some?
    ensures target.Identifier?
    ensures var ns := NamesOf(st.varEnv);
      Advances(st, VisitAssignment(st, op, target, value).value, ns, StmtTouches(ns, st.globals, Assign(op, target, value)))
  {
    hide VisitExpr, RequireLastVar, AddVariableRef, AddUpdate, Emit, Touched, ExprTouches, Reads, Writes, Below;
    var ns, x := NamesOf(st.varEnv), target.id;
    var t := ExprTouches(ns, st.globals, value);
    var st0, st' := CreateVar(st), VisitAssignment(st, op, target, value).value;
    SameAdvances(st, st0);
    var st1 := VisitExpr(st0, value).value;
    ExprAdvances(st0, value);
    AdvancesTrans(st, st0, ns, {}, st1, ns, t);
    assert {} + t == t;
    var rv := RequireLastVar(st1).value;
    if op == Regular {
      UpdateAdvances(st1, x, rv);
      AdvancesTrans(st, st1, ns, t, st', ns, Writes(ns, x));
      assert {} + Writes(ns, x) == Writes(ns, x);
    } else {
      ComputedAdvances(st1, op, x, rv, st.varId);
      AdvancesTrans(st, st1, ns, t, st', ns, Reads(ns, st.globals, x) + (if op == ModAssign then {} else Writes(ns, x)));
    }
  }

  /** The part of a compound assignment behind its right side. */
  lemma ComputedAdvances(st1: State, op: AssignOp, x: string, rv: VarId, result: VarId)
    requires HasBlock(st1) && Below(st1.varEnv, st1.varId) && op != Regular && AddVariableRef(st1, x).Some?
    requires RequireLastVar(AddVariableRef(st1, x).value).Some?
    requires var st2 := AddVariableRef(st1, x).value;
      var st3 := Emit(st2, AssignOpcode(op), [Local(RequireLastVar(st2).value), Local(rv)], Some(result));
      op == ModAssign || AddUpdate(st3, x, result).Some?
    ensures var st2 := AddVariableRef(st1, x).value; var ns := NamesOf(st1.varEnv);
      var st3 := Emit(st2, AssignOpcode(op), [Local(RequireLastVar(st2).value), Local(rv)], Some(result));
      var st' := if op == ModAssign then st3 else AddUpdate(st3, x, result).value;
      Advances(st1, st', ns, Reads(ns, st1.globals, x) + (if op == ModAssign then {} else Writes(ns, x)))
  {
    hide RequireLastVar, AddVariableRef, AddUpdate, Emit, Touched, Reads, Writes;
    var ns := NamesOf(st1.varEnv);
    var st2 := AddVariableRef(st1, x).value;
    RefAdvances(st1, x);
    var os := [Local(RequireLastVar(st2).value), Local(rv)];
    var st3 := Emit(st2, AssignOpcode(op), os, Some(result));
    EmitFrame(st2, AssignOpcode(op), os, Some(result));
    ThenSame(st1, st2, ns, Reads(ns, st1.globals, x), st3);
    if op == ModAssign {
      assert Reads(ns, st1.globals, x) + {} == Reads(ns, st1.globals, x);
    } else {
      UpdateAdvances(st3, x, result);
      AdvancesTrans(st1, st3, ns, Reads(ns, st1.globals, x), AddUpdate(st3, x, result).value, ns, Writes(ns, x));
    }
  }

  lemma StepAdvances(st: State, op: Opcode, x: Expr)
    requires Ready(st) && Below(st.varEnv, st.varId) && VisitStep(st, op, x).Some?
    ensures Advances(st, VisitStep(st, op, x).value, NamesOf(st.varEnv), ExprTouches(NamesOf(st.varEnv), st.globals, x))
  {
    hide VisitExpr, RequireLastVar, Emit, Touched, ExprTouches;
    var st1 := VisitExpr(st, x).value;
    ExprAdvances(st, x);
    EmitFrame(st1, op, [Local(RequireLastVar(st1).value), IntConst(1)], None);
    ThenSame(st, st1, NamesOf(st.varEnv), ExprTouches(NamesOf(st.varEnv), st.globals, x), VisitStep(st, op, x).value);
  }

  lemma ConditionAdvances(st: State, cond: Expr)
    requires Ready(st) && Below(st.varEnv, st.varId) && VisitCondition(st, cond).Some?
    ensures Advances(st, VisitCondition(st, cond).value, NamesOf(st.varEnv), ExprTouches(NamesOf(st.varEnv), st.globals, cond))
  {
    hide VisitExpr, RequireLastVar, EmitResult, Touched, ExprTouches;
    var st1 := VisitExpr(st, cond).value;
    ExprAdvances(st, cond);
    ResultAdvances(st1, CondJump, [Local(RequireLastVar(st1).value)]);
    ThenSame(st, st1, NamesOf(st.varEnv), ExprTouches(NamesOf(st.varEnv), st.globals, cond), VisitCondition(st, cond).value);
  }

  lemma ReturnAdvances(order: Order, st: State, result: Option<Expr>)
    requires Ready(st) && IsOrder(order) && Below(st.varEnv, st.varId) && VisitStmt(order, st, Return(result)).Some?
    ensures Advances(st, VisitStmt(order, st, Return(result)).value, NamesOf(st.varEnv), OptionTouches(NamesOf(st.varEnv), st.globals, result))
  {
    hide VisitExpr, RequireLastVar, Emit, Touched, ExprTouches;
    if result.None? {
      EmitAdvances(st, ReturnOp, [], None);
    } else {
      var st1 := VisitExpr(st, result.value).value;
      ExprAdvances(st, result.value);
      EmitFrame(st1, ReturnOp, [Local(RequireLastVar(st1).value)], None);
      ThenSame(st, st1, NamesOf(st.varEnv), ExprTouches(NamesOf(st.varEnv), st.globals, result.value), VisitStmt(order, st, Return(result)).value);
    }
  }

  /** Lowering a statement touches exactly what can be read off it and the names in scope. */
  lemma {:induction false} StmtAdvances(order: Order, st: State, s: Stmt)
    requires Ready(st) && IsOrder(order) && Below(st.varEnv, st.varId) && VisitStmt(order, st, s).Some?
    ensures var ns := NamesOf(st.varEnv); Advances(st, VisitStmt(order, st, s).value, After(ns, s), StmtTouches(ns, st.globals, s))
    decreases s, 2
  {
    SameAdvances(st, st);
    hide Advances, Below, Touched, VisitExpr, VisitBinding, VisitAssignment, VisitStep, VisitCondition, VisitBranches, VisitLoop, Emit, ExprTouches;
    match s
    case Let(x, init) => BindingAdvances(st, x, init);
    case Var(x, init) => BindingAdvances(st, x, init);
    case Assign(op, target, value) => AssignmentAdvances(st, op, target, value);
    case Increment(x) => StepAdvances(st, IAdd, x);
    case Decrement(x) => StepAdvances(st, ISub, x);
    case ExprStmt(e) => ExprAdvances(st, e);
    case Return(result) => ReturnAdvances(order, st, result);
    case If(_, _, _, _) => IfAdvances(order, st, s);
    case Loop(_, _, _, _) => LoopAdvances(order, st, s);
    case Break => EmitAdvances(st, BreakOp, [], None);
    case Continue => EmitAdvances(st, ContinueOp, [], None);
    case Defer(_) =>
  }

  lemma {:induction false} ListAdvances(order: Order, st: State, ss: seq<Stmt>)
    requires Ready(st) && IsOrder(order) && Below(st.varEnv, st.varId) && VisitList(order, st, ss).Some?
    ensures var ns := NamesOf(st.varEnv); Advances(st, VisitList(order, st, ss).value, AllAfter(ns, ss), ListTouches(ns, st.globals, ss))
    decreases ss, 0
  {
    hide VisitStmt, Touched, StmtTouches, After;
    if ss == [] {
      SameAdvances(st, st);
    } else {
      var ns := NamesOf(st.varEnv);
      var st1 := VisitStmt(order, st, ss[0]).value;
      StmtAdvances(order, st, ss[0]);
      var ns1 := After(ns, ss[0]);
      ListAdvances(order, st1, ss[1..]);
      AdvancesTrans(st, st1, ns1, StmtTouches(ns, st.globals, ss[0]), VisitList(order, st1, ss[1..]).value, AllAfter(ns1, ss[1..]), ListTouches(ns1, st.globals, ss[1..]));
      hide Advances;
    }
  }

  lemma {:induction false} NewEnvAdvances(order: Order, st: State, ss: seq<Stmt>)
    requires Ready(st) && IsOrder(order) && Below(st.varEnv, st.varId) && VisitInNewEnv(order, st, ss).Some?
    ensures var ns := NamesOf(st.varEnv); var r := VisitInNewEnv(order, st, ss).value; var t := ListTouches(ns + [{}], st.globals, ss);
      && Advances(st, r.0, BlockAfter(ns, ss), t)
      && Touched(st.varEnv, st.varId, r.1, t) && NamesOf(r.1) == AllAfter(ns + [{}], ss) && Below(r.1, r.0.varId)
    decreases ss, 1
  {
    hide VisitList, Touched, ListTouches, AllAfter;
    var ns := NamesOf(st.varEnv);
    var t := ListTouches(ns + [{}], st.globals, ss);
    PushAdvances(st);
    var st1 := VisitList(order, PushEnv(st), ss).value;
    ListAdvances(order, PushEnv(st), ss);
    AdvancesTrans(st, PushEnv(st), ns + [{}], {}, st1, AllAfter(ns + [{}], ss), t);
    assert {} + t == t;
    PopAdvances(st, st1, AllAfter(ns + [{}], ss), t);
  }

  /** The environment at the end of a branch. */
  ghost predicate BranchTouched(st: State, b: Branch, ns: Names, t: set<Place>) {
    && Touched(st.varEnv, st.varId, b.env, t) && NamesOf(b.env) == ns && Below(b.env, b.st.varId)
    && b.st.varId >= st.varId && b.st.globals == st.globals
  }

  lemma {:induction false} BranchTouches(order: Order, st: State, prefix: string, branch: BlockRef, place: nat, code: seq<Stmt>)
    requires Ready(st) && IsOrder(order) && Below(st.varEnv, st.varId) && VisitBranch(order, st, prefix, branch, place, code).Some?
    ensures var ns := NamesOf(st.varEnv);
      BranchTouched(st, VisitBranch(order, st, prefix, branch, place, code).value, AllAfter(ns + [{}], code), ListTouches(ns + [{}], st.globals, code))
    decreases code, 2
  {
    hide VisitInNewEnv, AddBlock, AddOperands, Touched, ListTouches, AllAfter, Below;
    var st1 := AddBlock(st, prefix);
    BlockFrame(st, prefix);
    var st2 := AddOperands(st1, branch, place, [Label(LastRef(st1))]);
    OperandsFrameEnv(st1, branch, place, [Label(LastRef(st1))]);
    NewEnvAdvances(order, st2, code);
  }

  lemma {:induction false} IfAdvances(order: Order, st: State, s: Stmt)
    requires Ready(st) && IsOrder(order) && Below(st.varEnv, st.varId) && s.If? && VisitStmt(order, st, s).Some?
    ensures var ns := NamesOf(st.varEnv); Advances(st, VisitStmt(order, st, s).value, After(ns, s), StmtTouches(ns, st.globals, s))
    decreases s, 1
  {
    hide VisitCondition, VisitBranches, Touched, ExprTouches, ListTouches, AllAfter;
    var ns := NamesOf(st.varEnv);
    SameAdvances(st, st);
    var st1, ns1, t := st, ns, {};
    if s.first.Some? {
      st1 := VisitStmt(order, st, s.first.value).value;
      StmtAdvances(order, st, s.first.value);
      ns1, t := After(ns, s.first.value), StmtTouches(ns, st.globals, s.first.value);
    }
    hide After, StmtTouches;
    var st2 := VisitCondition(st1, s.cond).value;
    ConditionAdvances(st1, s.cond);
    var u := ExprTouches(ns1, st.globals, s.cond);
    AdvancesTrans(st, st1, ns1, t, st2, ns1, u);
    BranchesAdvance(order, st2, s);
    var ns2 := if s.onFalse.NoElse? then ns1 else AllAfter(ns1 + [{}], s.onTrue);
    var v := if s.onFalse.NoElse? then {} else ListTouches(ns1 + [{}], st.globals, s.onTrue) + ListTouches(ns1 + [{}], st.globals, s.onFalse.code);
    AdvancesTrans(st, st2, ns1, t + u, VisitBranches(order, st2, s).value, ns2, v);
    IfReads(ns, st.globals, s);
  }

  lemma IfReads(ns: Names, globals: set<string>, s: Stmt)
    requires ns != [] && s.If?
    ensures var ns1 := if s.first.None? then ns else After(ns, s.first.value);
      && After(ns, s) == (if s.onFalse.NoElse? then ns1 else AllAfter(ns1 + [{}], s.onTrue))
      && StmtTouches(ns, globals, s) ==
         (if s.first.None? then {} else StmtTouches(ns, globals, s.first.value)) + ExprTouches(ns1, globals, s.cond) +
         (if s.onFalse.NoElse? then {} else ListTouches(ns1 + [{}], globals, s.onTrue) + ListTouches(ns1 + [{}], globals, s.onFalse.code))
  {
    hide ExprTouches, ListTouches, AllAfter;
  }

  lemma {:induction false} BranchesAdvance(order: Order, st: State, s: Stmt)
    requires Ready(st) && IsOrder(order) && Below(st.varEnv, st.varId) && s.If? && LastBlock(st).instructions != []
    requires VisitBranches(order, st, s).Some?
    ensures var ns := NamesOf(st.varEnv);
      Advances(st, VisitBranches(order, st, s).value, if s.onFalse.NoElse? then ns else AllAfter(ns + [{}], s.onTrue),
        if s.onFalse.NoElse? then {} else ListTouches(ns + [{}], st.globals, s.onTrue) + ListTouches(ns + [{}], st.globals, s.onFalse.code))
    decreases s, 0
  {
    hide VisitBranch, MergeEnvs, AddBlock, InsertJump, JoinBranches, Touched, Below, ListTouches, AllAfter, SameNames;
    var ns := NamesOf(st.varEnv);
    var branch := LastRef(st);
    var place := |Instructions(st, branch)| - 1;
    var t := VisitBranch(order, st, "if_then", branch, place, s.onTrue).value;
    BranchTouches(order, st, "if_then", branch, place, s.onTrue);
    var st1 := t.st.(varEnv := st.varEnv);
    if s.onFalse.NoElse? {
      NoElseFrame(order, st, st1, t);
      SameAdvances(st, VisitBranches(order, st, s).value);
    } else {
      BelowMore(st.varEnv, st.varId, st1.varId);
      var e := VisitBranch(order, st1, "if_alt", branch, place, s.onFalse.code).value;
      BranchTouches(order, st1, "if_alt", branch, place, s.onFalse.code);
      BranchNames(order, st, "if_then", branch, place, s.onTrue);
      BranchNames(order, st1, "if_alt", branch, place, s.onFalse.code);
      JoinAdvances(order, st, t, e, AllAfter(ns + [{}], s.onTrue), ListTouches(ns + [{}], st.globals, s.onTrue),
        AllAfter(ns + [{}], s.onFalse.code), ListTouches(ns + [{}], st.globals, s.onFalse.code));
    }
  }

  lemma BelowMore(env: Stack<Site>, n: VarId, m: VarId)
    requires Below(env, n) && n <= m
    ensures Below(env, m)
  {}

  lemma NoElseFrame(order: Order, st: State, st1: State, t: Branch)
    requires Ready(st) && IsOrder(order) && HasBlock(st1) && st1.varId >= st.varId && st1.globals == st.globals
    ensures var st2 := AddBlock(st1, "if_merge"); var st3 := InsertJump(st2, t.jump, t.block, LastRef(st2));
      HasBlock(st3) && (
      var st' := MergeEnvs(order, st3, st.varEnv, t.env).0.(varEnv := st.varEnv);
      st'.varEnv == st.varEnv && st'.varId >= st.varId && st'.globals == st.globals)
  {
    hide MergeEnvs, AddBlock, InsertJump, MergedSite;
    var st2 := AddBlock(st1, "if_merge");
    BlockFrame(st1, "if_merge");
    InsertFrame(st2, t.jump, t.block, LastRef(st2));
    MergeTouches(order, InsertJump(st2, t.jump, t.block, LastRef(st2)), st.varEnv, t.env);
  }

  lemma JoinAdvances(order: Order, st: State, t: Branch, e: Branch, ns: Names, u: set<Place>, ns': Names, v: set<Place>)
    requires Ready(st) && IsOrder(order) && Below(st.varEnv, st.varId) && t.env != [] && Ready(e.st)
    requires BranchTouched(st, t, ns, u) && BranchTouched(t.st.(varEnv := st.varEnv), e, ns', v)
    requires |t.env| > |st.varEnv| && |e.env| > |st.varEnv|
    requires SameNames(st.varEnv, t.env[..|st.varEnv|]) && SameNames(st.varEnv, e.env[..|st.varEnv|])
    ensures Advances(st, JoinBranches(order, e.st, t, e), ns, u + v)
  {
    hide MergeEnvs, AddBlock, InsertJump, MergedSite;
    var st1 := AddBlock(e.st, "if_merge");
    BlockFrame(e.st, "if_merge");
    var merge := LastRef(st1);
    InsertFrame(st1, t.jump, t.block, merge);
    var st2 := InsertJump(InsertJump(st1, t.jump, t.block, merge), e.jump, e.block, merge);
    InsertFrame(InsertJump(st1, t.jump, t.block, merge), e.jump, e.block, merge);
    MergeTouches(order, st2, t.env, e.env);
    var r := MergeEnvs(order, st2, t.env, e.env);
    SameLayers(st.varEnv, t.env, e.env);
    JoinTouched(st, t, e, u, v, st2, r.0, r.1);
  }

  lemma SameLayers(env: Stack<Site>, e1: Stack<Site>, e2: Stack<Site>)
    requires |e1| > |env| && |e2| > |env| && SameNames(env, e1[..|env|]) && SameNames(env, e2[..|env|])
    ensures forall i :: 0 <= i < |env| ==> e1[i].Keys == env[i].Keys && e2[i].Keys == env[i].Keys
  {
    forall i | 0 <= i < |env| ensures e1[i].Keys == env[i].Keys && e2[i].Keys == env[i].Keys {
      assert e1[..|env|][i] == e1[i] && e2[..|env|][i] == e2[i];
    }
  }

  /** A name is touched by the whole exactly when it is touched in a branch. */
  lemma JoinTouched(st: State, t: Branch, e: Branch, u: set<Place>, v: set<Place>, st2: State, st3: State, env: Stack<Site>)
    requires Below(st.varEnv, st.varId) && Touched(st.varEnv, st.varId, t.env, u) && Touched(st.varEnv, t.st.varId, e.env, v)
    requires Below(t.env, t.st.varId) && st.varId <= t.st.varId <= e.st.varId <= st2.varId <= st3.varId
    requires |env| == |t.env| && NamesOf(env) == NamesOf(t.env) && |t.env| > |st.varEnv| && |e.env| > |st.varEnv|
    requires forall i :: 0 <= i < |st.varEnv| ==> t.env[i].Keys == st.varEnv[i].Keys && e.env[i].Keys == st.varEnv[i].Keys
    requires forall i: nat, x :: i < |t.env| && x in t.env[i] ==> MergedSite(st2, st3, t.env, e.env, env, i, x)
    ensures Touched(st.varEnv, st.varId, env, u + v) && Below(env, st3.varId)
  {
    forall i | 0 <= i < |env| ensures env[i].Keys == t.env[i].Keys { assert NamesOf(env)[i] == NamesOf(t.env)[i]; }
    forall i: nat, x | i < |env| && x in env[i]
      ensures env[i][x].v < st3.varId
      ensures if i < |st.varEnv| && x in st.varEnv[i] && (i, x) !in u + v then env[i][x] == st.varEnv[i][x] else env[i][x].v >= st.varId
    {
      assert x in t.env[i] && MergedSite(st2, st3, t.env, e.env, env, i, x);
      if i < |st.varEnv| { assert x in st.varEnv[i] && x in e.env[i]; }
    }
  }

  lemma CloseFrame(st: State, r: BlockRef, target: BlockRef, prefix: string)
    requires Ready(st)
    ensures var st' := CloseBlock(st, r, target, prefix); st'.varEnv == st.varEnv && st'.varId == st.varId && st'.globals == st.globals
  {
    InsertFrame(ReserveInstr(st), st.instrId, r, target);
    BlockFrame(InsertJump(ReserveInstr(st), st.instrId, r, target), prefix);
    hide InsertJump, AddBlock;
  }

  lemma {:induction false} LoopAdvances(order: Order, st: State, s: Stmt)
    requires Ready(st) && IsOrder(order) && Below(st.varEnv, st.varId) && s.Loop? && VisitStmt(order, st, s).Some?
    ensures var ns := NamesOf(st.varEnv); Advances(st, VisitStmt(order, st, s).value, After(ns, s), StmtTouches(ns, st.globals, s))
    decreases s, 1
  {
    hide VisitLoop, Touched, ExprTouches, ListTouches, BlockAfter;
    var ns := NamesOf(st.varEnv);
    var st0 := VisitStmt(order, st, s.first.value).value;
    StmtAdvances(order, st, s.first.value);
    var ns1, t := After(ns, s.first.value), StmtTouches(ns, st.globals, s.first.value);
    TestAdvances(order, st0, s);
    LoopInside(order, st0, s);
    hide After, StmtTouches, LoopParts;
    var p := LoopParts(order, st0, s).value;
    var u, v := ExprTouches(ns1, st.globals, s.test.value), BodyTouches(ns1, st.globals, s.post.value, s.body);
    AdvancesTrans(st, st0, ns1, t, p.tested, ns1, u);
    AdvancesTrans(st, p.tested, ns1, t + u, VisitLoop(order, st0, s).value, BodyAfter(ns1, s.post.value, s.body), v);
    LoopReads(ns, st.globals, s);
  }

  /** The names behind step and body, in the order in which they are lowered. */
  function BodyAfter(ns: Names, post: Stmt, body: seq<Stmt>): Names
    requires ns != []
  {
    BlockAfter(After(ns, post), body)
  }

  function BodyTouches(ns: Names, globals: set<string>, post: Stmt, body: seq<Stmt>): set<Place>
    requires ns != []
  {
    StmtTouches(ns, globals, post) + ListTouches(After(ns, post) + [{}], globals, body)
  }

  lemma LoopReads(ns: Names, globals: set<string>, s: Stmt)
    requires ns != [] && s.Loop? && s.first.Some? && s.test.Some? && s.post.Some?
    ensures var ns1 := After(ns, s.first.value);
      && After(ns, s) == BodyAfter(ns1, s.post.value, s.body)
      && StmtTouches(ns, globals, s) ==
         StmtTouches(ns, globals, s.first.value) + ExprTouches(ns1, globals, s.test.value) + BodyTouches(ns1, globals, s.post.value, s.body)
  {
    hide ExprTouches, ListTouches, BlockAfter;
  }

  lemma TestAdvances(order: Order, st: State, s: Stmt)
    requires Ready(st) && IsOrder(order) && Below(st.varEnv, st.varId) && s.Loop? && s.test.Some? && s.post.Some? && VisitLoop(order, st, s).Some?
    ensures LoopParts(order, st, s).Some?
    ensures Advances(st, LoopParts(order, st, s).value.tested, NamesOf(st.varEnv), ExprTouches(NamesOf(st.varEnv), st.globals, s.test.value))
  {
    LoopFinish(order, st, s);
    hide VisitLoop, EnterBlock, VisitCondition, AddBlock, CloseBlock, VisitInNewEnv, VisitStmt, Touched, ExprTouches;
    var ns := NamesOf(st.varEnv);
    var t := ExprTouches(ns, st.globals, s.test.value);
    var st1 := EnterBlock(st, "loop_cond");
    EnterFrame(st, "loop_cond");
    SameAdvances(st, st1);
    ConditionAdvances(st1, s.test.value);
    AdvancesTrans(st, st1, ns, {}, VisitCondition(st1, s.test.value).value, ns, t);
    assert {} + t == t;
  }

  /** From behind the test to behind the loop. */
  lemma {:induction false} LoopInside(order: Order, st: State, s: Stmt)
    requires Ready(st) && IsOrder(order) && s.Loop? && s.test.Some? && s.post.Some? && VisitLoop(order, st, s).Some?
    requires LoopParts(order, st, s).Some? && Below(LoopParts(order, st, s).value.tested.varEnv, LoopParts(order, st, s).value.tested.varId)
    ensures var p := LoopParts(order, st, s).value; var ns := NamesOf(p.tested.varEnv);
      Advances(p.tested, VisitLoop(order, st, s).value, BodyAfter(ns, s.post.value, s.body), BodyTouches(ns, p.tested.globals, s.post.value, s.body))
    decreases s, 0
  {
    LoopFinish(order, st, s);
    PartsBody(order, st, s);
    PartsStep(order, st, s);
    hide VisitLoop, LoopParts, AddBlock, CloseBlock, AddOperands, VisitInNewEnv, VisitStmt, Touched, After, StmtTouches, ListTouches, BlockAfter, Below;
    var p := LoopParts(order, st, s).value;
    var ns, g := NamesOf(p.tested.varEnv), p.tested.globals;
    var st3 := AddBlock(p.tested, "loop_expr");
    BlockFrame(p.tested, "loop_expr");
    StmtAdvances(order, st3, s.post.value);
    var ns1, t := After(ns, s.post.value), StmtTouches(ns, g, s.post.value);
    assert Advances(p.tested, p.stepped, ns1, t);
    CloseFrame(p.stepped, StepBlock(p), p.cond, "loop_body");
    ThenSame(p.tested, p.stepped, ns1, t, p.entered);
    NewEnvAdvances(order, p.entered, s.body);
    var u := ListTouches(ns1 + [{}], g, s.body);
    AdvancesTrans(p.tested, p.entered, ns1, t, p.left, BlockAfter(ns1, s.body), u);
    LoopFrame(p.left, p, LastRef(p.tested), |Instructions(p.tested, LastRef(p.tested))|);
    ThenSame(p.tested, p.left, BlockAfter(ns1, s.body), t + u, VisitLoop(order, st, s).value);
  }

  lemma LoopFrame(st: State, p: LoopStates, branch: BlockRef, n: nat)
    requires Ready(st) && Ready(p.tested) && Ready(p.entered) && n > 0
    ensures var st6 := CloseBlock(st, LastRef(p.entered), StepBlock(p), "loop_merge");
      var st' := AddOperands(st6, branch, n - 1, [Label(LastRef(p.entered)), Label(LastRef(st6))]);
      st'.varEnv == st.varEnv && st'.varId == st.varId && st'.globals == st.globals
  {
    hide CloseBlock, AddOperands;
    CloseFrame(st, LastRef(p.entered), StepBlock(p), "loop_merge");
    var st6 := CloseBlock(st, LastRef(p.entered), StepBlock(p), "loop_merge");
    OperandsFrameEnv(st6, branch, n - 1, [Label(LastRef(p.entered)), Label(LastRef(st6))]);
  }

  lemma PartsStep(order: Order, st: State, s: Stmt)
    requires Ready(st) && IsOrder(order) && s.Loop? && s.test.Some? && s.post.Some? && LoopParts(order, st, s).Some?
    ensures var p := LoopParts(order, st, s).value;
      VisitStmt(order, AddBlock(p.tested, "loop_expr"), s.post.value) == Some(p.stepped)
  {
    hide VisitCondition, EnterBlock, AddBlock, CloseBlock, VisitInNewEnv, AddOperands, VisitStmt;
  }

  // ---- Loops ------------------------------------------------------------------------------

  /** Behind step and body the name is found where it was, and is not touched there. */
  predicate Untouched(ns: Names, globals: set<string>, post: Stmt, body: seq<Stmt>, x: string)
    requires ns != []
  {
    var home := Home(ns, x);
    Home(BodyAfter(ns, post, body), x) == home && (home.Some? ==> (home.value, x) !in BodyTouches(ns, globals, post, body))
  }

  lemma InvBelow(st: State, ix: Index)
    requires Inv(st, ix)
    ensures Below(st.varEnv, st.varId)
  {
    Fresh(st, ix);
    forall i: nat, x | i < |st.varEnv| && x in st.varEnv[i] ensures st.varEnv[i][x].v < st.varId {
      assert LayerOk(st, ix, st.varEnv[i]);
      assert SiteOk(st, ix, st.varEnv[i][x]);
    }
    hide CodeOk;
  }

  /** Behind a loop a name stands for the variable it stood for behind the test exactly when step and
      body keep it; otherwise it stands for one that step or body compute. */
  lemma LoopKeepsExactly(order: Order, st: State, ix: Index, s: Stmt, x: string)
    requires Inv(st, ix) && Ready(st) && IsOrder(order) && s.Loop? && s.test.Some? && s.post.Some? && VisitLoop(order, st, s).Some?
    ensures LoopParts(order, st, s).Some?
    ensures var tested := LoopParts(order, st, s).value.tested; var st' := VisitLoop(order, st, s).value;
      && NamesOf(tested.varEnv) == NamesOf(st.varEnv) && tested.globals == st.globals
      && (Find(st'.varEnv, x) == Find(tested.varEnv, x) <==> Untouched(NamesOf(st.varEnv), st.globals, s.post.value, s.body, x))
      && (Find(st'.varEnv, x) != Find(tested.varEnv, x) ==> Find(st'.varEnv, x).Some? && Find(st'.varEnv, x).value.v >= tested.varId)
  {
    InvBelow(st, ix);
    TestAdvances(order, st, s);
    hide Inv, VisitLoop, LoopParts, BodyAfter, BodyTouches, Find, ExprTouches;
    var tested := LoopParts(order, st, s).value.tested;
    LoopInside(order, st, s);
    NamesMove(tested, VisitLoop(order, st, s).value, BodyAfter(NamesOf(st.varEnv), s.post.value, s.body),
      BodyTouches(NamesOf(st.varEnv), st.globals, s.post.value, s.body), x);
  }

  /** Behind any statement a name stands for the variable it stood for exactly when it is found in the
      same scope and is not touched; otherwise it stands for one that was created meanwhile. */
  lemma StmtKeepsExactly(order: Order, st: State, ix: Index, s: Stmt, x: string)
    requires Inv(st, ix) && Ready(st) && IsOrder(order) && VisitStmt(order, st, s).Some?
    ensures var st' := VisitStmt(order, st, s).value; var ns := NamesOf(st.varEnv); var home := Home(ns, x);
      && NamesOf(st'.varEnv) == After(ns, s)
      && (Find(st'.varEnv, x) == Find(st.varEnv, x) <==>
            Home(After(ns, s), x) == home && (home.Some? ==> (home.value, x) !in StmtTouches(ns, st.globals, s)))
      && (Find(st'.varEnv, x) != Find(st.varEnv, x) ==> Find(st'.varEnv, x).Some? && Find(st'.varEnv, x).value.v >= st.varId)
  {
    InvBelow(st, ix);
    hide Inv, VisitStmt, After, StmtTouches, Find;
    StmtAdvances(order, st, s);
    NamesMove(st, VisitStmt(order, st, s).value, After(NamesOf(st.varEnv), s), StmtTouches(NamesOf(st.varEnv), st.globals, s), x);
  }

  /** A name is found with the same variable exactly when it is found where it was, untouched. */
  lemma NamesMove(a: State, b: State, ns: Names, t: set<Place>, x: string)
    requires Below(a.varEnv, a.varId) && Advances(a, b, ns, t)
    ensures var home := Home(NamesOf(a.varEnv), x);
      && (Find(b.varEnv, x) == Find(a.varEnv, x) <==> Home(ns, x) == home && (home.Some? ==> (home.value, x) !in t))
      && (Find(b.varEnv, x) != Find(a.varEnv, x) ==> Find(b.varEnv, x).Some? && Find(b.varEnv, x).value.v >= a.varId)
  {
    HomeFinds(a.varEnv, x);
    HomeFinds(b.varEnv, x);
    hide Find, Home;
    var h, k := Home(NamesOf(a.varEnv), x), Home(ns, x);
    if h.Some? {
      var i := h.value;
      assert x in a.varEnv[i] && x in b.varEnv[i];
      assert x in ns[i];
      assert k.Some? && k.value >= i;
    }
    if k.Some? {
      var i := k.value;
      assert x in b.varEnv[i];
      if i < |a.varEnv| && x in a.varEnv[i] {
        assert x in NamesOf(a.varEnv)[i];
        assert h == k;
      } else {
        assert h != k;
        assert b.varEnv[i][x].v >= a.varId;
      }
    }
  }
}
