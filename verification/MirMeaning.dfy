/** The lowered block of a straight-line body does what the body means. */
module MirMeaning {
  import opened Ast
  import opened Statements
  import opened Scopes
  import opened Mir
  import opened MirFactory
  import opened MirBuilder
  import opened Meaning
  import opened MirMachine
  import opened Words

  // ---- Code that was added to the last block ----------------------------------------------

  ghost predicate Straight(a: State, b: State) {
    && HasBlock(a) && HasBlock(b) && LastRef(a) == LastRef(b)
    && LastBlock(a).instructions <= LastBlock(b).instructions
    && b.globals == a.globals && a.varId <= b.varId
  }

  function Code(a: State, b: State): seq<Instruction>
    requires Straight(a, b)
  {
    LastBlock(b).instructions[|LastBlock(a).instructions|..]
  }

  lemma CodeTrans(a: State, b: State, c: State)
    requires Straight(a, b) && Straight(b, c)
    ensures Straight(a, c) && Code(a, c) == Code(a, b) + Code(b, c)
  {}

  lemma EmitCode(st: State, op: Opcode, operands: seq<Operand>, result: Option<VarId>)
    requires HasBlock(st)
    ensures var st' := Emit(st, op, operands, result); var x := Instruction(st.instrId, op, operands, result);
      && Straight(st, st') && Code(st, st') == [x] && st'.varEnv == st.varEnv && st'.fnEnv == st.fnEnv
      && st'.varId == st.varId && st'.instrId == st.instrId + 1 && RequireLastVar(st') == result
  {
    var st' := Emit(st, op, operands, result);
    assert LastBlock(st').instructions == LastBlock(st).instructions + [Instruction(st.instrId, op, operands, result)];
  }

  lemma EmitResultCode(st: State, op: Opcode, operands: seq<Operand>)
    requires HasBlock(st)
    ensures var st' := EmitResult(st, op, operands); var x := Instruction(st.instrId, op, operands, Some(st.varId));
      && Straight(st, st') && Code(st, st') == [x] && st'.varEnv == st.varEnv && st'.fnEnv == st.fnEnv
      && st'.varId == st.varId + 1 && st'.instrId == st.instrId + 1 && RequireLastVar(st') == Some(st.varId)
  {
    EmitCode(CreateVar(st), op, operands, Some(st.varId));
    hide Emit;
  }

  // ---- When lowering succeeds -------------------------------------------------------------

  /** The same names are bound in the same scopes. */
  ghost predicate SameNames(a: Stack<Site>, b: Stack<Site>) {
    |a| == |b| && forall i :: 0 <= i < |a| ==> a[i].Keys == b[i].Keys
  }

  lemma {:induction false} SameNamesFind(a: Stack<Site>, b: Stack<Site>, x: string)
    requires SameNames(a, b)
    ensures Find(a, x).Some? <==> Find(b, x).Some?
  {
    var n := |a| - 1;
    if a != [] {
      assert x in a[n] <==> x in b[n];
      if x !in a[n] { SameNamesFind(a[..n], b[..n], x); }
    }
  }

  ghost predicate AllBound(st: State, names: set<string>) {
    forall x :: x in names ==> Find(st.varEnv, x).Some?
  }

  lemma AllBoundSame(a: State, b: State, names: set<string>)
    requires SameNames(a.varEnv, b.varEnv)
    ensures AllBound(a, names) <==> AllBound(b, names)
  {
    forall x | x in names ensures Find(a.varEnv, x).Some? <==> Find(b.varEnv, x).Some? {
      SameNamesFind(a.varEnv, b.varEnv, x);
    }
  }

  lemma RefCode(st: State, x: string)
    requires HasBlock(st) && x !in st.globals && Find(st.varEnv, x).Some?
    ensures AddVariableRef(st, x).Some?
    ensures var st' := AddVariableRef(st, x).value; var v := Find(st.varEnv, x).value.v;
      && Straight(st, st') && Code(st, st') == [Instruction(st.instrId, Opcode.Update, [Local(v)], Some(st.varId))]
      && st'.varEnv == Scopes.Update(st.varEnv, x, Site(LastRef(st), st.varId))
      && st'.varId == st.varId + 1 && RequireLastVar(st') == Some(st.varId)
  {
    EmitResultCode(st, Opcode.Update, [Local(Find(st.varEnv, x).value.v)]);
    hide EmitResult;
  }

  /** A simple expression is lowered exactly when all its names are bound; it only adds code
      to the last block, whose last instruction has a result. */
  lemma {:induction false} ExprLowers(st: State, e: Expr)
    requires Ready(st) && Simple(e) && Names(e) !! st.globals
    ensures VisitExpr(st, e).Some? <==> AllBound(st, Names(e))
    ensures VisitExpr(st, e).Some? ==> var st' := VisitExpr(st, e).value;
      Straight(st, st') && SameNames(st.varEnv, st'.varEnv) && RequireLastVar(st').Some?
    decreases e
  {
    match e
    case Literal(lit) =>
      if lit.IntLit? { EmitResultCode(st, ConstInt, [IntConst(Wrap32(lit.n))]); }
      else { EmitResultCode(st, ConstBool, [BoolConst(lit.b)]); }
    case Identifier(x) => if Find(st.varEnv, x).Some? { RefCode(st, x); }
    case Prefix(op, x) =>
      ExprLowers(st, x);
      if op == Negative && VisitExpr(st, x).Some? {
        var st1 := VisitExpr(st, x).value;
        EmitResultCode(st1, ISub, [IntConst(0), Local(RequireLastVar(st1).value)]);
      }
    case Infix(op, l, r) => InfixLowers(st, op, l, r);
  }

  lemma {:induction false} InfixLowers(st: State, op: InfixOp, l: Expr, r: Expr)
    requires Ready(st) && Simple(Infix(op, l, r)) && Names(Infix(op, l, r)) !! st.globals
    ensures VisitExpr(st, Infix(op, l, r)).Some? <==> AllBound(st, Names(Infix(op, l, r)))
    ensures VisitExpr(st, Infix(op, l, r)).Some? ==> var st' := VisitExpr(st, Infix(op, l, r)).value;
      Straight(st, st') && SameNames(st.varEnv, st'.varEnv) && RequireLastVar(st').Some?
    decreases Infix(op, l, r), 0
  {
    hide EmitResult;
    ExprLowers(st, l);
    assert Names(l) <= Names(Infix(op, l, r));
    if VisitExpr(st, l).Some? {
      var st1 := VisitExpr(st, l).value;
      ExprLowers(st1, r);
      AllBoundSame(st, st1, Names(r));
      if VisitExpr(st1, r).Some? {
        var st2 := VisitExpr(st1, r).value;
        CodeTrans(st, st1, st2);
        var os := [Local(RequireLastVar(st1).value), Local(RequireLastVar(st2).value)];
        EmitResultCode(st2, InfixOpcode(op), os);
        CodeTrans(st, st2, EmitResult(st2, InfixOpcode(op), os));
      }
    }
  }

  // ---- What lowered expressions compute ---------------------------------------------------

  /** Each name with a value is bound to a variable that holds it. More names may be bound. */
  ghost predicate Related(env: Env, names: Stack<Site>, store: Store) {
    forall x :: x in env ==>
      Find(names, x).Some? && Find(names, x).value.v in store && store[Find(names, x).value.v] == env[x]
  }

  ghost predicate StoreOk(st: State, store: Store) {
    forall v :: v in store ==> v < st.varId
  }

  /** Nothing is overwritten, and only variables created on the way are added. */
  ghost predicate Keeps(st: State, store: Store, st': State, store': Store) {
    && (forall v :: v in store ==> v in store' && store'[v] == store[v])
    && (forall v :: v in store' ==> v in store || st.varId <= v < st'.varId)
  }

  ghost predicate Holds(st: State, store: Store, v: Value) {
    RequireLastVar(st).Some? && RequireLastVar(st).value in store && store[RequireLastVar(st).value] == v
  }

  /** Running the code between the states fails if there is no value, and otherwise leaves
      the value in the last variable. */
  ghost predicate Matches(env: Env, st: State, store: Store, st': State, want: Option<Value>) {
    Straight(st, st') &&
    var m := ExecAll(store, Code(st, st'));
    if want.None? then m.Failed?
    else m.Going? && Related(env, st'.varEnv, m.store) && Keeps(st, store, st', m.store) && Holds(st', m.store, want.value)
  }

  lemma ExecOne(store: Store, x: Instruction)
    ensures ExecAll(store, [x]) == Exec(store, x)
  {
    var m := Exec(store, x);
    assert [x][1..] == [];
    if m.Going? { assert ExecAll(m.store, []) == m; }
  }

  lemma EmitRuns(env: Env, st: State, store: Store, op: Opcode, os: seq<Operand>, x: Instruction)
    requires HasBlock(st) && Related(env, st.varEnv, store) && StoreOk(st, store) && op != ReturnOp
    requires x == Instruction(st.instrId, op, os, Some(st.varId))
    ensures Matches(env, st, store, EmitResult(st, op, os), MirMachine.Result(store, x))
  {
    EmitResultCode(st, op, os);
    ExecOne(store, x);
    hide EmitResult, ExecAll, MirMachine.Result, Find;
  }

  /** Reading a name copies its value, and from then on the copy stands for the name. */
  lemma RefRuns(env: Env, st: State, store: Store, x: string)
    requires HasBlock(st) && x !in st.globals && x in env && Related(env, st.varEnv, store) && StoreOk(st, store)
    ensures AddVariableRef(st, x).Some? && Matches(env, st, store, AddVariableRef(st, x).value, Some(env[x]))
  {
    RefCode(st, x);
    var v := Find(st.varEnv, x).value.v;
    ExecOne(store, Instruction(st.instrId, Opcode.Update, [Local(v)], Some(st.varId)));
    UpdateRelated(env, st.varEnv, store, x, Site(LastRef(st), st.varId), env[x]);
    hide AddVariableRef, Find, Related;
  }

  /** Rebinding a name to a fresh variable that holds its value. */
  lemma UpdateRelated(env: Env, names: Stack<Site>, store: Store, x: string, s: Site, v: Value)
    requires Related(env, names, store) && x in env && s.v !in store
    ensures Related(env[x := v], Scopes.Update(names, x, s), store[s.v := v])
    ensures v == env[x] ==> env[x := v] == env
  {
    forall y ensures Find(Scopes.Update(names, x, s), y) == if y == x then Some(s) else Find(names, y) {
      FindUpdate(names, x, s, y);
    }
    hide Find, Scopes.Update;
  }

  lemma MatchesTrans(env: Env, a: State, store: Store, b: State, v: Value, c: State, w: Option<Value>)
    requires Matches(env, a, store, b, Some(v))
    requires Matches(env, b, ExecAll(store, Code(a, b)).store, c, w)
    ensures Matches(env, a, store, c, w)
  {
    CodeTrans(a, b, c);
    ExecConcat(store, Code(a, b), Code(b, c));
    hide Related, Holds, ExecAll, Code;
  }

  lemma MatchesFails(env: Env, a: State, store: Store, b: State, c: State)
    requires Matches(env, a, store, b, None) && Straight(b, c)
    ensures Matches(env, a, store, c, None)
  {
    CodeTrans(a, b, c);
    ExecConcat(store, Code(a, b), Code(b, c));
    hide ExecAll, Code;
  }

  lemma {:induction false} ExprRuns(st: State, e: Expr, env: Env, store: Store)
    requires Ready(st) && Simple(e) && Names(e) !! st.globals && VisitExpr(st, e).Some? && Names(e) <= env.Keys
    requires Related(env, st.varEnv, store) && StoreOk(st, store)
    ensures Matches(env, st, store, VisitExpr(st, e).value, Eval(Wrap32, env, e))
    decreases e, 1
  {
    hide EmitResult, Related, AddVariableRef, Matches, VisitLogical, VisitLiteral;
    match e
    case Literal(lit) => LiteralRuns(st, lit, env, store);
    case Identifier(x) => RefRuns(env, st, store, x);
    case Prefix(op, x) => PrefixRuns(st, op, x, env, store);
    case Infix(op, l, r) => InfixRuns(st, op, l, r, env, store);
  }

  lemma LiteralRuns(st: State, lit: Ast.Literal, env: Env, store: Store)
    requires Ready(st) && Simple(Literal(lit)) && VisitLiteral(st, lit).Some? && Related(env, st.varEnv, store) && StoreOk(st, store)
    ensures Matches(env, st, store, VisitLiteral(st, lit).value, Eval(Wrap32, env, Literal(lit)))
  {
    hide EmitResult, Related;
    if lit.IntLit? { EmitRuns(env, st, store, ConstInt, [IntConst(Wrap32(lit.n))], Instruction(st.instrId, ConstInt, [IntConst(Wrap32(lit.n))], Some(st.varId))); }
    else { EmitRuns(env, st, store, ConstBool, [BoolConst(lit.b)], Instruction(st.instrId, ConstBool, [BoolConst(lit.b)], Some(st.varId))); }
  }

  lemma {:induction false} PrefixRuns(st: State, op: PrefixOp, x: Expr, env: Env, store: Store)
    requires Ready(st) && Simple(Prefix(op, x)) && Names(Prefix(op, x)) !! st.globals && VisitExpr(st, Prefix(op, x)).Some?
    requires Names(x) <= env.Keys && Related(env, st.varEnv, store) && StoreOk(st, store)
    ensures Matches(env, st, store, VisitExpr(st, Prefix(op, x)).value, Eval(Wrap32, env, Prefix(op, x)))
    decreases x, 2
  {
    hide EmitResult, Related, ExecAll, Code, RequireLastVar, StoreOk, Matches, VisitLogical, VisitLiteral, VisitArgs, AddCall, AddVariableRef;
    ExprRuns(st, x, env, store);
    if op == Negative { NegationRuns(st, VisitExpr(st, x).value, env, store, Eval(Wrap32, env, x)); }
  }

  /** A minus subtracts from zero. */
  lemma NegationRuns(st: State, st1: State, env: Env, store: Store, v: Option<Value>)
    requires Matches(env, st, store, st1, v) && RequireLastVar(st1).Some? && StoreOk(st, store)
    ensures Matches(env, st, store, EmitResult(st1, ISub, [IntConst(0), Local(RequireLastVar(st1).value)]),
      if v.None? || v.value.BoolV? then None else Some(IntV(Wrap32(-v.value.i))))
  {
    hide EmitResult, Related, ExecAll, Code, RequireLastVar;
    var lv := RequireLastVar(st1).value;
    var os := [IntConst(0), Local(lv)];
    var st2 := EmitResult(st1, ISub, os);
    EmitResultCode(st1, ISub, os);
    if v.None? {
      MatchesFails(env, st, store, st1, st2);
    } else {
      var s1 := ExecAll(store, Code(st, st1)).store;
      var x := Instruction(st1.instrId, ISub, os, Some(st1.varId));
      EmitRuns(env, st1, s1, ISub, os, x);
      NegationValue(s1, x, lv);
      hide MirMachine.Result;
      MatchesTrans(env, st, store, st1, v.value, st2, MirMachine.Result(s1, x));
    }
  }

  lemma NegationValue(store: Store, x: Instruction, lv: VarId)
    requires x.op == ISub && x.operands == [IntConst(0), Local(lv)] && lv in store
    ensures MirMachine.Result(store, x) == if store[lv].BoolV? then None else Some(IntV(Wrap32(-store[lv].i)))
  {}

  lemma {:induction false} InfixRuns(st: State, op: InfixOp, l: Expr, r: Expr, env: Env, store: Store)
    requires Ready(st) && Simple(Infix(op, l, r)) && Names(Infix(op, l, r)) !! st.globals && VisitExpr(st, Infix(op, l, r)).Some?
    requires Names(l) <= env.Keys && Names(r) <= env.Keys && Related(env, st.varEnv, store) && StoreOk(st, store)
    ensures Matches(env, st, store, VisitExpr(st, Infix(op, l, r)).value, Eval(Wrap32, env, Infix(op, l, r)))
    decreases Infix(op, l, r), 0
  {
    hide EmitResult, Related, ExecAll, Code, Apply, Alu;
    var st1 := VisitExpr(st, l).value;
    var st2 := VisitExpr(st1, r).value;
    var lv, rv := RequireLastVar(st1).value, RequireLastVar(st2).value;
    var os := [Local(lv), Local(rv)];
    var st3 := EmitResult(st2, InfixOpcode(op), os);
    ExprRuns(st, l, env, store);
    ExprLowers(st1, r);
    EmitResultCode(st2, InfixOpcode(op), os);
    CodeTrans(st1, st2, st3);
    var a := Eval(Wrap32, env, l);
    if a.None? {
      MatchesFails(env, st, store, st1, st3);
    } else {
      var s1 := ExecAll(store, Code(st, st1)).store;
      ExprRuns(st1, r, env, s1);
      var b := Eval(Wrap32, env, r);
      if b.None? {
        MatchesFails(env, st1, s1, st2, st3);
        MatchesTrans(env, st, store, st1, a.value, st3, None);
      } else {
        var s2 := ExecAll(s1, Code(st1, st2)).store;
        var x := Instruction(st2.instrId, InfixOpcode(op), os, Some(st2.varId));
        EmitRuns(env, st2, s2, InfixOpcode(op), os, x);
        OpcodeMeaning(op, a.value, b.value);
        MatchesTrans(env, st1, s1, st2, b.value, st3, MirMachine.Result(s2, x));
        MatchesTrans(env, st, store, st1, a.value, st3, MirMachine.Result(s2, x));
      }
    }
  }

  /** Each operator is lowered to the opcode with its meaning. */
  lemma OpcodeMeaning(op: InfixOp, a: Value, b: Value)
    requires op != And && op != Or
    ensures Alu(InfixOpcode(op), a, b) == Apply(op, a, b)
  {}
}
