/** Programs on which the lowering goes wrong, for any names and in any state. */
module MirExamples {
  import opened Ast
  import opened Statements
  import opened Scopes
  import opened Mir
  import opened MirFactory
  import opened MirBuilder
  import Meaning
  import opened MirShape
  import opened MirBlocks
  import opened MirTargets
  import opened MirEnds
  import opened MirTouches
  import opened MirMeaningFunction
  import opened MirNames
  import opened MirSsa
  import opened MirProgram
  import opened MirClosed
  import opened MirScopes

  const TRUE: Expr := Literal(BoolLit(true))

  /** `if true {}`, with or without an empty alternative. */
  function EmptyIf(onFalse: Alternative): (s: Stmt)
    ensures s.If? && s.first.None? && s.cond == TRUE && s.onTrue == [] && s.onFalse == onFalse
  {
    If(None, TRUE, [], onFalse)
  }

  lemma TestLowers(st: State)
    requires Ready(st)
    ensures VisitCondition(st, TRUE).Some? && Ready(VisitCondition(st, TRUE).value)
  {}

  lemma EmptyBranchLowers(order: Order, st: State, prefix: string, branch: BlockRef, place: nat)
    requires Ready(st) && IsOrder(order)
    ensures VisitBranch(order, st, prefix, branch, place, []).Some?
  {
    hide AddBlock, AddOperands;
    var st2 := AddOperands(AddBlock(st, prefix), branch, place, [Label(LastRef(AddBlock(st, prefix)))]);
    assert VisitList(order, PushEnv(st2), []) == Some(PushEnv(st2));
  }

  lemma BranchesLower(order: Order, st: State, s: Stmt)
    requires Ready(st) && IsOrder(order) && s.If? && LastBlock(st).instructions != [] && FirstBranch(order, st, s).Some?
    requires s.onFalse.Else? ==> SecondBranch(order, st, s).Some?
    ensures VisitBranches(order, st, s).Some?
  {
    hide VisitBranch, MergeEnvs, JoinBranches, AddBlock, InsertJump;
  }

  /** An `If` is lowered when its condition and its branches are. */
  lemma IfLowers(order: Order, st: State, s: Stmt)
    requires Ready(st) && IsOrder(order) && s.If? && s.first.None? && VisitCondition(st, s.cond).Some?
    requires FirstBranch(order, VisitCondition(st, s.cond).value, s).Some?
    requires s.onFalse.Else? ==> SecondBranch(order, VisitCondition(st, s.cond).value, s).Some?
    ensures VisitStmt(order, st, s).Some?
    ensures BeforeTest(order, st, s) == Some(st)
  {
    hide VisitCondition, VisitBranches, FirstBranch, SecondBranch;
    BranchesLower(order, VisitCondition(st, s.cond).value, s);
    assert VisitStmt(order, st, s) == VisitBranches(order, VisitCondition(st, s.cond).value, s);
  }

  lemma EmptyBranches(order: Order, st: State, s: Stmt)
    requires Ready(st) && IsOrder(order) && s.If? && s.onTrue == [] && (s.onFalse.Else? ==> s.onFalse.code == []) && LastBlock(st).instructions != []
    ensures FirstBranch(order, st, s).Some? && (s.onFalse.Else? ==> SecondBranch(order, st, s).Some?)
  {
    hide VisitBranch;
    var place: nat := |Instructions(st, LastRef(st))| - 1;
    EmptyBranchLowers(order, st, "if_then", LastRef(st), place);
    var t := VisitBranch(order, st, "if_then", LastRef(st), place, []).value;
    EmptyBranchLowers(order, t.st.(varEnv := st.varEnv), "if_alt", LastRef(st), place);
  }

  lemma EmptyIfLowers(order: Order, st: State, onFalse: Alternative)
    requires Ready(st) && IsOrder(order) && (onFalse.Else? ==> onFalse.code == [])
    ensures VisitStmt(order, st, EmptyIf(onFalse)).Some?
  {
    hide *;
    TestLowers(st);
    EmptyBranches(order, VisitCondition(st, TRUE).value, EmptyIf(onFalse));
    IfLowers(order, st, EmptyIf(onFalse));
  }

  // ---- A branch that never reaches the merge block ----------------------------------------

  /** `if true { if true {} }` */
  function NestedIf(): (s: Stmt)
    ensures s.If? && s.first.None? && s.cond == TRUE && s.onTrue == [EmptyIf(NoElse)] && s.onFalse.NoElse?
  {
    If(None, TRUE, [EmptyIf(NoElse)], NoElse)
  }

  lemma NestedBranchLowers(order: Order, st: State, prefix: string, branch: BlockRef, place: nat)
    requires Ready(st) && IsOrder(order)
    ensures VisitBranch(order, st, prefix, branch, place, [EmptyIf(NoElse)]).Some?
  {
    hide AddBlock, AddOperands, VisitStmt;
    var st2 := PushEnv(AddOperands(AddBlock(st, prefix), branch, place, [Label(LastRef(AddBlock(st, prefix)))]));
    EmptyIfLowers(order, st2, NoElse);
    var st3 := VisitStmt(order, st2, EmptyIf(NoElse)).value;
    assert [EmptyIf(NoElse)][1..] == [];
    assert VisitList(order, st3, []) == Some(st3);
    assert VisitList(order, st2, [EmptyIf(NoElse)]) == Some(st3);
  }

  lemma NestedFirst(order: Order, st: State)
    requires Ready(st) && IsOrder(order) && LastBlock(st).instructions != []
    ensures FirstBranch(order, st, NestedIf()).Some?
  {
    hide VisitBranch, EmptyIf;
    NestedBranchLowers(order, st, "if_then", LastRef(st), |Instructions(st, LastRef(st))| - 1);
  }

  lemma NestedIfLowers(order: Order, st: State)
    requires Ready(st) && IsOrder(order)
    ensures VisitStmt(order, st, NestedIf()).Some? && VisitCondition(st, TRUE).Some? && BeforeTest(order, st, NestedIf()) == Some(st)
    ensures FirstBranch(order, VisitCondition(st, TRUE).value, NestedIf()).Some?
  {
    hide *;
    TestLowers(st);
    NestedFirst(order, VisitCondition(st, TRUE).value);
    IfLowers(order, st, NestedIf());
  }

  lemma NestedBlocks()
    ensures !OneBlock(NestedIf().onTrue)
  {}

  /** The block behind the inner `if` does not go on to the block behind the outer one. */
  lemma NestedIfOpen(order: Order, st: State, ix: Index)
    requires Inv(st, ix) && Ready(st) && IsOrder(order)
    ensures VisitStmt(order, st, NestedIf()).Some? && VisitCondition(st, TRUE).Some?
    ensures FirstBranch(order, VisitCondition(st, TRUE).value, NestedIf()).Some?
    ensures var st' := VisitStmt(order, st, NestedIf()).value; var t := FirstBranch(order, VisitCondition(st, TRUE).value, NestedIf()).value;
      !JumpsTo(st', LastRef(t.st), LastRef(st'))
  {
    hide *;
    NestedIfLowers(order, st);
    NestedBlocks();
    BranchReachesMerge(order, st, ix, NestedIf());
  }

  // ---- A name that leaks out of its function ----------------------------------------------

  /** `let x = true; if true {} else {}` leaves the function's own scope open behind it. */
  function Leaking(x: string): seq<Stmt> {
    [Let(x, Some(TRUE)), EmptyIf(Else([]))]
  }

  lemma LeakingLowers(order: Order, st: State, x: string)
    requires Ready(st) && IsOrder(order) && x !in st.varEnv[|st.varEnv| - 1]
    ensures VisitList(order, st, Leaking(x)).Some?
    ensures var st' := VisitList(order, st, Leaking(x)).value;
      |st'.varEnv| == |st.varEnv| + 1 && x in st'.varEnv[|st.varEnv| - 1]
  {
    var code := Leaking(x);
    assert code[1..] == [EmptyIf(Else([]))] && code[1..][1..] == [];
    LetLowers(st, x);
    var st1 := VisitBinding(st, x, Some(TRUE)).value;
    EmptyIfLowers(order, st1, Else([]));
    hide VisitBinding;
    var st2 := VisitStmt(order, st1, EmptyIf(Else([]))).value;
    StmtNames(order, st1, EmptyIf(Else([])));
    StmtScopes(order, st1, EmptyIf(Else([])));
    assert LeftBehind(EmptyIf(Else([]))) == 1 by { assert AllLeftBehind([]) == 0; }
    hide VisitStmt, LeftBehind;
    assert VisitStmt(order, st, code[0]) == VisitBinding(st, x, Some(TRUE)) by { LetIs(order, st, x); }
    assert VisitList(order, st2, []) == Some(st2);
    assert VisitList(order, st1, code[1..]) == Some(st2);
    assert VisitList(order, st, code) == Some(st2);
  }

  lemma LetIs(order: Order, st: State, x: string)
    requires Ready(st) && IsOrder(order)
    ensures VisitStmt(order, st, Let(x, Some(TRUE))) == VisitBinding(st, x, Some(TRUE))
  {}

  lemma LetLowers(st: State, x: string)
    requires Ready(st) && x !in st.varEnv[|st.varEnv| - 1]
    ensures VisitBinding(st, x, Some(TRUE)).Some?
    ensures var st' := VisitBinding(st, x, Some(TRUE)).value; |st'.varEnv| == |st.varEnv| && x in st'.varEnv[|st.varEnv| - 1]
  {}

  /** Behind a function `f` with that body, a function `g` that returns the unbound name is
      lowered all the same, and refers to a variable of `f`. */
  lemma LeakedName(order: Order, f: string, g: string, x: string)
    requires IsOrder(order)
    ensures VisitItems(order, INITIAL, [Function(f, [], Leaking(x)), Function(g, [], [Return(Some(Identifier(x)))])]).Some?
    ensures !Meaning.WellNamed({}, {}, [Return(Some(Identifier(x)))])
    ensures var fs := VisitItems(order, INITIAL, [Function(f, [], Leaking(x)), Function(g, [], [Return(Some(Identifier(x)))])]).value.functions;
      fs != [] && !Closed(fs[|fs| - 1])
  {
    var first, second := Function(f, [], Leaking(x)), Function(g, [], [Return(Some(Identifier(x)))]);
    LeakingItem(order, f, x);
    var st1 := VisitItem(order, INITIAL, first).value;
    FindIsFlat(st1.varEnv, x);
    assert Find(st1.varEnv, x).Some?;
    ReturnedName(order, st1, g, x);
    ForeignName(order, f, g, x);
    var items := [first, second];
    assert items[1..] == [second] && [second][1..] == [];
    hide VisitItem;
    var st2 := VisitItem(order, st1, second).value;
    assert VisitItems(order, st2, []) == Some(st2);
    assert VisitItems(order, st1, [second]) == Some(st2);
    assert VisitItems(order, INITIAL, items) == Some(st2);
  }

  lemma ForeignName(order: Order, f: string, g: string, x: string)
    requires IsOrder(order) && VisitItem(order, INITIAL, Function(f, [], Leaking(x))).Some?
    requires var st1 := VisitItem(order, INITIAL, Function(f, [], Leaking(x))).value; x !in st1.globals && Find(st1.varEnv, x).Some?
    ensures var st1 := VisitItem(order, INITIAL, Function(f, [], Leaking(x))).value;
      var st2 := VisitItem(order, st1, Function(g, [], [Return(Some(Identifier(x)))]));
      st2.Some? && st2.value.functions != [] && !Closed(st2.value.functions[|st2.value.functions| - 1])
  {
    InitialInv();
    hide Inv, VisitItem, Closed;
    var ix := ItemKeeps(order, INITIAL, EMPTY, Function(f, [], Leaking(x)));
    VisibleForeign(order, VisitItem(order, INITIAL, Function(f, [], Leaking(x))).value, ix, g, x);
  }

  lemma LeakingItem(order: Order, f: string, x: string)
    requires IsOrder(order)
    ensures VisitItem(order, INITIAL, Function(f, [], Leaking(x))).Some?
    ensures var st' := VisitItem(order, INITIAL, Function(f, [], Leaking(x))).value;
      st'.globals == {} && |st'.varEnv| == 2 && x in st'.varEnv[1]
  {
    var st1 := Entry(INITIAL, f);
    assert Ready(st1) && st1.varEnv == [map[], map[]];
    assert VisitParams(st1, []) == Some(st1);
    LeakingLowers(order, st1, x);
    hide VisitList, Entry;
    FunctionScopes(order, INITIAL, f, [], Leaking(x));
  }

  /** A function that returns a name is lowered wherever the name is visible. */
  lemma ReturnedName(order: Order, st: State, g: string, x: string)
    requires TopLevel(st) && IsOrder(order) && x !in st.globals && x in Flat(st.varEnv).Keys
    ensures VisitItem(order, st, Function(g, [], [Return(Some(Identifier(x)))])).Some?
    ensures !Meaning.WellNamed({}, {}, [Return(Some(Identifier(x)))])
  {
    var code := [Return(Some(Identifier(x)))];
    assert code[1..] == [] && Meaning.SimpleBody(code);
    assert Meaning.Used(code[0]) == {x};
    assert SetOf([]) == {};
    FunctionLowers(order, st, g, [], code);
  }

  // ---- A name that stands for a variable of a loop's body ---------------------------------

  /** `loop true; true; true { x }`: reading a name makes it stand for a copy. */
  function ReadingLoop(x: string): (s: Stmt)
    ensures s.Loop? && s.first == Some(ExprStmt(TRUE)) && s.test == Some(TRUE) && s.post == Some(ExprStmt(TRUE)) && s.body == [ExprStmt(Identifier(x))]
  {
    Loop(Some(ExprStmt(TRUE)), Some(TRUE), Some(ExprStmt(TRUE)), [ExprStmt(Identifier(x))])
  }

  /** A statement that is lowered without a new block and without a change to the names. */
  ghost predicate Plainly(a: State, b: Option<State>) {
    b.Some? && Ready(a) && Ready(b.value) && b.value.varEnv == a.varEnv && b.value.globals == a.globals && LastRef(b.value) == LastRef(a)
  }

  lemma EmitPlain(st: State, op: Opcode, os: seq<Operand>)
    requires Ready(st)
    ensures Plainly(st, Some(EmitResult(st, op, os)))
  {
    var st1 := ReserveInstr(CreateVar(st));
    AppendPlaces(st1, LastRef(st1), Instruction(st.instrId, op, os, Some(st.varId)));
  }

  lemma TrueLowers(order: Order, st: State)
    requires Ready(st) && IsOrder(order)
    ensures Plainly(st, VisitStmt(order, st, ExprStmt(TRUE)))
  {
    EmitPlain(st, ConstBool, [BoolConst(true)]);
    hide EmitResult, Plainly;
    assert VisitExpr(st, TRUE) == Some(EmitResult(st, ConstBool, [BoolConst(true)]));
  }

  lemma TestPlain(st: State)
    requires Ready(st)
    ensures Plainly(st, VisitCondition(st, TRUE))
  {
    TestLowers(st);
    EmitPlain(st, ConstBool, [BoolConst(true)]);
    var st1 := EmitResult(st, ConstBool, [BoolConst(true)]);
    assert VisitExpr(st, TRUE) == Some(st1);
    var os := [Local(RequireLastVar(st1).value)];
    hide EmitResult, RequireLastVar, VisitExpr;
    EmitPlain(st1, CondJump, os);
  }

  lemma BodyReads(order: Order, st: State, x: string)
    requires Ready(st) && IsOrder(order) && x !in st.globals && Find(st.varEnv, x).Some?
    ensures VisitInNewEnv(order, st, [ExprStmt(Identifier(x))]).Some?
    ensures var st' := VisitInNewEnv(order, st, [ExprStmt(Identifier(x))]).value.0;
      && st'.varEnv == Scopes.Update(st.varEnv, x, Site(LastRef(st), st.varId)) && LastRef(st') == LastRef(st)
  {
    hide Find, Scopes.Update, AddVariableRef, VisitList, VisitStmt, VisitExpr;
    var st1 := PushEnv(st);
    FindPush(st.varEnv, x);
    RefPlain(st1, x);
    var st2 := AddVariableRef(st1, x).value;
    UpdatePush(st.varEnv, x, Site(LastRef(st), st.varId));
    OneRead(order, st1, x);
    assert PopEnv(st2).Some?;
  }

  lemma UpdatePush(env: Stack<Site>, x: string, s: Site)
    requires Find(env, x).Some?
    ensures Find(env + [map[]], x).Some? && Scopes.Update(env + [map[]], x, s) == Scopes.Update(env, x, s) + [map[]]
  {
    assert (env + [map[]])[..|env|] == env;
  }

  lemma OneRead(order: Order, st: State, x: string)
    requires Ready(st) && IsOrder(order)
    ensures VisitList(order, st, [ExprStmt(Identifier(x))]) == AddVariableRef(st, x)
  {
    hide AddVariableRef;
    var code := [ExprStmt(Identifier(x))];
    assert code[1..] == [];
    assert VisitStmt(order, st, code[0]) == AddVariableRef(st, x);
    hide VisitStmt;
    if AddVariableRef(st, x).Some? {
      var st1 := AddVariableRef(st, x).value;
      assert VisitList(order, st1, []) == Some(st1);
    }
  }

  lemma RefPlain(st: State, x: string)
    requires Ready(st) && x !in st.globals && Find(st.varEnv, x).Some?
    ensures AddVariableRef(st, x).Some?
    ensures var st' := AddVariableRef(st, x).value;
      && Ready(st') && st'.varEnv == Scopes.Update(st.varEnv, x, Site(LastRef(st), st.varId)) && LastRef(st') == LastRef(st) && st'.fnEnv == st.fnEnv
  {
    EmitPlain(st, Opcode.Update, [Local(Find(st.varEnv, x).value.v)]);
    hide EmitResult, Find, Scopes.Update;
  }

  lemma EnterPlain(st: State, prefix: string)
    requires Ready(st)
    ensures var st' := EnterBlock(st, prefix); Ready(st') && st'.varEnv == st.varEnv && st'.globals == st.globals
  {}

  lemma ClosePlain(st: State, r: BlockRef, target: BlockRef, prefix: string)
    requires Ready(st)
    ensures var st' := CloseBlock(st, r, target, prefix);
      && Ready(st') && st'.varEnv == st.varEnv && st'.globals == st.globals && LastRef(st') == BlockRef(LastRef(st).fn, LastRef(st).block + 1)
  {
    var st1 := ReserveInstr(st);
    InsertPlain(st1, st.instrId, r, target);
    hide InsertJump;
    var st2 := InsertJump(st1, st.instrId, r, target);
    assert LastRef(AddBlock(st2, prefix)) == BlockRef(LastRef(st2).fn, LastRef(st2).block + 1);
  }

  lemma InsertPlain(st: State, id: nat, r: BlockRef, target: BlockRef)
    requires HasBlock(st)
    ensures var st' := InsertJump(st, id, r, target); HasBlock(st') && LastRef(st') == LastRef(st) && st'.globals == st.globals
  {
    if IsBlock(st, r) { AppendPlaces(st, r, Instruction(id, Jump, [Label(target)], None)); }
  }

  lemma OperandsPlain(st: State, r: BlockRef, i: nat, os: seq<Operand>)
    requires HasBlock(st)
    ensures var st' := AddOperands(st, r, i, os); st'.varEnv == st.varEnv && LastRef(st') == LastRef(st)
  {}

  lemma BlockPlain(st: State, prefix: string)
    requires Ready(st)
    ensures var st' := AddBlock(st, prefix); Ready(st') && st'.varEnv == st.varEnv && st'.globals == st.globals
  {}

  /** Up to the first block of the body, and the rest of the loop. */
  lemma LoopHead(order: Order, st: State)
    requires Ready(st) && IsOrder(order)
    ensures var st1 := EnterBlock(st, "loop_cond");
      && Plainly(st1, VisitCondition(st1, TRUE))
      && var st3 := AddBlock(VisitCondition(st1, TRUE).value, "loop_expr");
      && Plainly(st3, VisitStmt(order, st3, ExprStmt(TRUE)))
      && var st5 := CloseBlock(VisitStmt(order, st3, ExprStmt(TRUE)).value, LastRef(st3), LastRef(st1), "loop_body");
         Ready(st5) && st5.varEnv == st.varEnv && st5.globals == st.globals
  {
    hide VisitCondition, EnterBlock, AddBlock, CloseBlock, VisitStmt;
    EnterPlain(st, "loop_cond");
    var st1 := EnterBlock(st, "loop_cond");
    TestPlain(st1);
    var st2 := VisitCondition(st1, TRUE).value;
    BlockPlain(st2, "loop_expr");
    var st3 := AddBlock(st2, "loop_expr");
    TrueLowers(order, st3);
    ClosePlain(VisitStmt(order, st3, ExprStmt(TRUE)).value, LastRef(st3), LastRef(st1), "loop_body");
  }

  lemma LoopTail(order: Order, st: State, x: string, step: BlockRef, branch: BlockRef, place: nat)
    requires Ready(st) && IsOrder(order) && x !in st.globals && Find(st.varEnv, x).Some?
    ensures VisitInNewEnv(order, st, [ExprStmt(Identifier(x))]).Some?
    ensures var st6 := CloseBlock(VisitInNewEnv(order, st, [ExprStmt(Identifier(x))]).value.0, LastRef(st), step, "loop_merge");
      var st' := AddOperands(st6, branch, place, [Label(LastRef(st)), Label(LastRef(st6))]);
      var here := LastRef(st');
      Find(st'.varEnv, x).Some? && here.block > 0 && Find(st'.varEnv, x).value.block == BlockRef(here.fn, here.block - 1)
  {
    hide Find, CloseBlock, VisitInNewEnv, AddOperands, Scopes.Update;
    BodyReads(order, st, x);
    var visited := VisitInNewEnv(order, st, [ExprStmt(Identifier(x))]).value.0;
    ClosePlain(visited, LastRef(st), step, "loop_merge");
    var st6 := CloseBlock(visited, LastRef(st), step, "loop_merge");
    OperandsPlain(st6, branch, place, [Label(LastRef(st)), Label(LastRef(st6))]);
    FindUpdate(st.varEnv, x, Site(LastRef(st), st.varId), x);
  }

  /** Behind the loop the name stands for a variable of the loop's body, one block before the one
      in which lowering goes on; a loop whose test fails at once never comes there. */
  lemma LoopName(order: Order, st: State, x: string)
    requires Ready(st) && IsOrder(order) && x !in st.globals && Find(st.varEnv, x).Some?
    ensures VisitStmt(order, st, ReadingLoop(x)).Some?
    ensures var st' := VisitStmt(order, st, ReadingLoop(x)).value; var here := LastRef(st');
      Find(st'.varEnv, x).Some? && here.block > 0 && Find(st'.varEnv, x).value.block == BlockRef(here.fn, here.block - 1)
  {
    hide Find, VisitCondition, EnterBlock, AddBlock, CloseBlock, VisitInNewEnv, AddOperands, VisitExpr, VisitLoop;
    TrueLowers(order, st);
    var st0 := VisitStmt(order, st, ExprStmt(TRUE)).value;
    assert VisitStmt(order, st, ReadingLoop(x)) == VisitLoop(order, st0, ReadingLoop(x));
    hide VisitStmt;
    LoopNameInside(order, st0, x);
  }

  lemma LoopNameInside(order: Order, st: State, x: string)
    requires Ready(st) && IsOrder(order) && x !in st.globals && Find(st.varEnv, x).Some?
    ensures VisitLoop(order, st, ReadingLoop(x)).Some?
    ensures var st' := VisitLoop(order, st, ReadingLoop(x)).value; var here := LastRef(st');
      Find(st'.varEnv, x).Some? && here.block > 0 && Find(st'.varEnv, x).value.block == BlockRef(here.fn, here.block - 1)
  {
    var st1 := EnterBlock(st, "loop_cond");
    LoopHead(order, st);
    assert VisitCondition(st1, TRUE).Some?;
    var st2 := VisitCondition(st1, TRUE).value;
    assert Ready(st2);
    var st3 := AddBlock(st2, "loop_expr");
    assert Ready(st3) && VisitStmt(order, st3, ExprStmt(TRUE)).Some?;
    hide *;
    var st5 := CloseBlock(VisitStmt(order, st3, ExprStmt(TRUE)).value, LastRef(st3), LastRef(st1), "loop_body");
    LoopTail(order, st5, x, LastRef(st3), LastRef(st2), |Instructions(st2, LastRef(st2))| - 1);
    LoopIs(order, st, ReadingLoop(x), st1, st2, st3, st5);
  }

  /** The parts of a loop whose parts are lowered. */
  lemma LoopIs(order: Order, st: State, s: Stmt, st1: State, st2: State, st3: State, st5: State)
    requires Ready(st) && IsOrder(order) && s.Loop? && s.test.Some? && s.post.Some?
    requires st1 == EnterBlock(st, "loop_cond") && VisitCondition(st1, s.test.value) == Some(st2) && Ready(st2)
    requires st3 == AddBlock(st2, "loop_expr") && Ready(st3) && VisitStmt(order, st3, s.post.value).Some?
    requires st5 == CloseBlock(VisitStmt(order, st3, s.post.value).value, LastRef(st3), LastRef(st1), "loop_body") && Ready(st5)
    requires VisitInNewEnv(order, st5, s.body).Some?
    ensures |Instructions(st2, LastRef(st2))| > 0
    ensures var st6 := CloseBlock(VisitInNewEnv(order, st5, s.body).value.0, LastRef(st5), LastRef(st3), "loop_merge");
      VisitLoop(order, st, s) ==
        Some(AddOperands(st6, LastRef(st2), |Instructions(st2, LastRef(st2))| - 1, [Label(LastRef(st5)), Label(LastRef(st6))]))
  {
    hide VisitCondition, EnterBlock, AddBlock, CloseBlock, VisitInNewEnv, AddOperands, VisitStmt;
  }

  /** The loop's body touches the name wherever it is found. */
  lemma ReadingTouches(ns: Names, globals: set<string>, x: string)
    requires ns != [] && Home(ns, x).Some? && x !in globals
    ensures !Untouched(ns, globals, ExprStmt(TRUE), [ExprStmt(Identifier(x))], x)
  {
    var inside := ns + [{}];
    assert inside[..|ns|] == ns;
    assert Home(inside, x) == Home(ns, x);
    assert ListTouches(inside, globals, []) == {};
    var body := [ExprStmt(Identifier(x))];
    assert body[1..] == [];
    assert StmtTouches(inside, globals, body[0]) == {(Home(ns, x).value, x)};
    assert ListTouches(inside, globals, body) == {(Home(ns, x).value, x)};
  }

  /** So behind the loop it stands for another variable than behind the test. */
  lemma LoopNameMoves(order: Order, st: State, ix: Index, x: string)
    requires Inv(st, ix) && Ready(st) && IsOrder(order) && x !in st.globals && Find(st.varEnv, x).Some?
    ensures VisitLoop(order, st, ReadingLoop(x)).Some? && LoopParts(order, st, ReadingLoop(x)).Some?
    ensures Find(VisitLoop(order, st, ReadingLoop(x)).value.varEnv, x) != Find(LoopParts(order, st, ReadingLoop(x)).value.tested.varEnv, x)
  {
    HomeFinds(st.varEnv, x);
    ReadingTouches(NamesOf(st.varEnv), st.globals, x);
    LoopNameInside(order, st, x);
    hide Inv, VisitLoop, LoopParts, Untouched, Find;
    LoopKeepsExactly(order, st, ix, ReadingLoop(x), x);
  }

  // ---- A right term that never reaches the merge block ------------------------------------

  lemma LogicalLowers(st: State, op: InfixOp, l: Expr, r: Expr)
    requires Ready(st) && (op == And || op == Or)
    requires var st1 := EnterBlock(st, LogicalName(op) + "_left_term"); VisitExpr(st1, l).Some? && RequireLastVar(VisitExpr(st1, l).value).Some?
    requires VisitLeftTerm(st, op, l).Some? ==>
      var st1 := AddBlock(VisitLeftTerm(st, op, l).value.st, LogicalName(op) + "_right_term");
      VisitExpr(st1, r).Some? && RequireLastVar(VisitExpr(st1, r).value).Some?
    ensures VisitLogical(st, op, l, r).Some? && VisitExpr(st, Infix(op, l, r)) == VisitLogical(st, op, l, r)
  {
    hide VisitExpr, RequireLastVar, EnterBlock, AddBlock, EmitResult, FinishLogical, LogicalName;
    assert VisitExpr(st, Infix(op, l, r)) == VisitLogical(st, op, l, r) by { LogicalIs(st, op, l, r); }
  }

  lemma LogicalIs(st: State, op: InfixOp, l: Expr, r: Expr)
    requires Ready(st) && (op == And || op == Or)
    ensures VisitExpr(st, Infix(op, l, r)) == VisitLogical(st, op, l, r)
  {
    hide VisitLogical;
  }

  lemma TrueHasValue(st: State)
    requires Ready(st)
    ensures VisitExpr(st, TRUE).Some? && RequireLastVar(VisitExpr(st, TRUE).value).Some?
  {}

  lemma TrueLogical(st: State, ix: Index, op: InfixOp)
    requires Inv(st, ix) && Ready(st) && (op == And || op == Or)
    ensures VisitExpr(st, Infix(op, TRUE, TRUE)).Some? && RequireLastVar(VisitExpr(st, Infix(op, TRUE, TRUE)).value).Some?
  {
    hide VisitExpr, VisitLogical, Inv, EnterBlock, AddBlock, LogicalName, VisitLeftTerm, RequireLastVar;
    TrueHasValue(EnterBlock(st, LogicalName(op) + "_left_term"));
    if VisitLeftTerm(st, op, TRUE).Some? { TrueHasValue(AddBlock(VisitLeftTerm(st, op, TRUE).value.st, LogicalName(op) + "_right_term")); }
    LogicalLowers(st, op, TRUE, TRUE);
    LogicalHasValue(st, ix, op, TRUE, TRUE);
  }

  lemma LogicalHasValue(st: State, ix: Index, op: InfixOp, l: Expr, r: Expr)
    requires Inv(st, ix) && Ready(st) && (op == And || op == Or) && VisitLogical(st, op, l, r).Some?
    ensures RequireLastVar(VisitLogical(st, op, l, r).value).Some?
  {
    hide VisitExpr, VisitLogical, Inv, VisitLeftTerm, RightTerm, JumpsTo, Chooses;
    LogicalFlow(st, ix, op, l, r);
  }

  /** `true || true && true` */
  function NestedOr(): (e: Expr)
    ensures e == Infix(Or, TRUE, Infix(And, TRUE, TRUE))
  {
    Infix(Or, TRUE, Infix(And, TRUE, TRUE))
  }

  lemma NestedOrLowers(st: State, ix: Index)
    requires Inv(st, ix) && Ready(st)
    ensures VisitLogical(st, Or, TRUE, Infix(And, TRUE, TRUE)).Some? && VisitExpr(st, NestedOr()) == VisitLogical(st, Or, TRUE, Infix(And, TRUE, TRUE))
  {
    TrueHasValue(EnterBlock(st, LogicalName(Or) + "_left_term"));
    hide VisitExpr, VisitLogical, Inv, EnterBlock, AddBlock, LogicalName, VisitLeftTerm, LeftOk, Step;
    if VisitLeftTerm(st, Or, TRUE).Some? {
      var t := VisitLeftTerm(st, Or, TRUE).value;
      var ix1 := LeftTermKeeps(st, ix, Or, TRUE);
      KeptRefl(t.st, ix1);
      NewBlockKept(t.st, ix1, t.st, ix1, LogicalName(Or) + "_right_term");
      TrueLogical(AddBlock(t.st, LogicalName(Or) + "_right_term"), ix1, And);
    }
    LogicalLowers(st, Or, TRUE, Infix(And, TRUE, TRUE));
  }

  /** The merge block of the inner operator does not go on to the one of the outer operator. */
  lemma NestedOrOpen(st: State, ix: Index)
    requires Inv(st, ix) && Ready(st)
    ensures VisitExpr(st, NestedOr()).Some? && VisitLeftTerm(st, Or, TRUE).Some?
    ensures VisitExpr(AddBlock(VisitLeftTerm(st, Or, TRUE).value.st, LogicalName(Or) + "_right_term"), Infix(And, TRUE, TRUE)).Some?
    ensures var st2 := VisitExpr(AddBlock(VisitLeftTerm(st, Or, TRUE).value.st, LogicalName(Or) + "_right_term"), Infix(And, TRUE, TRUE)).value;
      var st' := VisitExpr(st, NestedOr()).value;
      !JumpsTo(st', LastRef(st2), LastRef(st'))
  {
    assert !OneBlockExpr(Infix(And, TRUE, TRUE));
    hide *;
    NestedOrLowers(st, ix);
    RightReachesMerge(st, ix, Or, TRUE, Infix(And, TRUE, TRUE));
  }

  // ---- A body that never reaches the step -------------------------------------------------

  /** `loop true; true; true { if true {} }` */
  function BranchingLoop(): (s: Stmt)
    ensures s.Loop? && s.first == Some(ExprStmt(TRUE)) && s.test == Some(TRUE) && s.post == Some(ExprStmt(TRUE)) && s.body == [EmptyIf(NoElse)]
  {
    Loop(Some(ExprStmt(TRUE)), Some(TRUE), Some(ExprStmt(TRUE)), [EmptyIf(NoElse)])
  }

  lemma BranchingBody(order: Order, st: State)
    requires Ready(st) && IsOrder(order)
    ensures VisitInNewEnv(order, st, [EmptyIf(NoElse)]).Some?
  {
    hide VisitStmt;
    var st1 := PushEnv(st);
    EmptyIfLowers(order, st1, NoElse);
    var st2 := VisitStmt(order, st1, EmptyIf(NoElse)).value;
    assert [EmptyIf(NoElse)][1..] == [];
    assert VisitList(order, st2, []) == Some(st2);
    assert VisitList(order, st1, [EmptyIf(NoElse)]) == Some(st2);
  }

  lemma BranchingLoopLowers(order: Order, st: State)
    requires Ready(st) && IsOrder(order)
    ensures VisitLoop(order, st, BranchingLoop()).Some?
  {
    var st1 := EnterBlock(st, "loop_cond");
    LoopHead(order, st);
    assert VisitCondition(st1, TRUE).Some?;
    var st2 := VisitCondition(st1, TRUE).value;
    assert Ready(st2);
    var st3 := AddBlock(st2, "loop_expr");
    assert Ready(st3) && VisitStmt(order, st3, ExprStmt(TRUE)).Some?;
    hide *;
    var st5 := CloseBlock(VisitStmt(order, st3, ExprStmt(TRUE)).value, LastRef(st3), LastRef(st1), "loop_body");
    BranchingBody(order, st5);
    LoopIs(order, st, BranchingLoop(), st1, st2, st3, st5);
  }

  lemma BranchingBlocks()
    ensures !OneBlock(BranchingLoop().body)
  {}

  /** The block behind the `if` does not go on to the step. */
  lemma BranchingLoopOpen(order: Order, st: State, ix: Index)
    requires Inv(st, ix) && Ready(st) && IsOrder(order)
    ensures VisitLoop(order, st, BranchingLoop()).Some? && LoopParts(order, st, BranchingLoop()).Some?
    ensures var p := LoopParts(order, st, BranchingLoop()).value;
      !JumpsTo(VisitLoop(order, st, BranchingLoop()).value, LastRef(p.left), StepBlock(p))
  {
    hide *;
    BranchingBlocks();
    BranchingLoopLowers(order, st);
    LoopReachesStep(order, st, ix, BranchingLoop());
  }
}
