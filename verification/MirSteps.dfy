/** The factory operations on names, jumps and environments keep the SSA shape. */
module MirSteps {
  import opened Ast
  import opened Scopes
  import opened Mir
  import opened MirFactory
  import opened MirLabels
  import opened MirShape

  // ---- Operands ---------------------------------------------------------------------------

  /** A defined variable may be an operand of the next instruction. */
  ghost predicate Usable(st: State, ix: Index, fn: nat, o: Operand) {
    && !o.NullLocal? && (o.Local? || o.PhiArg? ==> o.v in ix.def)
    && (o.PhiArg? ==> IsBlock(st, o.block) && ComputedIn(ix, o.v, o.block))
    && (o.Label? ==> IsBlock(st, o.target) && o.target.fn == fn)
  }

  lemma UsableOperands(st: State, ix: Index, fn: nat, os: seq<Operand>)
    requires Inv(st, ix) && forall k :: 0 <= k < |os| ==> Usable(st, ix, fn, os[k])
    ensures OperandsOk(st, ix, fn, st.instrId, os) && NoNulls(os)
  {
    Fresh(st, ix);
    hide Inv, IsBlock;
    forall k | 0 <= k < |os| ensures OperandOk(st, ix, fn, st.instrId, os[k]) {
      assert Usable(st, ix, fn, os[k]);
    }
  }

  lemma LastVarDefined(st: State, ix: Index)
    requires Inv(st, ix) && RequireLastVar(st).Some?
    ensures RequireLastVar(st).value in ix.def
  {
    var r := LastRef(st);
    var i := |Instructions(st, r)| - 1;
    assert IsPlace(st, r, i);
    hide OperandsOk;
    assert InstrOk(st, ix, r, i);
  }

  // ---- Environments -----------------------------------------------------------------------

  lemma {:induction false} FindOk(st: State, ix: Index, env: Stack<Site>, k: string)
    requires EnvOk(st, ix, env) && Find(env, k).Some?
    ensures SiteOk(st, ix, Find(env, k).value)
  {
    var n := |env| - 1;
    hide SiteOk;
    assert LayerOk(st, ix, env[n]);
    if k !in env[n] { FindOk(st, ix, env[..n], k); }
  }

  lemma InsertOk(st: State, ix: Index, env: Stack<Site>, k: string, s: Site)
    requires EnvOk(st, ix, env) && SiteOk(st, ix, s) && env != []
    ensures EnvOk(st, ix, Insert(env, k, s))
  {
    hide SiteOk;
    assert LayerOk(st, ix, env[|env| - 1]);
  }

  lemma {:induction false} UpdateOk(st: State, ix: Index, env: Stack<Site>, k: string, s: Site)
    requires EnvOk(st, ix, env) && SiteOk(st, ix, s) && Find(env, k).Some?
    ensures EnvOk(st, ix, Scopes.Update(env, k, s))
  {
    var n := |env| - 1;
    hide SiteOk;
    assert LayerOk(st, ix, env[n]);
    if k !in env[n] { UpdateOk(st, ix, env[..n], k, s); }
  }

  lemma PushKeeps(st0: State, ix0: Index, st: State, ix: Index)
    requires Inv(st, ix) && Step(st0, ix0, st, ix)
    ensures Inv(PushEnv(st), ix) && Step(st0, ix0, PushEnv(st), ix)
  {
    hide LabelsOk, CodeOk, Step, SiteOk;
    assert EnvOk(st, ix, PushEnv(st).varEnv);
    SetEnvKeeps(st0, ix0, st, ix, PushEnv(st));
  }

  lemma PopKeeps(st0: State, ix0: Index, st: State, ix: Index)
    requires Inv(st, ix) && Step(st0, ix0, st, ix) && PopEnv(st).Some?
    ensures Inv(PopEnv(st).value, ix) && Step(st0, ix0, PopEnv(st).value, ix)
  {
    hide LabelsOk, CodeOk, Step, SiteOk;
    assert EnvOk(st, ix, PopEnv(st).value.varEnv);
    SetEnvKeeps(st0, ix0, st, ix, PopEnv(st).value);
  }

  // ---- Names ------------------------------------------------------------------------------

  lemma AddUpdateKeeps(st0: State, ix0: Index, st: State, ix: Index, name: string, v: VarId) returns (ix': Index)
    requires Inv(st, ix) && Step(st0, ix0, st, ix) && HasBlock(st0) && HasBlock(st) && v in ix.def
    requires AddUpdate(st, name, v).Some?
    ensures Inv(AddUpdate(st, name, v).value, ix') && Step(st0, ix0, AddUpdate(st, name, v).value, ix') && Extends(ix, ix')
  {
    hide LabelsOk, CodeOk, Step, SiteOk, OperandsOk, Extends;
    var st1 := EmitResult(st, Opcode.Update, [Local(v)]);
    UsableOperands(st, ix, LastRef(st).fn, [Local(v)]);
    ix' := EmitResultKeeps(st0, ix0, st, ix, Opcode.Update, [Local(v)]);
    EmitFrame(CreateVar(st), Opcode.Update, [Local(v)], Some(st.varId));
    hide Emit;
    UpdateOk(st1, ix', st1.varEnv, name, Site(LastRef(st), st.varId));
    SetEnvKeeps(st0, ix0, st1, ix', AddUpdate(st, name, v).value);
  }

  lemma AddVariableRefKeeps(st0: State, ix0: Index, st: State, ix: Index, name: string) returns (ix': Index)
    requires Inv(st, ix) && Step(st0, ix0, st, ix) && HasBlock(st0) && HasBlock(st)
    requires AddVariableRef(st, name).Some?
    ensures var st' := AddVariableRef(st, name).value; Inv(st', ix') && Step(st0, ix0, st', ix') && Extends(ix, ix')
  {
    hide LabelsOk, CodeOk, Step, OperandsOk, Extends, AddUpdate, EmitResult;
    if name in st.globals {
      UsableOperands(st, ix, LastRef(st).fn, [Global(name)]);
      ix' := EmitResultKeeps(st0, ix0, st, ix, Load, [Global(name)]);
    } else {
      FindOk(st, ix, st.varEnv, name);
      ix' := AddUpdateKeeps(st0, ix0, st, ix, name, Find(st.varEnv, name).value.v);
    }
  }

  /** A binding, apart from the environment. */
  function BindCode(st: State, v: VarId): State
    requires HasBlock(st)
  {
    var st1 := EmitResult(st, Bind, [Local(v)]);
    var f := LastFunction(st1);
    st1.(functions := st1.functions[|st1.functions| - 1 := f.(locals := f.locals + [st.varId])])
  }

  lemma BindCodeKeeps(st0: State, ix0: Index, st: State, ix: Index, v: VarId) returns (ix': Index)
    requires Inv(st, ix) && Step(st0, ix0, st, ix) && HasBlock(st0) && HasBlock(st) && v in ix.def
    ensures var st' := BindCode(st, v);
      && Inv(st', ix') && Step(st0, ix0, st', ix') && Extends(ix, ix')
      && SiteOk(st', ix', Site(LastRef(st), st.varId))
  {
    var st1, st' := EmitResult(st, Bind, [Local(v)]), BindCode(st, v);
    EmitFrame(CreateVar(st), Bind, [Local(v)], Some(st.varId));
    assert SameCode(st1, st') by { hide Emit; }
    assert LabelsOk(st1) ==> LabelsOk(st') by {
      hide Emit, LabelsOk;
      assert forall r :: IsBlock(st', r) ==> IsBlock(st1, r) && BlockName(st', r) == BlockName(st1, r);
      if LabelsOk(st1) { SameLabels(st1, st'); }
    }
    assert IsBlock(st', LastRef(st));
    hide LabelsOk, CodeOk, Step, OperandsOk, Extends, Emit, SameCode, IsBlock;
    UsableOperands(st, ix, LastRef(st).fn, [Local(v)]);
    ix' := EmitResultKeeps(st0, ix0, st, ix, Bind, [Local(v)]);
    GrowKeeps(st0, ix0, st1, ix', st');
  }

  lemma VarBindKeeps(st0: State, ix0: Index, st: State, ix: Index, name: string, v: VarId) returns (ix': Index)
    requires Inv(st, ix) && Step(st0, ix0, st, ix) && HasBlock(st0) && HasBlock(st) && v in ix.def
    requires st.varEnv != [] && VarBind(st, name, v).Some?
    ensures var st' := VarBind(st, name, v).value; Inv(st', ix') && Step(st0, ix0, st', ix') && Extends(ix, ix')
  {
    ix' := BindCodeKeeps(st0, ix0, st, ix, v);
    var st1, st' := BindCode(st, v), VarBind(st, name, v).value;
    EmitFrame(CreateVar(st), Bind, [Local(v)], Some(st.varId));
    assert st' == st1.(varEnv := st'.varEnv) && st1.varEnv == st.varEnv;
    assert st'.varEnv == Insert(st.varEnv, name, Site(LastRef(st), st.varId));
    hide LabelsOk, CodeOk, Step, SiteOk, Emit, EmitResult, VarBind, BindCode;
    InsertOk(st1, ix', st1.varEnv, name, Site(LastRef(st), st.varId));
    SetEnvKeeps(st0, ix0, st1, ix', st');
  }

  lemma AddCallKeeps(st0: State, ix0: Index, st: State, ix: Index, name: string, args: seq<VarId>) returns (ix': Index)
    requires Inv(st, ix) && Step(st0, ix0, st, ix) && HasBlock(st0) && HasBlock(st)
    requires (forall k :: 0 <= k < |args| ==> args[k] in ix.def) && AddCall(st, name, args).Some?
    ensures var st' := AddCall(st, name, args).value; Inv(st', ix') && Step(st0, ix0, st', ix') && Extends(ix, ix')
  {
    Fresh(st, ix);
    hide Inv, Step, Extends, Emit;
    ix' := EmitKeeps(st0, ix0, st, ix, CallOp, CallOperands(name, args), None);
  }

  function ParamIndex(st: State, ix: Index): Index
    requires HasFunction(st)
  {
    ix.(def := ix.def[st.varId := Parameter(|st.functions| - 1, |LastFunction(st).params|)])
  }

  lemma AddParamPlaces(st: State)
    requires HasFunction(st)
    ensures var st' := AddParam(st); var f, p := |st.functions| - 1, |LastFunction(st).params|;
      && (forall q :: IsBlock(st', q) <==> IsBlock(st, q))
      && (forall q :: IsBlock(st, q) ==> Instructions(st', q) == Instructions(st, q))
      && (forall q, i: nat :: IsPlace(st', q, i) <==> IsPlace(st, q, i))
      && (forall q, i: nat :: IsPlace(st, q, i) ==> Get(st', q, i) == Get(st, q, i))
      && (forall g: nat, k: nat :: IsParam(st', g, k) <==> IsParam(st, g, k) || (g == f && k == p))
      && (forall g: nat, k: nat :: IsParam(st, g, k) ==> st'.functions[g].params[k] == st.functions[g].params[k])
      && IsParam(st', f, p) && st'.functions[f].params[p] == st.varId
      && st'.instrId == st.instrId && st'.varId == st.varId + 1 && st'.blockId == st.blockId && st'.varEnv == st.varEnv
      && |st'.functions| == |st.functions|
  {}

  lemma AddParamInstrs(st: State, ix: Index)
    requires Inv(st, ix) && HasFunction(st)
    ensures PlacesOk(AddParam(st), ParamIndex(st, ix)) && EnvOk(AddParam(st), ParamIndex(st, ix), st.varEnv)
    ensures Increasing(AddParam(st))
  {
    var st', ix' := AddParam(st), ParamIndex(st, ix);
    Fresh(st, ix);
    AddParamPlaces(st);
    hide AddParam, Get, IsPlace, IsBlock, IsParam, OperandsOk, IndexOk, ParamsOk;
    EnvStep(st, ix, st', ix', st.varEnv);
    forall r, i: nat | IsPlace(st', r, i) ensures InstrOk(st', ix', r, i) {
      assert InstrOk(st, ix, r, i);
      OperandsStep(st, ix, st', ix', r.fn, Get(st, r, i).id, Get(st, r, i).operands);
    }
  }

  lemma AddParamIndex(st: State, ix: Index)
    requires Inv(st, ix) && HasFunction(st)
    ensures IndexOk(AddParam(st), ParamIndex(st, ix)) && ParamsOk(AddParam(st), ParamIndex(st, ix))
  {
    var st', ix' := AddParam(st), ParamIndex(st, ix);
    Fresh(st, ix);
    AddParamPlaces(st);
    hide AddParam, Get, IsPlace, IsBlock, IsParam, OperandsOk, PlacesOk, Increasing, EnvOk, LabelsOk;
    forall n | n in ix'.at ensures AtOk(st', ix', n) {
      assert AtOk(st, ix, n);
    }
    AddParamDef(st, ix);
    hide DefOk;
  }

  lemma AddParamDef(st: State, ix: Index)
    requires IndexOk(st, ix) && HasFunction(st) && st.varId !in ix.def
    ensures var st', ix' := AddParam(st), ParamIndex(st, ix); forall v :: v in ix'.def ==> DefOk(st', ix', v)
  {
    var st', ix' := AddParam(st), ParamIndex(st, ix);
    AddParamPlaces(st);
    hide AddParam, Get, IsPlace, IsBlock, IsParam, OperandsOk;
    forall v | v in ix'.def ensures DefOk(st', ix', v) {
      if v != st.varId { assert DefOk(st, ix, v); }
    }
  }

  lemma AddParamKeeps(st0: State, ix0: Index, st: State, ix: Index) returns (ix': Index)
    requires Inv(st, ix) && Step(st0, ix0, st, ix) && HasFunction(st)
    ensures Inv(AddParam(st), ix') && Step(st0, ix0, AddParam(st), ix') && st.varId in ix'.def
  {
    hide PlacesOk, IndexOk, ParamsOk, Increasing, EnvOk;
    ix' := ParamIndex(st, ix);
    Fresh(st, ix);
    AddParamPlaces(st);
    AddParamInstrs(st, ix);
    AddParamIndex(st, ix);
    SameLabels(st, AddParam(st));
    hide LabelsOk, AddParam, Instructions, IsBlock, IsPlace, Get;
  }

  // ---- Jumps that are inserted later ------------------------------------------------------

  /** A jump with the reserved `id` may still be put at the end of block `r`. */
  ghost predicate Pending(st: State, ix: Index, id: nat, r: BlockRef) {
    && IsBlock(st, r) && id !in ix.at && id < st.instrId
    && forall i: nat :: IsPlace(st, r, i) ==> Get(st, r, i).id < id
  }

  lemma ReservePending(st: State, ix: Index, r: BlockRef)
    requires Inv(st, ix) && IsBlock(st, r)
    ensures Pending(ReserveInstr(st), ix, st.instrId, r)
  {
    Fresh(st, ix);
    assert forall i: nat :: IsPlace(ReserveInstr(st), r, i) ==> IsPlace(st, r, i) && Get(ReserveInstr(st), r, i) == Get(st, r, i);
    hide Inv;
  }

  lemma PendingSameCode(st: State, ix: Index, st': State, id: nat, r: BlockRef)
    requires Pending(st, ix, id, r) && SameCode(st, st') && st'.instrId >= st.instrId
    ensures Pending(st', ix, id, r)
  {
    hide IsPlace, Get, IsBlock;
  }

  lemma InstrPersists(a: State, ia: Index, b: State, ib: Index, r: BlockRef, i: nat)
    requires Inv(a, ia) && Inv(b, ib) && Step(a, ia, b, ib) && IsPlace(a, r, i)
    ensures IsPlace(b, r, i) && Get(b, r, i).id == Get(a, r, i).id
  {
    hide IsPlace, Get, IsBlock, OperandsOk, Increasing;
    assert InstrOk(a, ia, r, i);
    assert AtOk(b, ib, Get(a, r, i).id);
  }

  /** It stays so while other blocks grow. */
  lemma PendingStep(a: State, ia: Index, b: State, ib: Index, id: nat, r: BlockRef)
    requires Inv(a, ia) && Inv(b, ib) && Step(a, ia, b, ib) && HasBlock(a) && r != LastRef(a)
    requires Pending(a, ia, id, r)
    ensures Pending(b, ib, id, r)
  {
    assert IsBlock(b, r) && |Instructions(b, r)| == |Instructions(a, r)|;
    assert id !in ib.at;
    assert a.instrId <= b.instrId;
    hide Inv, Step;
    forall i: nat | IsPlace(b, r, i) ensures Get(b, r, i).id < id {
      assert IsPlace(a, r, i);
      InstrPersists(a, ia, b, ib, r, i);
    }
  }

  lemma InsertJumpKeeps(st0: State, ix0: Index, st: State, ix: Index, id: nat, r: BlockRef, target: BlockRef) returns (ix': Index)
    requires Inv(st, ix) && Step(st0, ix0, st, ix) && Pending(st, ix, id, r) && id >= st0.instrId
    requires !IsBlock(st0, r) || (HasBlock(st0) && r == LastRef(st0))
    requires IsBlock(st, target) && target.fn == r.fn
    ensures var st' := InsertJump(st, id, r, target);
      Inv(st', ix') && Step(st0, ix0, st', ix') && st'.varEnv == st.varEnv && Extends(ix, ix')
    ensures forall k: nat, q :: Pending(st, ix, k, q) && q != r && k != id ==> Pending(InsertJump(st, id, r, target), ix', k, q)
  {
    hide Inv, Step;
    var jump := Instruction(id, Jump, [Label(target)], None);
    assert Fits(st, ix, r, jump);
    ix' := AppendKeeps(st0, ix0, st, ix, r, jump);
    AppendPlaces(st, r, jump);
    assert Append(st, r, jump).instrId == st.instrId && Append(st, r, jump).varEnv == st.varEnv;
    hide Append, IsPlace, Get, IsBlock;
  }

  /** Two branches jump to where they meet again. */
  lemma TwoJumpsKeep(st0: State, ix0: Index, st: State, ix: Index, i1: nat, r1: BlockRef, i2: nat, r2: BlockRef, target: BlockRef)
    returns (ix': Index)
    requires Inv(st, ix) && Step(st0, ix0, st, ix) && Pending(st, ix, i1, r1) && Pending(st, ix, i2, r2)
    requires i1 >= st0.instrId && i2 >= st0.instrId && i1 != i2 && r1 != r2
    requires !IsBlock(st0, r1) && !IsBlock(st0, r2)
    requires IsBlock(st, target) && target.fn == r1.fn == r2.fn
    ensures var st' := InsertJump(InsertJump(st, i1, r1, target), i2, r2, target);
      Inv(st', ix') && Step(st0, ix0, st', ix') && st'.varEnv == st.varEnv && Extends(ix, ix')
  {
    var st1 := InsertJump(st, i1, r1, target);
    SetPlaces(st, r1, Instructions(st, r1) + [Instruction(i1, Jump, [Label(target)], None)]);
    assert IsBlock(st1, target);
    hide Inv, Step, InsertJump, Pending, IsBlock;
    var ix1 := InsertJumpKeeps(st0, ix0, st, ix, i1, r1, target);
    ix' := InsertJumpKeeps(st0, ix0, st1, ix1, i2, r2, target);
  }

  // ---- Operands that are added later ------------------------------------------------------

  /** The instruction at this place comes after `v`. */
  ghost predicate Late(st: State, ix: Index, r: BlockRef, i: nat, v: VarId) {
    IsPlace(st, r, i) && DefinedBefore(ix, v, Get(st, r, i).id)
  }

  lemma LateStep(a: State, ia: Index, b: State, ib: Index, r: BlockRef, i: nat, v: VarId)
    requires Inv(a, ia) && Inv(b, ib) && Step(a, ia, b, ib) && Late(a, ia, r, i, v)
    ensures Late(b, ib, r, i, v)
  {
    InstrPersists(a, ia, b, ib, r, i);
    hide Inv;
  }

  // ---- Merging ----------------------------------------------------------------------------

  lemma MergeNameKeeps(st0: State, ix0: Index, st: State, ix: Index, first: Layer<Site>, second: Layer<Site>, k: string)
    returns (ix': Index)
    requires Inv(st, ix) && Step(st0, ix0, st, ix) && HasBlock(st0) && HasBlock(st)
    requires LayerOk(st, ix, first) && LayerOk(st, ix, second) && k in first && k in second
    ensures var st' := EmitResult(st, Phi, [PhiArg(first[k].block, first[k].v), PhiArg(second[k].block, second[k].v)]);
      && Inv(st', ix') && Step(st0, ix0, st', ix') && Extends(ix, ix') && HasBlock(st')
      && LayerOk(st', ix', first[k := first[k].(v := st.varId)]) && LayerOk(st', ix', second)
  {
    hide LabelsOk, CodeOk, Step, EnvOk, Extends, OperandsOk;
    var a, b := first[k], second[k];
    var os := [PhiArg(a.block, a.v), PhiArg(b.block, b.v)];
    var st' := EmitResult(st, Phi, os);
    assert SiteOk(st, ix, a) && SiteOk(st, ix, b);
    UsableOperands(st, ix, LastRef(st).fn, os);
    ix' := EmitResultKeeps(st0, ix0, st, ix, Phi, os);
    EmitFrame(CreateVar(st), Phi, os, Some(st.varId));
    EmitBlocks(st, Phi, os, None);
    hide EmitResult, IsBlock;
    LayerStep(st, ix, st', ix', first);
    LayerStep(st, ix, st', ix', second);
    assert SiteOk(st', ix', a.(v := st.varId));
  }

  lemma EmitBlocks(st: State, op: Opcode, operands: seq<Operand>, result: Option<VarId>)
    requires HasBlock(st)
    ensures forall q :: IsBlock(Emit(st, op, operands, result), q) <==> IsBlock(st, q)
    ensures forall q :: IsBlock(EmitResult(st, op, operands), q) <==> IsBlock(st, q)
  {}

  lemma LayerStep(a: State, ia: Index, b: State, ib: Index, layer: Layer<Site>)
    requires LayerOk(a, ia, layer) && Extends(ia, ib)
    requires forall r :: IsBlock(a, r) ==> IsBlock(b, r)
    ensures LayerOk(b, ib, layer)
  {
    EnvStep(a, ia, b, ib, [layer]);
    assert LayerOk(b, ib, [layer][0]);
  }

  lemma {:induction false} MergeLayerKeeps(st0: State, ix0: Index, st: State, ix: Index,
      first: Layer<Site>, second: Layer<Site>, keys: seq<string>) returns (ix': Index)
    requires Inv(st, ix) && Step(st0, ix0, st, ix) && HasBlock(st0) && HasBlock(st)
    requires LayerOk(st, ix, first) && LayerOk(st, ix, second) && forall k <- keys :: k in first
    ensures var r := MergeLayer(st, first, second, keys);
      && Inv(r.0, ix') && Step(st0, ix0, r.0, ix') && LayerOk(r.0, ix', r.1)
      && Extends(ix, ix') && (forall q :: IsBlock(st, q) ==> IsBlock(r.0, q))
    decreases keys
  {
    hide Inv, Step, LayerOk, IsBlock;
    ix' := ix;
    if keys != [] && keys[0] in second {
      var k := keys[0];
      var a, b := first[k], second[k];
      if a.v == b.v {
        ix' := MergeLayerKeeps(st0, ix0, st, ix, first, second, keys[1..]);
      } else {
        var os := [PhiArg(a.block, a.v), PhiArg(b.block, b.v)];
        var ix1 := MergeNameKeeps(st0, ix0, st, ix, first, second, k);
        EmitBlocks(st, Phi, os, None);
        hide EmitResult;
        ix' := MergeLayerKeeps(st0, ix0, EmitResult(st, Phi, os), ix1, first[k := a.(v := st.varId)], second, keys[1..]);
      }
    }
  }

  lemma {:induction false} MergeEnvsKeep(order: Order, st0: State, ix0: Index, st: State, ix: Index, e1: Stack<Site>, e2: Stack<Site>)
    returns (ix': Index)
    requires Inv(st, ix) && Step(st0, ix0, st, ix) && HasBlock(st0) && HasBlock(st) && IsOrder(order)
    requires EnvOk(st, ix, e1) && EnvOk(st, ix, e2)
    ensures var r := MergeEnvs(order, st, e1, e2);
      && Inv(r.0, ix') && Step(st0, ix0, r.0, ix') && EnvOk(r.0, ix', r.1)
      && Extends(ix, ix') && (forall q :: IsBlock(st, q) ==> IsBlock(r.0, q))
    decreases e1
  {
    hide Inv, Step, LayerOk, IsBlock, MergeLayer;
    ix' := ix;
    if e1 != [] && e2 != [] {
      var (st1, layer) := MergeLayer(st, e1[0], e2[0], order(st, |e1|, e1[0].Keys));
      assert LayerOk(st, ix, e1[0]) && LayerOk(st, ix, e2[0]);
      var ix1 := MergeLayerKeeps(st0, ix0, st, ix, e1[0], e2[0], order(st, |e1|, e1[0].Keys));
      assert EnvOk(st, ix, e1[1..]) && EnvOk(st, ix, e2[1..]);
      EnvStep(st, ix, st1, ix1, e1[1..]);
      EnvStep(st, ix, st1, ix1, e2[1..]);
      ix' := MergeEnvsKeep(order, st0, ix0, st1, ix1, e1[1..], e2[1..]);
      var (st2, rest) := MergeEnvs(order, st1, e1[1..], e2[1..]);
      LayerStep(st1, ix1, st2, ix', layer);
      ExtendsTrans(ix, ix1, ix');
      assert MergeEnvs(order, st, e1, e2) == (st2, [layer] + rest);
    }
  }

  lemma ExtendsTrans(a: Index, b: Index, c: Index)
    requires Extends(a, b) && Extends(b, c)
    ensures Extends(a, c)
  {}
}
