/** The SSA shape of a module under construction, and that the factory operations keep it.

    The invariant is stated through an index: the place of every instruction id, the
    origin of every variable, and which variables are results of PHIs. Because places and origins never change once they exist, the
    index only grows. */
module MirShape {
  import opened Ast
  import opened Scopes
  import opened Mir
  import opened MirFactory
  import opened MirLabels

  datatype Place = Place(r: BlockRef, i: nat)

  datatype Origin =
    | Parameter(fn: nat, index: nat)
    | Result(id: nat)

  datatype Index = Index(at: map<nat, Place>, def: map<VarId, Origin>, phis: set<VarId>)

  const EMPTY: Index := Index(map[], map[], {})

  function Age(o: Origin): int {
    if o.Parameter? then -1 else o.id
  }

  /** `v` is a parameter or the result of an instruction emitted before `id`. */
  ghost predicate DefinedBefore(ix: Index, v: VarId, id: int) {
    v in ix.def && Age(ix.def[v]) < id
  }

  /** `v` is computed by an instruction in block `b`, or by a PHI. */
  ghost predicate ComputedIn(ix: Index, v: VarId, b: BlockRef) {
    v in ix.def && ix.def[v].Result? && (v in ix.phis || (ix.def[v].id in ix.at && ix.at[ix.def[v].id].r == b))
  }

  // ---- The invariant ----------------------------------------------------------------------

  ghost predicate OperandOk(st: State, ix: Index, fn: nat, id: nat, o: Operand) {
    && (o.Local? || o.PhiArg? ==> DefinedBefore(ix, o.v, id))
    && (o.PhiArg? ==> IsBlock(st, o.block) && ComputedIn(ix, o.v, o.block))
    && (o.Label? ==> IsBlock(st, o.target) && o.target.fn == fn)
  }

  ghost predicate OperandsOk(st: State, ix: Index, fn: nat, id: nat, os: seq<Operand>) {
    forall k :: 0 <= k < |os| ==> OperandOk(st, ix, fn, id, os[k])
  }

  /** Only calls have null operands. */
  ghost predicate NoNulls(os: seq<Operand>) {
    forall k :: 0 <= k < |os| ==> !os[k].NullLocal?
  }

  /** The instruction at this place is the only one with its id and its result. */
  ghost predicate InstrOk(st: State, ix: Index, r: BlockRef, i: nat)
    requires IsPlace(st, r, i)
  {
    var x := Get(st, r, i);
    && x.id in ix.at && ix.at[x.id] == Place(r, i)
    && (x.result.Some? ==> x.result.value in ix.def && ix.def[x.result.value] == Result(x.id))
    && OperandsOk(st, ix, r.fn, x.id, x.operands)
    && (x.op != CallOp ==> NoNulls(x.operands))
  }

  ghost predicate AtOk(st: State, ix: Index, n: nat)
    requires n in ix.at
  {
    n < st.instrId && IsPlace(st, ix.at[n].r, ix.at[n].i) && Get(st, ix.at[n].r, ix.at[n].i).id == n
  }

  ghost predicate DefOk(st: State, ix: Index, v: VarId)
    requires v in ix.def
  {
    && v < st.varId
    && match ix.def[v]
       case Parameter(f, p) => IsParam(st, f, p) && st.functions[f].params[p] == v
       case Result(n) =>
         && n in ix.at && AtOk(st, ix, n) && Get(st, ix.at[n].r, ix.at[n].i).result == Some(v)
         && (v in ix.phis ==> Get(st, ix.at[n].r, ix.at[n].i).op == Phi)
  }

  predicate IsParam(st: State, f: nat, p: nat) {
    f < |st.functions| && p < |st.functions[f].params|
  }

  ghost predicate SiteOk(st: State, ix: Index, s: Site) {
    s.v in ix.def && IsBlock(st, s.block) && ComputedIn(ix, s.v, s.block)
  }

  ghost predicate LayerOk(st: State, ix: Index, layer: Layer<Site>) {
    forall k :: k in layer ==> SiteOk(st, ix, layer[k])
  }

  ghost predicate EnvOk(st: State, ix: Index, env: Stack<Site>) {
    forall i :: 0 <= i < |env| ==> LayerOk(st, ix, env[i])
  }

  /** Ids strictly increase inside each block. */
  ghost predicate Increasing(st: State) {
    forall r, i: nat, k: nat :: i < k && IsPlace(st, r, i) && IsPlace(st, r, k) ==> Get(st, r, i).id < Get(st, r, k).id
  }

  ghost predicate PlacesOk(st: State, ix: Index) {
    forall r, i: nat :: IsPlace(st, r, i) ==> InstrOk(st, ix, r, i)
  }

  ghost predicate IndexOk(st: State, ix: Index) {
    && (forall n :: n in ix.at ==> AtOk(st, ix, n))
    && (forall v :: v in ix.def ==> DefOk(st, ix, v))
  }

  ghost predicate ParamsOk(st: State, ix: Index) {
    forall f: nat, p: nat :: IsParam(st, f, p) ==>
      var v := st.functions[f].params[p]; v in ix.def && ix.def[v] == Parameter(f, p)
  }

  /** The invariant apart from the environment. */
  ghost predicate CodeOk(st: State, ix: Index) {
    PlacesOk(st, ix) && IndexOk(st, ix) && ParamsOk(st, ix) && Increasing(st)
  }

  ghost predicate Inv(st: State, ix: Index) {
    CodeOk(st, ix) && EnvOk(st, ix, st.varEnv) && LabelsOk(st)
  }

  // ---- What a step leaves alone -----------------------------------------------------------

  ghost predicate Extends(ia: Index, ib: Index) {
    && (forall n :: n in ia.at ==> n in ib.at && ib.at[n] == ia.at[n])
    && (forall v :: v in ia.def ==> v in ib.def && ib.def[v] == ia.def[v])
    && (forall v :: v in ia.def && v in ia.phis ==> v in ib.phis)
  }

  /** The index only grows, and only by ids and variables that were free in `a`. */
  ghost predicate IndexGrows(a: State, ia: Index, ib: Index) {
    && Extends(ia, ib)
    && (forall n :: n in ib.at && n !in ia.at ==> n >= a.instrId)
    && (forall v :: v in ib.def && v !in ia.def ==> v >= a.varId)
  }

  ghost predicate CountersGrow(a: State, b: State) {
    && a.instrId <= b.instrId && a.varId <= b.varId && a.blockId <= b.blockId
    && |a.functions| == |b.functions|
    && (forall r :: IsBlock(a, r) ==> IsBlock(b, r))
  }

  /** No block but the last one of `a` becomes longer. */
  ghost predicate OldBlocksKept(a: State, b: State) {
    forall r :: IsBlock(a, r) && IsBlock(b, r) && !(HasBlock(a) && r == LastRef(a)) ==>
      |Instructions(b, r)| == |Instructions(a, r)|
  }

  /** No instruction of `a` moves or changes. */
  ghost predicate InstrsKept(a: State, b: State) {
    forall r, i: nat :: IsPlace(a, r, i) ==> IsPlace(b, r, i) && Get(b, r, i) == Get(a, r, i)
  }

  ghost predicate Step(a: State, ia: Index, b: State, ib: Index) {
    IndexGrows(a, ia, ib) && CountersGrow(a, b) && OldBlocksKept(a, b) && InstrsKept(a, b)
  }

  lemma StepRefl(a: State, ia: Index)
    ensures Step(a, ia, a, ia)
  {}

  lemma StepTrans(a: State, ia: Index, b: State, ib: Index, c: State, ic: Index)
    requires Step(a, ia, b, ib) && Step(b, ib, c, ic) && HasBlock(a) && HasBlock(b)
    ensures Step(a, ia, c, ic)
  {
    assert IsBlock(b, LastRef(a)) by { assert IsBlock(a, LastRef(a)); }
  }

  // ---- Places -----------------------------------------------------------------------------

  lemma SetPlaces(st: State, r: BlockRef, ins: seq<Instruction>)
    requires IsBlock(st, r)
    ensures var st' := SetInstructions(st, r, ins);
      && |st'.functions| == |st.functions|
      && (forall q :: IsBlock(st', q) <==> IsBlock(st, q))
      && (forall q :: IsBlock(st, q) ==> Instructions(st', q) == if q == r then ins else Instructions(st, q))
      && (forall f: nat, p: nat :: IsParam(st', f, p) <==> IsParam(st, f, p))
      && (forall f: nat, p: nat :: IsParam(st, f, p) ==> st'.functions[f].params[p] == st.functions[f].params[p])
      && (HasBlock(st) ==> HasBlock(st') && LastRef(st') == LastRef(st))
  {}

  lemma SetLabels(st: State, r: BlockRef, ins: seq<Instruction>)
    requires IsBlock(st, r) && LabelsOk(st)
    ensures LabelsOk(SetInstructions(st, r, ins))
  {
    SameLabels(st, SetInstructions(st, r, ins));
  }

  /** What is defined in a state stays defined in a later one. */
  lemma OperandsStep(a: State, ia: Index, b: State, ib: Index, fn: nat, id: nat, os: seq<Operand>)
    requires OperandsOk(a, ia, fn, id, os)
    requires Extends(ia, ib)
    requires forall r :: IsBlock(a, r) ==> IsBlock(b, r)
    ensures OperandsOk(b, ib, fn, id, os)
  {
    forall k | 0 <= k < |os| ensures OperandOk(b, ib, fn, id, os[k]) {
      assert OperandOk(a, ia, fn, id, os[k]);
    }
  }

  lemma EnvStep(a: State, ia: Index, b: State, ib: Index, env: Stack<Site>)
    requires EnvOk(a, ia, env)
    requires Extends(ia, ib)
    requires forall r :: IsBlock(a, r) ==> IsBlock(b, r)
    ensures EnvOk(b, ib, env)
  {
    forall i | 0 <= i < |env| ensures LayerOk(b, ib, env[i]) {
      assert LayerOk(a, ia, env[i]);
      forall k | k in env[i] ensures SiteOk(b, ib, env[i][k]) {
        assert SiteOk(a, ia, env[i][k]);
      }
    }
  }

  // ---- Appending an instruction -----------------------------------------------------------

  /** The instruction may be put at the end of block `r`: its id is reserved and later than
      everything there, its result is reserved, its operands are defined. */
  ghost predicate Fits(st: State, ix: Index, r: BlockRef, instr: Instruction)
    requires IsBlock(st, r)
  {
    && instr.id !in ix.at && instr.id < st.instrId
    && (forall i: nat :: IsPlace(st, r, i) ==> Get(st, r, i).id < instr.id)
    && (instr.result.Some? ==> instr.result.value !in ix.def && instr.result.value < st.varId)
    && OperandsOk(st, ix, r.fn, instr.id, instr.operands)
    && (instr.op != CallOp ==> NoNulls(instr.operands))
  }

  function Extend(ix: Index, r: BlockRef, i: nat, instr: Instruction): Index {
    Index(ix.at[instr.id := Place(r, i)],
          if instr.result.Some? then ix.def[instr.result.value := Result(instr.id)] else ix.def,
          if instr.result.None? then ix.phis
          else if instr.op == Phi then ix.phis + {instr.result.value}
          else ix.phis - {instr.result.value})
  }

  lemma ExtendExtends(st: State, ix: Index, r: BlockRef, instr: Instruction)
    requires IsBlock(st, r) && Fits(st, ix, r, instr)
    ensures Extends(ix, Extend(ix, r, |Instructions(st, r)|, instr))
  {
    hide OperandsOk, IsPlace, Get;
  }

  lemma AppendPlaces(st: State, r: BlockRef, instr: Instruction)
    requires IsBlock(st, r)
    ensures var st' := Append(st, r, instr); var n := |Instructions(st, r)|;
      && IsPlace(st', r, n) && Get(st', r, n) == instr
      && (forall q :: IsBlock(st', q) <==> IsBlock(st, q))
      && (forall q, i: nat :: IsPlace(st', q, i) <==> IsPlace(st, q, i) || (q == r && i == n))
      && (forall q, i: nat :: IsPlace(st, q, i) ==> Get(st', q, i) == Get(st, q, i))
      && (forall q :: IsBlock(st, q) && q != r ==> |Instructions(st', q)| == |Instructions(st, q)|)
      && (forall f: nat, p: nat :: IsParam(st', f, p) <==> IsParam(st, f, p))
      && (forall f: nat, p: nat :: IsParam(st, f, p) ==> st'.functions[f].params[p] == st.functions[f].params[p])
      && (HasBlock(st) ==> HasBlock(st') && LastRef(st') == LastRef(st))
      && |st'.functions| == |st.functions|
  {
    SetPlaces(st, r, Instructions(st, r) + [instr]);
    hide SetInstructions;
  }

  lemma AppendInstrs(st: State, ix: Index, r: BlockRef, instr: Instruction)
    requires PlacesOk(st, ix) && IsBlock(st, r) && Fits(st, ix, r, instr)
    ensures PlacesOk(Append(st, r, instr), Extend(ix, r, |Instructions(st, r)|, instr))
  {
    var n := |Instructions(st, r)|;
    var st', ix' := Append(st, r, instr), Extend(ix, r, n, instr);
    AppendPlaces(st, r, instr);
    hide Append, IsPlace, Get, IsBlock, OperandsOk;
    forall q, i: nat | IsPlace(st', q, i) ensures InstrOk(st', ix', q, i) {
      if q == r && i == n {
        OperandsStep(st, ix, st', ix', r.fn, instr.id, instr.operands);
      } else {
        assert InstrOk(st, ix, q, i);
        OperandsStep(st, ix, st', ix', q.fn, Get(st, q, i).id, Get(st, q, i).operands);
      }
    }
  }

  lemma AppendAt(st: State, ix: Index, r: BlockRef, instr: Instruction)
    requires IndexOk(st, ix) && IsBlock(st, r) && Fits(st, ix, r, instr)
    ensures var st', ix' := Append(st, r, instr), Extend(ix, r, |Instructions(st, r)|, instr);
      forall m :: m in ix'.at ==> AtOk(st', ix', m)
  {
    var n := |Instructions(st, r)|;
    var st', ix' := Append(st, r, instr), Extend(ix, r, n, instr);
    AppendPlaces(st, r, instr);
    assert st'.instrId == st.instrId;
    hide Append, IsPlace, Get, IsBlock, OperandsOk, IsParam, DefOk;
    forall m | m in ix'.at ensures AtOk(st', ix', m) {
      if m != instr.id { assert AtOk(st, ix, m); }
    }
  }

  lemma AppendDef(st: State, ix: Index, r: BlockRef, instr: Instruction)
    requires IndexOk(st, ix) && IsBlock(st, r) && Fits(st, ix, r, instr)
    ensures var st', ix' := Append(st, r, instr), Extend(ix, r, |Instructions(st, r)|, instr);
      forall v :: v in ix'.def ==> DefOk(st', ix', v)
  {
    var n := |Instructions(st, r)|;
    var st', ix' := Append(st, r, instr), Extend(ix, r, n, instr);
    AppendPlaces(st, r, instr);
    assert st'.instrId == st.instrId && st'.varId == st.varId;
    AppendAt(st, ix, r, instr);
    hide Append, IsPlace, Get, IsBlock, OperandsOk, IsParam;
    forall v | v in ix'.def ensures DefOk(st', ix', v) {
      if instr.result != Some(v) { assert DefOk(st, ix, v); }
    }
  }

  lemma AppendOrder(st: State, ix: Index, r: BlockRef, instr: Instruction)
    requires Increasing(st) && IsBlock(st, r) && Fits(st, ix, r, instr)
    ensures Increasing(Append(st, r, instr))
  {
    AppendPlaces(st, r, instr);
    hide Append, Get, OperandsOk, IsParam;
  }

  lemma AppendCode(st: State, ix: Index, r: BlockRef, instr: Instruction)
    requires CodeOk(st, ix) && IsBlock(st, r) && Fits(st, ix, r, instr)
    ensures CodeOk(Append(st, r, instr), Extend(ix, r, |Instructions(st, r)|, instr))
  {
    AppendInstrs(st, ix, r, instr);
    AppendAt(st, ix, r, instr);
    AppendDef(st, ix, r, instr);
    AppendOrder(st, ix, r, instr);
    AppendPlaces(st, r, instr);
    hide Append, IsPlace, Get, IsBlock, OperandsOk, IsParam, PlacesOk, Increasing, AtOk, DefOk;
  }

  lemma AppendStep(st0: State, ix0: Index, st: State, ix: Index, r: BlockRef, instr: Instruction)
    requires Step(st0, ix0, st, ix) && IsBlock(st, r) && Fits(st, ix, r, instr)
    requires !IsBlock(st0, r) || (HasBlock(st0) && r == LastRef(st0))
    requires instr.id >= st0.instrId
    requires instr.result.Some? ==> instr.result.value >= st0.varId
    ensures Step(st0, ix0, Append(st, r, instr), Extend(ix, r, |Instructions(st, r)|, instr))
  {
    AppendPlaces(st, r, instr);
    hide Instructions, OperandsOk, IsPlace, Get, IsBlock;
  }

  lemma AppendKeeps(st0: State, ix0: Index, st: State, ix: Index, r: BlockRef, instr: Instruction) returns (ix': Index)
    requires Inv(st, ix) && Step(st0, ix0, st, ix) && IsBlock(st, r) && Fits(st, ix, r, instr)
    requires !IsBlock(st0, r) || (HasBlock(st0) && r == LastRef(st0))
    requires instr.id >= st0.instrId
    requires instr.result.Some? ==> instr.result.value >= st0.varId
    ensures Inv(Append(st, r, instr), ix') && Step(st0, ix0, Append(st, r, instr), ix')
    ensures ix' == Extend(ix, r, |Instructions(st, r)|, instr) && Extends(ix, ix')
  {
    ix' := Extend(ix, r, |Instructions(st, r)|, instr);
    var st' := Append(st, r, instr);
    ExtendExtends(st, ix, r, instr);
    AppendCode(st, ix, r, instr);
    AppendStep(st0, ix0, st, ix, r, instr);
    AppendPlaces(st, r, instr);
    SetLabels(st, r, Instructions(st, r) + [instr]);
    assert st'.varEnv == st.varEnv;
    hide LabelsOk, Append, CodeOk, Step, EnvOk, OperandsOk, Fits, Extends, Extend, IsPlace, Get;
    EnvStep(st, ix, st', ix', st.varEnv);
  }

  // ---- Counters and environments ----------------------------------------------------------

  /** Reserved ids and variables are free. */
  lemma Fresh(st: State, ix: Index)
    requires Inv(st, ix)
    ensures st.instrId !in ix.at && st.varId !in ix.def
    ensures forall n :: n in ix.at ==> n < st.instrId
    ensures forall v :: v in ix.def ==> v < st.varId && DefinedBefore(ix, v, st.instrId)
    ensures forall r, i: nat :: IsPlace(st, r, i) ==> Get(st, r, i).id < st.instrId
  {
    hide OperandsOk, Increasing;
    forall v | v in ix.def ensures v < st.varId && DefinedBefore(ix, v, st.instrId) {
      assert DefOk(st, ix, v);
    }
    forall r, i: nat | IsPlace(st, r, i) ensures Get(st, r, i).id < st.instrId {
      assert InstrOk(st, ix, r, i);
      assert AtOk(st, ix, Get(st, r, i).id);
    }
  }

  /** The same instructions in the same places, though there may be more, empty, blocks. */
  ghost predicate SameCode(a: State, b: State) {
    && (forall r :: IsBlock(a, r) ==> IsBlock(b, r) && Instructions(b, r) == Instructions(a, r))
    && (forall r, i: nat :: IsPlace(b, r, i) ==> IsPlace(a, r, i) && Get(b, r, i) == Get(a, r, i))
    && (forall f: nat, p: nat :: IsParam(b, f, p) <==> IsParam(a, f, p))
    && (forall f: nat, p: nat :: IsParam(a, f, p) ==> b.functions[f].params[p] == a.functions[f].params[p])
  }

  lemma SameCodeKeeps(st: State, ix: Index, st': State)
    requires CodeOk(st, ix) && SameCode(st, st')
    requires st'.instrId >= st.instrId && st'.varId >= st.varId
    ensures CodeOk(st', ix)
  {
    assert forall r, i: nat :: IsPlace(st, r, i) ==> IsPlace(st', r, i) && Get(st', r, i) == Get(st, r, i);
    hide Get, IsPlace, IsBlock, OperandsOk, IsParam;
    forall r, i: nat | IsPlace(st', r, i) ensures InstrOk(st', ix, r, i) {
      assert InstrOk(st, ix, r, i);
      OperandsStep(st, ix, st', ix, r.fn, Get(st, r, i).id, Get(st, r, i).operands);
    }
    forall n | n in ix.at ensures AtOk(st', ix, n) {
      assert AtOk(st, ix, n);
    }
    forall v | v in ix.def ensures DefOk(st', ix, v) {
      assert DefOk(st, ix, v);
    }
  }

  lemma SameCodeStep(st0: State, ix0: Index, st: State, ix: Index, st': State)
    requires Step(st0, ix0, st, ix) && SameCode(st, st') && |st'.functions| == |st.functions|
    requires st'.instrId >= st.instrId && st'.varId >= st.varId && st'.blockId >= st.blockId
    ensures Step(st0, ix0, st', ix)
  {
    hide IsBlock, Instructions;
  }

  /** The counters may grow, and the environment may change to any sound one. */
  lemma GrowKeeps(st0: State, ix0: Index, st: State, ix: Index, st': State)
    requires Inv(st, ix) && Step(st0, ix0, st, ix) && SameCode(st, st') && |st'.functions| == |st.functions|
    requires EnvOk(st, ix, st'.varEnv) && LabelsOk(st')
    requires st'.instrId >= st.instrId && st'.varId >= st.varId && st'.blockId >= st.blockId
    ensures Inv(st', ix) && Step(st0, ix0, st', ix)
  {
    SameCodeKeeps(st, ix, st');
    SameCodeStep(st0, ix0, st, ix, st');
    hide LabelsOk, CodeOk;
    EnvStep(st, ix, st', ix, st'.varEnv);
  }

  lemma SameFunctions(st: State, st': State)
    requires st'.functions == st.functions
    ensures SameCode(st, st')
    ensures LabelsOk(st) && st'.blockId >= st.blockId ==> LabelsOk(st')
  {
    if LabelsOk(st) && st'.blockId >= st.blockId { SameLabels(st, st'); }
  }

  lemma ReserveKeeps(st0: State, ix0: Index, st: State, ix: Index)
    requires Inv(st, ix) && Step(st0, ix0, st, ix)
    ensures Inv(ReserveInstr(st), ix) && Step(st0, ix0, ReserveInstr(st), ix)
    ensures Inv(CreateVar(st), ix) && Step(st0, ix0, CreateVar(st), ix)
  {
    hide LabelsOk, CodeOk, Step, EnvOk, SameCode;
    SameFunctions(st, ReserveInstr(st));
    SameFunctions(st, CreateVar(st));
    GrowKeeps(st0, ix0, st, ix, ReserveInstr(st));
    GrowKeeps(st0, ix0, st, ix, CreateVar(st));
  }

  /** Replacing the environment by a sound one. */
  lemma SetEnvKeeps(st0: State, ix0: Index, st: State, ix: Index, st': State)
    requires Inv(st, ix) && Step(st0, ix0, st, ix) && EnvOk(st, ix, st'.varEnv)
    requires st' == st.(varEnv := st'.varEnv, fnEnv := st'.fnEnv)
    ensures Inv(st', ix) && Step(st0, ix0, st', ix)
  {
    hide LabelsOk, CodeOk, Step, EnvOk, SameCode;
    SameFunctions(st, st');
    GrowKeeps(st0, ix0, st, ix, st');
  }

  // ---- Emitting ---------------------------------------------------------------------------

  /** Steps only add blocks to the last function, so the last block is new or still the same. */
  lemma LastBlockOpen(st0: State, ix0: Index, st: State, ix: Index)
    requires Step(st0, ix0, st, ix) && HasBlock(st0) && HasBlock(st)
    ensures !IsBlock(st0, LastRef(st)) || LastRef(st) == LastRef(st0)
    ensures LastRef(st).fn == LastRef(st0).fn && LastRef(st).block >= LastRef(st0).block
    ensures st.instrId >= st0.instrId && st.varId >= st0.varId
    ensures forall q :: IsBlock(st0, q) ==> IsBlock(st, q)
  {
    assert IsBlock(st, LastRef(st0)) by { assert IsBlock(st0, LastRef(st0)); }
  }

  lemma EmitKeeps(st0: State, ix0: Index, st: State, ix: Index, op: Opcode, operands: seq<Operand>, result: Option<VarId>)
    returns (ix': Index)
    requires Inv(st, ix) && Step(st0, ix0, st, ix) && HasBlock(st0) && HasBlock(st)
    requires OperandsOk(st, ix, LastRef(st).fn, st.instrId, operands) && (op != CallOp ==> NoNulls(operands))
    requires result.Some? ==> result.value !in ix.def && st0.varId <= result.value < st.varId
    ensures var st' := Emit(st, op, operands, result);
      Inv(st', ix') && Step(st0, ix0, st', ix') && Extends(ix, ix')
    ensures result.Some? ==> ComputedIn(ix', result.value, LastRef(st)) && (op == Phi ==> result.value in ix'.phis)
  {
    hide Inv, Step, Append, OperandsOk, Fits, IsPlace, Get, Extends;
    var instr := Instruction(st.instrId, op, operands, result);
    EmitFits(st, ix, op, operands, result);
    LastBlockOpen(st0, ix0, st, ix);
    ReserveKeeps(st0, ix0, st, ix);
    ix' := AppendKeeps(st0, ix0, ReserveInstr(st), ix, LastRef(st), instr);
  }

  lemma EmitFrame(st: State, op: Opcode, operands: seq<Operand>, result: Option<VarId>)
    requires HasBlock(st)
    ensures var st' := Emit(st, op, operands, result); var r := LastRef(st);
      && HasBlock(st') && LastRef(st') == r && IsBlock(st', r)
      && Instructions(st', r) == Instructions(st, r) + [Instruction(st.instrId, op, operands, result)]
      && st'.varEnv == st.varEnv && st'.fnEnv == st.fnEnv && st'.globals == st.globals
      && st'.instrId == st.instrId + 1 && st'.varId == st.varId
  {}

  lemma EmitFits(st: State, ix: Index, op: Opcode, operands: seq<Operand>, result: Option<VarId>)
    requires Inv(st, ix) && HasBlock(st)
    requires OperandsOk(st, ix, LastRef(st).fn, st.instrId, operands) && (op != CallOp ==> NoNulls(operands))
    requires result.Some? ==> result.value !in ix.def && result.value < st.varId
    ensures Fits(ReserveInstr(st), ix, LastRef(st), Instruction(st.instrId, op, operands, result))
  {
    var st1 := ReserveInstr(st);
    Fresh(st, ix);
    OperandsStep(st, ix, st1, ix, LastRef(st).fn, st.instrId, operands);
    assert forall r, i: nat :: IsPlace(st1, r, i) ==> IsPlace(st, r, i) && Get(st1, r, i) == Get(st, r, i);
    hide Inv, OperandsOk, IsPlace, Get;
  }

  lemma EmitResultKeeps(st0: State, ix0: Index, st: State, ix: Index, op: Opcode, operands: seq<Operand>)
    returns (ix': Index)
    requires Inv(st, ix) && Step(st0, ix0, st, ix) && HasBlock(st0) && HasBlock(st)
    requires OperandsOk(st, ix, LastRef(st).fn, st.instrId, operands) && (op != CallOp ==> NoNulls(operands))
    ensures var st' := EmitResult(st, op, operands);
      Inv(st', ix') && Step(st0, ix0, st', ix') && Extends(ix, ix')
    ensures st.varId in ix'.def && SiteOk(EmitResult(st, op, operands), ix', Site(LastRef(st), st.varId))
    ensures op == Phi ==> st.varId in ix'.phis
  {
    EmitFrame(CreateVar(st), op, operands, Some(st.varId));
    var st1 := CreateVar(st);
    ReserveKeeps(st0, ix0, st, ix);
    OperandsStep(st, ix, st1, ix, LastRef(st).fn, st.instrId, operands);
    Fresh(st, ix);
    assert st.varId >= st0.varId;
    assert IsBlock(EmitResult(st, op, operands), LastRef(st));
    hide Inv, Step, OperandsOk, Emit, ComputedIn, Extends, Fits;
    ix' := EmitKeeps(st0, ix0, st1, ix, op, operands, Some(st.varId));
  }

  /** Adding sound operands to an instruction that is already there. */
  lemma AddOperandsKeeps(st0: State, ix0: Index, st: State, ix: Index, r: BlockRef, i: nat, operands: seq<Operand>)
    requires Inv(st, ix) && Step(st0, ix0, st, ix)
    requires IsPlace(st, r, i) ==> OperandsOk(st, ix, r.fn, Get(st, r, i).id, operands) && NoNulls(operands)
    requires !IsPlace(st0, r, i)
    ensures Inv(AddOperands(st, r, i, operands), ix) && Step(st0, ix0, AddOperands(st, r, i, operands), ix)
  {
    hide LabelsOk;
    if IsPlace(st, r, i) {
      AddOperandsCode(st, ix, r, i, operands);
      var instr := Get(st, r, i);
      var ins := Instructions(st, r)[i := instr.(operands := instr.operands + operands)];
      SetPlaces(st, r, ins);
      SetLabels(st, r, ins);
      var st' := AddOperands(st, r, i, operands);
      assert st' == SetInstructions(st, r, ins);
      assert st'.varEnv == st.varEnv;
      AddOperandsPlaces(st, r, i, operands);
      assert Step(st0, ix0, st', ix) by { hide SetInstructions, AddOperands, Inv, IsPlace, Get; }
      hide CodeOk, SetInstructions, AddOperands, Step;
      EnvStep(st, ix, st', ix, st.varEnv);
    }
  }

  lemma AddOperandsCode(st: State, ix: Index, r: BlockRef, i: nat, operands: seq<Operand>)
    requires CodeOk(st, ix) && IsPlace(st, r, i) && OperandsOk(st, ix, r.fn, Get(st, r, i).id, operands) && NoNulls(operands)
    ensures CodeOk(AddOperands(st, r, i, operands), ix)
  {
    var st' := AddOperands(st, r, i, operands);
    AddOperandsPlaces(st, r, i, operands);
    AddOperandsInstrs(st, ix, r, i, operands);
    assert st'.instrId == st.instrId && st'.varId == st.varId;
    hide AddOperands, IsPlace, Get, IsBlock, OperandsOk, PlacesOk, IsParam;
    AddOperandsDef(st, ix, r, i, operands);
    hide AtOk, DefOk;
  }

  lemma AddOperandsDef(st: State, ix: Index, r: BlockRef, i: nat, operands: seq<Operand>)
    requires IndexOk(st, ix) && IsPlace(st, r, i)
    ensures IndexOk(AddOperands(st, r, i, operands), ix)
  {
    var st' := AddOperands(st, r, i, operands);
    AddOperandsPlaces(st, r, i, operands);
    assert st'.instrId == st.instrId && st'.varId == st.varId;
    hide AddOperands, IsPlace, Get, IsBlock, IsParam;
    forall n | n in ix.at ensures AtOk(st', ix, n) {
      assert AtOk(st, ix, n);
    }
    forall v | v in ix.def ensures DefOk(st', ix, v) {
      assert DefOk(st, ix, v);
    }
  }

  lemma AddOperandsPlaces(st: State, r: BlockRef, i: nat, operands: seq<Operand>)
    requires IsPlace(st, r, i)
    ensures var st' := AddOperands(st, r, i, operands);
      && (forall q :: IsBlock(st', q) <==> IsBlock(st, q))
      && (forall q, k: nat :: IsPlace(st', q, k) <==> IsPlace(st, q, k))
      && (forall q, k: nat :: IsPlace(st, q, k) ==>
            Get(st', q, k) == if q == r && k == i then Get(st, r, i).(operands := Get(st, r, i).operands + operands) else Get(st, q, k))
      && (forall f: nat, p: nat :: IsParam(st', f, p) <==> IsParam(st, f, p))
      && (forall f: nat, p: nat :: IsParam(st, f, p) ==> st'.functions[f].params[p] == st.functions[f].params[p])
  {
    var instr := Get(st, r, i);
    SetPlaces(st, r, Instructions(st, r)[i := instr.(operands := instr.operands + operands)]);
    hide SetInstructions;
  }

  lemma AddOperandsInstrs(st: State, ix: Index, r: BlockRef, i: nat, operands: seq<Operand>)
    requires PlacesOk(st, ix) && IsPlace(st, r, i) && OperandsOk(st, ix, r.fn, Get(st, r, i).id, operands) && NoNulls(operands)
    ensures PlacesOk(AddOperands(st, r, i, operands), ix)
  {
    var st' := AddOperands(st, r, i, operands);
    AddOperandsPlaces(st, r, i, operands);
    hide AddOperands, IsPlace, Get, IsBlock;
    forall q, k: nat | IsPlace(st', q, k) ensures InstrOk(st', ix, q, k) {
      assert InstrOk(st, ix, q, k);
      OperandsStep(st, ix, st', ix, q.fn, Get(st, q, k).id, Get(st, q, k).operands);
      if q == r && k == i {
        OperandsStep(st, ix, st', ix, r.fn, Get(st, r, i).id, operands);
      }
    }
  }

  lemma AddBlockPlaces(st: State, prefix: string)
    requires HasFunction(st)
    ensures var st' := AddBlock(st, prefix);
      && HasBlock(st') && LastRef(st') == BlockRef(|st.functions| - 1, |LastFunction(st).blocks|)
      && Instructions(st', LastRef(st')) == [] && !IsBlock(st, LastRef(st'))
      && SameCode(st, st')
  {}

  /** The label of a fresh block of the current function may be used at once. */
  lemma AddBlockKeeps(st0: State, ix0: Index, st: State, ix: Index, prefix: string)
    requires Inv(st, ix) && Step(st0, ix0, st, ix) && HasFunction(st)
    ensures var st' := AddBlock(st, prefix); Inv(st', ix) && Step(st0, ix0, st', ix)
  {
    var st' := AddBlock(st, prefix);
    AddBlockPlaces(st, prefix);
    AddBlockLabels(st, prefix);
    assert st'.varEnv == st.varEnv && |st'.functions| == |st.functions|;
    assert st'.instrId == st.instrId && st'.varId == st.varId && st'.blockId >= st.blockId;
    hide LabelsOk, CodeOk, AddBlock, Step, EnvOk, SameCode;
    GrowKeeps(st0, ix0, st, ix, st');
  }

  // ---- Functions and parameters -----------------------------------------------------------

  lemma AddFunctionKeeps(st: State, ix: Index, name: string)
    requires Inv(st, ix) && st.fnEnv != []
    ensures Inv(AddFunctionDefinition(st, name), ix)
  {
    var st' := AddFunctionDefinition(st, name);
    assert st'.functions[..|st.functions|] == st.functions;
    assert SameCode(st, st');
    SameCodeKeeps(st, ix, st');
    SameLabels(st, st');
    hide LabelsOk, CodeOk, AddFunctionDefinition;
    assert st'.varEnv == st.varEnv;
    EnvStep(st, ix, st', ix, st.varEnv);
  }
}
