/** The module factory: each operation as a function from the state before to the state
    after. `None` stands for an exception. */
module MirFactory {
  import opened Ast
  import opened Scopes
  import opened Mir
  import opened Sequences

  datatype Status = Declared | Defined

  datatype State = State(
    functions: seq<MirFunction>,
    globals: set<string>,
    fnEnv: Stack<Status>,
    varEnv: Stack<Site>,
    blockId: nat,
    instrId: nat,
    varId: nat)

  const INITIAL: State := State([], {}, [map[]], [map[]], 0, 0, 0)

  // ---- Positions --------------------------------------------------------------------------

  predicate HasFunction(st: State) {
    st.functions != []
  }

  predicate HasBlock(st: State) {
    HasFunction(st) && LastFunction(st).blocks != []
  }

  function LastFunction(st: State): MirFunction
    requires HasFunction(st)
  {
    st.functions[|st.functions| - 1]
  }

  function LastBlock(st: State): Block
    requires HasBlock(st)
  {
    LastFunction(st).blocks[|LastFunction(st).blocks| - 1]
  }

  function LastRef(st: State): BlockRef
    requires HasBlock(st)
  {
    BlockRef(|st.functions| - 1, |LastFunction(st).blocks| - 1)
  }

  predicate IsBlock(st: State, r: BlockRef) {
    r.fn < |st.functions| && r.block < |st.functions[r.fn].blocks|
  }

  /** The instruction at place `i` of block `r`. */
  predicate IsPlace(st: State, r: BlockRef, i: nat) {
    IsBlock(st, r) && i < |Instructions(st, r)|
  }

  function Instructions(st: State, r: BlockRef): seq<Instruction>
    requires IsBlock(st, r)
  {
    st.functions[r.fn].blocks[r.block].instructions
  }

  function Get(st: State, r: BlockRef, i: nat): Instruction
    requires IsPlace(st, r, i)
  {
    Instructions(st, r)[i]
  }

  function SetInstructions(st: State, r: BlockRef, ins: seq<Instruction>): State
    requires IsBlock(st, r)
  {
    var f := st.functions[r.fn];
    var b := f.blocks[r.block];
    st.(functions := st.functions[r.fn := f.(blocks := f.blocks[r.block := b.(instructions := ins)])])
  }

  // ---- Variables --------------------------------------------------------------------------

  function CreateVar(st: State): State {
    st.(varId := st.varId + 1)
  }

  /** The variable produced by the last instruction; fails when there is none. */
  function RequireLastVar(st: State): Option<VarId> {
    if !HasBlock(st) || LastBlock(st).instructions == [] then None
    else
      var ins := LastBlock(st).instructions;
      ins[|ins| - 1].result
  }

  // ---- Instructions -----------------------------------------------------------------------

  function Append(st: State, r: BlockRef, instr: Instruction): State
    requires IsBlock(st, r)
  {
    SetInstructions(st, r, Instructions(st, r) + [instr])
  }

  /** Appends an instruction with a new id to the last block. */
  function Emit(st: State, op: Opcode, operands: seq<Operand>, result: Option<VarId>): (r: State)
    requires HasBlock(st)
    ensures HasBlock(r)
  {
    Append(ReserveInstr(st), LastRef(st), Instruction(st.instrId, op, operands, result))
  }

  /** As `Emit`, with a new variable as result. */
  function EmitResult(st: State, op: Opcode, operands: seq<Operand>): (r: State)
    requires HasBlock(st)
    ensures HasBlock(r)
  {
    Emit(CreateVar(st), op, operands, Some(st.varId))
  }

  /** Reserves an instruction id for an instruction that is inserted later. */
  function ReserveInstr(st: State): State {
    st.(instrId := st.instrId + 1)
  }

  /** Appends the jump with the reserved `id` to block `r`. */
  function InsertJump(st: State, id: nat, r: BlockRef, target: BlockRef): (st': State)
    ensures HasBlock(st) ==> HasBlock(st') && st'.varEnv == st.varEnv && st'.fnEnv == st.fnEnv
  {
    if !IsBlock(st, r) then st
    else Append(st, r, Instruction(id, Jump, [Label(target)], None))
  }

  /** Adds operands to an instruction that was emitted earlier. */
  function AddOperands(st: State, r: BlockRef, i: nat, operands: seq<Operand>): (st': State)
    ensures HasBlock(st) ==> HasBlock(st') && st'.varEnv == st.varEnv && st'.fnEnv == st.fnEnv
  {
    if !IsPlace(st, r, i) then st
    else
      var instr := Get(st, r, i);
      SetInstructions(st, r, Instructions(st, r)[i := instr.(operands := instr.operands + operands)])
  }

  // ---- Blocks -----------------------------------------------------------------------------

  function Digits(n: nat): (s: string)
    ensures s != []
  {
    if n < 10 then ["0123456789"[n]] else Digits(n / 10) + ["0123456789"[n % 10]]
  }

  function MakeLabel(prefix: string, n: nat): string {
    prefix + "_" + Digits(n)
  }

  function AddBlock(st: State, prefix: string): (r: State)
    requires HasFunction(st)
    ensures HasBlock(r) && r.varEnv == st.varEnv && r.fnEnv == st.fnEnv
  {
    var f := LastFunction(st);
    var b := Block(MakeLabel(prefix, st.blockId), []);
    st.(functions := st.functions[|st.functions| - 1 := f.(blocks := f.blocks + [b])],
        blockId := st.blockId + 1)
  }

  /** The first block of the last function with the given label. */
  function FindBlockIn(bs: seq<Block>, name: string): Option<nat> {
    if bs == [] then None
    else if bs[0].name == name then Some(0)
    else
      var rest := FindBlockIn(bs[1..], name);
      if rest.None? then None else Some(rest.value + 1)
  }

  // ---- Environments -----------------------------------------------------------------------

  function PushEnv(st: State): State {
    st.(varEnv := st.varEnv + [map[]], fnEnv := st.fnEnv + [map[]])
  }

  function PopEnv(st: State): Option<State> {
    if |st.varEnv| <= 1 || |st.fnEnv| <= 1 then None
    else Some(st.(varEnv := st.varEnv[..|st.varEnv| - 1], fnEnv := st.fnEnv[..|st.fnEnv| - 1]))
  }

  /** Binds a source name, in the innermost scope, to a copy of `v`. */
  function VarBind(st: State, name: string, v: VarId): (r: Option<State>)
    requires HasBlock(st) && st.varEnv != []
    ensures r.Some? ==> HasBlock(r.value) && |r.value.varEnv| == |st.varEnv| && r.value.fnEnv == st.fnEnv
  {
    var st1 := EmitResult(st, Bind, [Local(v)]);
    var f := LastFunction(st1);
    var st2 := st1.(functions :=
      st1.functions[|st1.functions| - 1 := f.(locals := f.locals + [st.varId])]);
    if name in st.varEnv[|st.varEnv| - 1] then None
    else Some(st2.(varEnv := Insert(st.varEnv, name, Site(LastRef(st), st.varId))))
  }

  /** Copies `v` and makes the copy what `name` refers to; fails when nothing binds `name`. */
  function AddUpdate(st: State, name: string, v: VarId): (r: Option<State>)
    requires HasBlock(st)
    ensures r.Some? ==> HasBlock(r.value)
  {
    if Find(st.varEnv, name).None? then None
    else
      Some(EmitResult(st, Update, [Local(v)])
           .(varEnv := Scopes.Update(st.varEnv, name, Site(LastRef(st), st.varId))))
  }

  /** Reading a name: a load for a global, otherwise a copy that the name then refers to. */
  function AddVariableRef(st: State, name: string): (r: Option<State>)
    requires HasBlock(st)
    ensures r.Some? ==> HasBlock(r.value)
  {
    if name in st.globals then Some(EmitResult(st, Load, [Global(name)]))
    else if Find(st.varEnv, name).None? then None
    else AddUpdate(st, name, Find(st.varEnv, name).value.v)
  }

  /** Calls produce no variable, and their operands start with one null per argument. */
  function AddCall(st: State, name: string, args: seq<VarId>): Option<State>
    requires HasBlock(st)
  {
    if Find(st.fnEnv, name).None? then None
    else Some(Emit(st, CallOp, CallOperands(name, args), None))
  }

  function CallOperands(name: string, args: seq<VarId>): seq<Operand> {
    [FunctionLabel(name)] + seq(|args|, i => NullLocal) + seq(|args|, i requires 0 <= i < |args| => Local(args[i]))
  }

  // ---- Functions --------------------------------------------------------------------------

  function AddFunctionDeclaration(st: State, name: string): State
    requires st.fnEnv != []
  {
    if Find(st.fnEnv, name).Some? then st
    else st.(fnEnv := Insert(st.fnEnv, name, Declared))
  }

  function AddFunctionDefinition(st: State, name: string): State
    requires st.fnEnv != []
  {
    st.(fnEnv :=
          if Find(st.fnEnv, name).Some? then Scopes.Update(st.fnEnv, name, Defined)
          else Insert(st.fnEnv, name, Defined),
        functions := st.functions + [MirFunction(name, [], [], [])])
  }

  /** A new variable as next parameter of the last function. */
  function AddParam(st: State): State
    requires HasFunction(st)
  {
    var f := LastFunction(st);
    CreateVar(st.(functions := st.functions[|st.functions| - 1 := f.(params := f.params + [st.varId])]))
  }

  // ---- Merging ----------------------------------------------------------------------------

  /** The order in which the hash map of a layer is walked. Two maps with the same keys can be
      walked in different orders, so it may depend on the state and on how many layers are left. */
  type Order = (State, nat, set<string>) -> seq<string>

  ghost predicate Enumerates(keys: seq<string>, s: set<string>) {
    && (forall k :: k in s <==> k in keys)
    && Distinct(keys)
  }

  ghost predicate IsOrder(order: Order) {
    forall st, n, s :: Enumerates(order(st, n, s), s)
  }

  /** Walks `keys`: where the two layers disagree a PHI is emitted and the first layer's entry
      takes its result; a name missing in the second layer ends the walk. */
  function MergeLayer(st: State, first: Layer<Site>, second: Layer<Site>, keys: seq<string>): (r: (State, Layer<Site>))
    requires HasBlock(st) && forall k <- keys :: k in first
    ensures HasBlock(r.0) && r.1.Keys == first.Keys
    ensures r.0.fnEnv == st.fnEnv && r.0.globals == st.globals && |r.0.functions| == |st.functions|
    decreases keys
  {
    if keys == [] then (st, first)
    else
      var k := keys[0];
      if k !in second then (st, first)
      else if first[k].v == second[k].v then MergeLayer(st, first, second, keys[1..])
      else
        var a, b := first[k], second[k];
        var st' := EmitResult(st, Phi, [PhiArg(a.block, a.v), PhiArg(b.block, b.v)]);
        MergeLayer(st', first[k := a.(v := st.varId)], second, keys[1..])
  }

  /** Merges layer by layer as long as both environments have one. */
  function MergeEnvs(order: Order, st: State, e1: Stack<Site>, e2: Stack<Site>): (r: (State, Stack<Site>))
    requires HasBlock(st) && IsOrder(order)
    ensures HasBlock(r.0) && |r.1| == |e1|
    ensures r.0.fnEnv == st.fnEnv && r.0.globals == st.globals && |r.0.functions| == |st.functions|
    decreases e1
  {
    if e1 == [] || e2 == [] then (st, e1)
    else
      var (st1, layer) := MergeLayer(st, e1[0], e2[0], order(st, |e1|, e1[0].Keys));
      var (st2, rest) := MergeEnvs(order, st1, e1[1..], e2[1..]);
      (st2, [layer] + rest)
  }
}
