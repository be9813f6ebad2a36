/** What the instructions of a straight-line block do. */
module MirMachine {
  import opened Ast
  import opened Mir
  import opened Meaning
  import opened Words

  type Store = map<VarId, Value>

  datatype Machine = Going(store: Store) | Finished(result: Option<Value>) | Failed

  function Fetch(store: Store, o: Operand): Option<Value> {
    match o
    case Local(v) => if v in store then Some(store[v]) else None
    case IntConst(n) => Some(IntV(n))
    case BoolConst(b) => Some(BoolV(b))
    case _ => None
  }

  function Alu(op: Opcode, a: Value, b: Value): Option<Value> {
    if a.BoolV? != b.BoolV? then None
    else if op == ICmpEq then Some(BoolV(a == b))
    else if op == ICmpNe then Some(BoolV(a != b))
    else if a.BoolV? then None
    else
      var x, y := a.i, b.i;
      match op
      case IAdd => Some(IntV(Wrap32(x + y)))
      case ISub => Some(IntV(Wrap32(x - y)))
      case IMul => Some(IntV(Wrap32(x * y)))
      case IDiv => if y == 0 then None else Some(IntV(Wrap32(TruncDiv(x, y))))
      case IMod => if y == 0 then None else Some(IntV(TruncMod(x, y)))
      case ICmpLt => Some(BoolV(x < y))
      case ICmpLte => Some(BoolV(x <= y))
      case ICmpGt => Some(BoolV(x > y))
      case ICmpGte => Some(BoolV(x >= y))
      case _ => None
  }

  predicate Copies(op: Opcode) {
    op == ConstInt || op == ConstBool || op == Bind || op == Update
  }

  function Result(store: Store, x: Instruction): Option<Value> {
    if Copies(x.op) && |x.operands| == 1 then Fetch(store, x.operands[0])
    else if |x.operands| == 2 then
      var a :- Fetch(store, x.operands[0]);
      var b :- Fetch(store, x.operands[1]);
      Alu(x.op, a, b)
    else None
  }

  function Exec(store: Store, x: Instruction): Machine {
    if x.op == ReturnOp then
      if x.operands == [] then Finished(None)
      else if Fetch(store, x.operands[0]).None? then Failed
      else Finished(Fetch(store, x.operands[0]))
    else if x.result.None? || Result(store, x).None? then Failed
    else Going(store[x.result.value := Result(store, x).value])
  }

  function ExecAll(store: Store, code: seq<Instruction>): Machine
    decreases |code|
  {
    if code == [] then Going(store)
    else
      var m := Exec(store, code[0]);
      if m.Going? then ExecAll(m.store, code[1..]) else m
  }

  lemma {:induction false} ExecConcat(store: Store, c1: seq<Instruction>, c2: seq<Instruction>)
    ensures ExecAll(store, c1 + c2) ==
      if ExecAll(store, c1).Going? then ExecAll(ExecAll(store, c1).store, c2) else ExecAll(store, c1)
    decreases |c1|
  {
    if c1 == [] {
      assert c1 + c2 == c2;
    } else {
      assert (c1 + c2)[1..] == c1[1..] + c2;
      var m := Exec(store, c1[0]);
      if m.Going? { ExecConcat(m.store, c1[1..], c2); }
    }
  }
}
