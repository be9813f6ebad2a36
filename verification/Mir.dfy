/** The intermediate representation. Pointers to blocks are positions: the module's lists
    only grow at their ends, so a position never changes what it points to. Types of
    variables, comments and the float opcodes are left out. */
module Mir {
  import opened Ast

  type VarId = nat

  datatype Opcode =
    | ConstFloat | ConstInt | ConstBool
    | IAdd | ISub | IMul | IDiv | IMod
    | ICmpLt | ICmpLte | ICmpEq | ICmpNe | ICmpGt | ICmpGte
    | Bind | Update | Load
    | CondJump | Jump | ContinueOp | BreakOp | ReturnOp
    | Phi | CallOp

  datatype BlockRef = BlockRef(fn: nat, block: nat)

  datatype Operand =
    | Local(v: VarId)
    // A default-constructed variable pointer.
    | NullLocal
    | IntConst(n: int)
    | FloatConst(digits: string)
    | BoolConst(b: bool)
    | Global(name: string)
    | Label(target: BlockRef)
    | FunctionLabel(name: string)
    | PhiArg(block: BlockRef, v: VarId)

  datatype Instruction = Instruction(id: nat, op: Opcode, operands: seq<Operand>, result: Option<VarId>)

  datatype Block = Block(name: string, instructions: seq<Instruction>)

  datatype MirFunction = MirFunction(name: string, params: seq<VarId>, locals: seq<VarId>, blocks: seq<Block>)

  /** A variable together with the block it was produced in. */
  datatype Site = Site(block: BlockRef, v: VarId)
}
