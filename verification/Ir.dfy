/** The intermediate representation: instructions, terminators, basic blocks. */
module Ir {
  datatype Option<+T> = None | Some(value: T)

  type Reg = nat
  type BlockId = nat

  datatype BinOp =
    | Add | Sub | Mul | Div | Mod
    | Quot | Rem | SRem // Quot and Rem are unsigned
    | Eq | Ne | Lt | Le | Gt | Ge
    | ULt | ULe | UGt | UGe
    | And | Or

  datatype UnaryOp = Neg | Not

  datatype ConstVal =
    | IntC(n: int)
    | BoolC(b: bool)
    | StrC(s: string)
    | FuncRef(f: string)
    | GlobalRef(x: string)

  datatype Inst =
    | Const(dst: Reg, val: ConstVal)
    | Alloca(dst: Reg, home: Option<string>) // the variable it is the storage of, if any
    | Load(dst: Reg, ptr: Reg)
    | Store(ptr: Reg, src: Reg)
    | IndexPtr(dst: Reg, base: Reg, index: Reg)
    | TypedPtr(dst: Reg, src: Reg)
    | Unary(dst: Reg, uop: UnaryOp, src: Reg)
    | Binary(dst: Reg, op: BinOp, lhs: Reg, rhs: Reg)
    | Call(res: Option<Reg>, callee: Reg, args: seq<Reg>)

  datatype Terminator =
    | Goto(target: BlockId)
    | CondBr(cond: Reg, onTrue: BlockId, onFalse: BlockId)
    | Switch(val: Reg, arms: seq<(int, BlockId)>, default: BlockId)
    | Return(result: Option<Reg>)
    | Unreachable

  /** A block is named by its index in the function's block vector. */
  datatype Block = Block(insts: seq<Inst>, term: Terminator)

  datatype LoopFrame = LoopFrame(exitBlock: BlockId, continueBlock: BlockId)

  /** How a named variable is reached: its storage register holds the variable's
      address (Direct), or the address of a slot holding that address (Indirect,
      a VAR parameter). */
  datatype BindingKind = Direct | Indirect
  datatype Binding = Binding(storage: Reg, kind: BindingKind)
}
