/** Lowering as a function of the builder's state: which blocks, instructions and
    jumps each statement adds. The methods of `Lowering` are proved to do exactly
    this; `Preservation` proves what the result does when it runs. */
module LowerSpec {
  import opened Arith
  import opened Ir
  import opened Source
  import opened Builder
  import opened Machine

  /** The builder together with the storage bindings of the variables. */
  datatype Low = Low(g: Building, locals: map<string, Binding>)

  /** What surrounds the statements: where RETRY goes, the frame a RETURN frees,
      the slot a RETURN of an outlined protected body stores into. */
  datatype Ctx = Ctx(retry: Option<BlockId>, frame: Option<Reg>, resultSlot: Option<Reg>)

  function Blocks(b: Low): seq<Block> { b.g.blocks }
  predicate Closed(b: Low) { Terminated(b.g) }

  function LFresh(b: Low): Low { b.(g := Fresh(b.g)) }
  function LBlock(b: Low): Low { b.(g := NewBlock(b.g)) }
  function LSwitch(b: Low, id: BlockId): Low { b.(g := SwitchTo(b.g, id)) }
  function LPush(b: Low, i: Inst): Low { b.(g := Push(b.g, i)) }
  function LEnd(b: Low, t: Terminator): Low { b.(g := Terminate(b.g, t)) }
  function LEnter(b: Low, f: LoopFrame): Low { b.(g := PushLoop(b.g, f)) }
  function LLeave(b: Low): Low { b.(g := PopLoop(b.g)) }

  /** A fresh register and the instruction that defines it. */
  function Ins(b: Low, i: Inst): Low { LPush(LFresh(b), i) }

  // ---- Calls of the runtime, traps ---------------------------------------------

  function RuntimeCall(b: Low, f: string, args: seq<Reg>): Low {
    var callee := b.g.nextReg;
    LPush(Ins(b, Const(callee, FuncRef(f))), Call(None, callee, args))
  }

  function RaiseM2(b: Low, number: int): Low {
    var n := b.g.nextReg;
    var b1 := Ins(b, Const(n, IntC(number)));
    LEnd(RuntimeCall(b1, RAISE_M2, [n]), Unreachable)
  }

  /** Raise exception `number` when `cond` is nonzero, go on in a new block otherwise. */
  function Trap(b: Low, cond: Reg, number: int): Low {
    var fail := |Blocks(b)|;
    var cont := fail + 1;
    var b1 := LEnd(LBlock(LBlock(b)), CondBr(cond, fail, cont));
    LSwitch(RaiseM2(LSwitch(b1, fail), number), cont)
  }

  /** `subject op limit`, in the two next registers. */
  function Test(b: Low, op: BinOp, subject: Reg, limit: int): Low {
    var c := b.g.nextReg;
    Ins(Ins(b, Const(c, IntC(limit))), Binary(c + 1, op, subject, c))
  }

  function BoundsCheck(b: Low, adj: Reg, count: int): Low {
    Trap(Test(b, UGe, adj, count), b.g.nextReg + 1, INDEX_EXCEPTION)
  }

  function DivCheck(b: Low, divisor: Reg): Low {
    Trap(Test(b, Eq, divisor, 0), b.g.nextReg + 1, DIV_EXCEPTION)
  }

  // ---- Expressions -----------------------------------------------------------------

  function IrOp(op: ArithOp): BinOp {
    match op.sign
    case Plus => Add
    case Minus => Sub
    case Times => Mul
    case Slash => Quot
    case DivKw => if op.cardinal then Quot else Div
    case ModKw => if op.cardinal then Rem else Mod
    case RemKw => if op.cardinal then Rem else SRem
    case Equal => Eq
    case NotEqual => Ne
    case Less => if op.cardinal then ULt else Lt
    case LessEq => if op.cardinal then ULe else Le
    case Greater => if op.cardinal then UGt else Gt
    case GreaterEq => if op.cardinal then UGe else Ge
  }

  /** The address of a variable by name. */
  function NamePtr(b: Low, x: string): (Low, Reg) {
    var r := b.g.nextReg;
    if x in b.locals then
      var s := b.locals[x].storage;
      if b.locals[x].kind.Direct? then (b, s)
      else (Ins(Ins(b, Load(r, s)), TypedPtr(r + 1, r)), r + 1)
    else (Ins(b, Const(r, GlobalRef(x))), r)
  }

  function Expression(b: Low, e: Expr): (Low, Reg)
    decreases e, 1
  {
    match e
    case IntLit(n) => (Ins(b, Const(b.g.nextReg, IntC(n))), b.g.nextReg)
    case BoolLit(v) => (Ins(b, Const(b.g.nextReg, BoolC(v))), b.g.nextReg)
    case Des(d) =>
      var (b1, p) := Address(b, d);
      (Ins(b1, Load(b1.g.nextReg, p)), b1.g.nextReg)
    case Arith(op, l, r) =>
      var (b1, x) := Expression(b, l);
      var (b2, y) := Expression(b1, r);
      var dst := b2.g.nextReg;
      (LPush(Guarded(LFresh(b2), op, y), Binary(dst, IrOp(op), x, y)), dst)
    case AndThen(_, _) => ShortCircuit(b, e)
    case OrElse(_, _) => ShortCircuit(b, e)
    case NotE(a) =>
      var (b1, x) := Expression(b, a);
      (Ins(b1, Unary(b1.g.nextReg, UnaryOp.Not, x)), b1.g.nextReg)
    case NegE(a) =>
      var (b1, x) := Expression(b, a);
      (Ins(b1, Unary(b1.g.nextReg, UnaryOp.Neg, x)), b1.g.nextReg)
    case CallE(f, args) =>
      var callee := b.g.nextReg;
      var (b1, rs) := Arguments(Ins(b, Const(callee, FuncRef(f))), args);
      (Ins(b1, Call(Some(b1.g.nextReg), callee, rs)), b1.g.nextReg)
  }

  function Guarded(b: Low, op: ArithOp, divisor: Reg): Low {
    if Divides(op) then DivCheck(b, divisor) else b
  }

  /** The right operand gets a block of its own, reached only when the left one
      does not decide; the two values meet in a stack slot. */
  function ShortCircuit(b: Low, e: Expr): (Low, Reg)
    requires e.AndThen? || e.OrElse?
    decreases e, 0
  {
    var slot := b.g.nextReg;
    var (b1, x) := Expression(Ins(b, Alloca(slot, None)), e.l);
    var b2 := LPush(b1, Store(slot, x));
    var (b3, y) := Expression(ScFork(b2, ScTest(e, x, |Blocks(b2)|)), e.r);
    ScJoin(b3, slot, y, |Blocks(b2)| + 1)
  }

  function ScTest(e: Expr, x: Reg, rhs: BlockId): Terminator {
    if e.AndThen? then CondBr(x, rhs, rhs + 1) else CondBr(x, rhs + 1, rhs)
  }

  function ScFork(b: Low, t: Terminator): Low {
    LSwitch(LEnd(LBlock(LBlock(b)), t), |Blocks(b)|)
  }

  function ScJoin(b: Low, slot: Reg, y: Reg, join: BlockId): (Low, Reg) {
    var b1 := LSwitch(LEnd(LPush(b, Store(slot, y)), Goto(join)), join);
    (Ins(b1, Load(b1.g.nextReg, slot)), b1.g.nextReg)
  }

  function Arguments(b: Low, args: seq<Arg>): (Low, seq<Reg>)
    decreases args, 0
  {
    if args == [] then (b, [])
    else
      var (b1, r) := Argument(b, args[0]);
      var (b2, rs) := Arguments(b1, args[1..]);
      (b2, [r] + rs)
  }

  function Argument(b: Low, a: Arg): (Low, Reg)
    decreases a, 0
  {
    match a
    case ByValue(e) => Expression(b, e)
    case ByAddress(d) => Address(b, d)
  }

  function Address(b: Low, d: Designator): (Low, Reg)
    decreases d, 0
  {
    match d
    case Var(x) => NamePtr(b, x)
    case Elem(x, dims, ixs) =>
      var (b1, base) := NamePtr(b, x);
      var (b2, flat) := Flatten(b1, dims, ixs, None);
      if flat.None? then (b2, base)
      else (Ins(b2, IndexPtr(b2.g.nextReg, base, flat.value)), b2.g.nextReg)
  }

  /** Row-major flattening: subtract the lower bound, check, multiply by the
      stride, add to what the earlier dimensions gave. */
  function Flatten(b: Low, dims: seq<Dim>, ixs: seq<Expr>, acc: Option<Reg>): (Low, Option<Reg>)
    decreases ixs, 0
  {
    if ixs == [] || dims == [] then (b, acc)
    else
      var (b1, raw) := Expression(b, ixs[0]);
      var (b2, sum) := Dimension(b1, raw, dims[0], Total(dims[1..]), acc);
      Flatten(b2, dims[1..], ixs[1..], Some(sum))
  }

  function Dimension(b: Low, raw: Reg, dim: Dim, stride: int, acc: Option<Reg>): (Low, Reg) {
    var (b1, adj) := CheckedIndex(b, raw, dim);
    Contribution(b1, adj, stride, acc)
  }

  function CheckedIndex(b: Low, raw: Reg, dim: Dim): (Low, Reg) {
    var (b1, adj) := Adjusted(b, raw, dim.lo);
    (if 0 < dim.count <= MAX64 then BoundsCheck(b1, adj, dim.count) else b1, adj)
  }

  function Contribution(b: Low, adj: Reg, stride: int, acc: Option<Reg>): (Low, Reg) {
    var (b1, term) := Scaled(b, adj, stride);
    Summed(b1, acc, term)
  }

  function Adjusted(b: Low, raw: Reg, lo: int): (Low, Reg) {
    if lo == 0 then (b, raw)
    else
      var c := b.g.nextReg;
      (Ins(Ins(b, Const(c, IntC(lo))), Binary(c + 1, Sub, raw, c)), c + 1)
  }

  function Scaled(b: Low, adj: Reg, stride: int): (Low, Reg) {
    if stride == 1 then (b, adj)
    else
      var c := b.g.nextReg;
      (Ins(Ins(b, Const(c, IntC(stride))), Binary(c + 1, Mul, adj, c)), c + 1)
  }

  function Summed(b: Low, acc: Option<Reg>, term: Reg): (Low, Reg) {
    if acc.None? then (b, term)
    else (Ins(b, Binary(b.g.nextReg, Add, acc.value, term)), b.g.nextReg)
  }

  function ExpressionOr(b: Low, e: Option<Expr>, d: int): (Low, Reg) {
    if e.Some? then Expression(b, e.value) else (Ins(b, Const(b.g.nextReg, IntC(d))), b.g.nextReg)
  }

  // ---- Statements ------------------------------------------------------------------

  function Statements(b: Low, k: Ctx, ss: seq<Stmt>): Low
    decreases ss, 0
  {
    if ss == [] || Closed(b) then b
    else Statements(Statement(b, k, ss[0]), k, ss[1..])
  }

  /** Falls into `target` unless the block already has an end. */
  function JumpTo(b: Low, target: BlockId): Low {
    LEnd(b, Goto(target))
  }

  function Statement(b: Low, k: Ctx, s: Stmt): Low
    decreases s, 2
  {
    match s
    case Empty => b
    case Assign(d, e) => Assignment(b, d, e)
    case CallS(f, args) => Expression(b, CallE(f, args)).0
    case IncDec(d, amount, up) => Increment(b, d, amount, up)
    case Assert(e) => Assertion(b, e)
    case Halt(code) => HaltStatement(b, code)
    case If(_, _) => IfStatement(b, k, s)
    case While(_, _) => WhileStatement(b, k, s)
    case Repeat(_, _) => RepeatStatement(b, k, s)
    case For(_, _, _, _, _) => ForStatement(b, k, s)
    case Loop(_) => LoopStatement(b, k, s)
    case Exit => if b.g.loops == [] then b else LEnd(b, Goto(b.g.loops[|b.g.loops| - 1].exitBlock))
    case Return(val) => ReturnStatement(b, k, val)
    case Retry => if k.retry.None? then b else LEnd(RuntimeCall(b, HANDLED, []), Goto(k.retry.value))
    case Case(_, _, _, _) => CaseStatement(b, k, s)
  }

  function Assignment(b: Low, d: Designator, e: Expr): Low {
    var (b1, v) := Expression(b, e);
    var (b2, p) := Address(b1, d);
    LPush(b2, Store(p, v))
  }

  function Increment(b: Low, d: Designator, amount: Option<Expr>, up: bool): Low {
    var (b1, p) := Address(b, d);
    var cur := b1.g.nextReg;
    var (b2, delta) := ExpressionOr(Ins(b1, Load(cur, p)), amount, 1);
    var res := b2.g.nextReg;
    LPush(Ins(b2, Binary(res, if up then Add else Sub, cur, delta)), Store(p, res))
  }

  function Assertion(b: Low, e: Expr): Low {
    var (b1, v) := Expression(b, e);
    var fail := |Blocks(b1)|;
    var b2 := LSwitch(LEnd(LBlock(LBlock(b1)), CondBr(v, fail + 1, fail)), fail);
    LSwitch(AssertFailure(b2), fail + 1)
  }

  function AssertFailure(b: Low): Low {
    var msg := b.g.nextReg;
    var b1 := Ins(Ins(b, Const(msg, StrC(""))), Const(msg + 1, IntC(0)));
    LEnd(RuntimeCall(b1, ASSERT_FAILED, [msg, msg + 1]), Unreachable)
  }

  function HaltStatement(b: Low, code: Option<Expr>): Low {
    var (b1, c) := ExpressionOr(b, code, 1);
    var b2 := LEnd(RuntimeCall(b1, HALT, [c]), Unreachable);
    LSwitch(LBlock(b2), |Blocks(b2)|)
  }

  function IfStatement(b: Low, k: Ctx, s: Stmt): Low
    requires s.If?
    decreases s, 0
  {
    var join := |Blocks(b)|;
    var b1 := IfArms(LBlock(b), k, s.arms, s.els.ElseDo?, join);
    if s.els.ElseDo? then LSwitch(JumpTo(Statements(b1, k, s.els.ss), join), join) else b1
  }

  /** One test and one body per arm; the block left active is the one the last
      test falls into: the ELSE block, or the join. */
  function IfArms(b: Low, k: Ctx, arms: seq<IfArm>, hasElse: bool, join: BlockId): Low
    decreases arms, 0
  {
    if arms == [] then b
    else IfArms(OneIfArm(b, k, arms[0], 1 < |arms| || hasElse, join), k, arms[1..], hasElse, join)
  }

  function OneIfArm(b: Low, k: Ctx, arm: IfArm, more: bool, join: BlockId): Low
    decreases arm, 0
  {
    var then_ := |Blocks(b)|;
    var false_ := if more then then_ + 1 else join;
    var b1 := if more then LBlock(LBlock(b)) else LBlock(b);
    var (b2, c) := Expression(b1, arm.cond);
    var b3 := LSwitch(LEnd(b2, CondBr(c, then_, false_)), then_);
    LSwitch(JumpTo(Statements(b3, k, arm.body), join), false_)
  }

  function WhileStatement(b: Low, k: Ctx, s: Stmt): Low
    requires s.While?
    decreases s, 0
  {
    var header := |Blocks(b)|;
    LoopEnd(Statements(WhileIn(b, s.cond), k, s.body), header, header + 2)
  }

  /** The header with its test, then into the body. */
  function WhileIn(b: Low, cond: Expr): Low {
    var header := |Blocks(b)|;
    var (b1, c) := Expression(WhileHead(b), cond);
    LoopIn(b1, CondBr(c, header + 1, header + 2), header + 1, LoopFrame(header + 2, header))
  }

  function WhileHead(b: Low): Low {
    LSwitch(LEnd(LBlock(LBlock(LBlock(b))), Goto(|Blocks(b)|)), |Blocks(b)|)
  }

  /** Leave the active block with `t` and go on in `body`, inside a loop. */
  function LoopIn(b: Low, t: Terminator, body: BlockId, f: LoopFrame): Low {
    LEnter(LSwitch(LEnd(b, t), body), f)
  }

  /** After a loop body: out of the loop, back to `back`, on in `exit`. */
  function LoopEnd(b: Low, back: BlockId, exit: BlockId): Low {
    LSwitch(JumpTo(LLeave(b), back), exit)
  }

  function LoopTop(b: Low): Low {
    var top := |Blocks(b)|;
    LoopIn(LBlock(LBlock(b)), Goto(top), top, LoopFrame(top + 1, top))
  }

  function LoopStatement(b: Low, k: Ctx, s: Stmt): Low
    requires s.Loop?
    decreases s, 0
  {
    LoopEnd(Statements(LoopTop(b), k, s.body), |Blocks(b)|, |Blocks(b)| + 1)
  }

  function RepeatStatement(b: Low, k: Ctx, s: Stmt): Low
    requires s.Repeat?
    decreases s, 0
  {
    UntilTest(LLeave(Statements(LoopTop(b), k, s.body)), s.cond, |Blocks(b)|)
  }

  /** No test when the body never gets to its end. */
  function UntilTest(b: Low, cond: Expr, top: BlockId): Low {
    if Closed(b) then LSwitch(b, top + 1)
    else
      var (b1, c) := Expression(b, cond);
      LSwitch(LEnd(b1, CondBr(c, top + 1, top)), top + 1)
  }

  function ReturnStatement(b: Low, k: Ctx, val: Option<Expr>): Low {
    if val.None? then Leave(b, k, None)
    else
      var (b1, v) := Expression(b, val.value);
      Leave(b1, k, Some(v))
  }

  function Leave(b: Low, k: Ctx, v: Option<Reg>): Low {
    var b1 := FreeFrame(b, k);
    if k.resultSlot.None? then LEnd(b1, Terminator.Return(v))
    else if v.None? then LEnd(b1, Terminator.Return(None))
    else LEnd(LPush(b1, Store(k.resultSlot.value, v.value)), Terminator.Return(None))
  }

  function FreeFrame(b: Low, k: Ctx): Low {
    if k.frame.Some? then RuntimeCall(b, FREE, [k.frame.value]) else b
  }

  // ---- FOR ---------------------------------------------------------------------------

  function ForStatement(b: Low, k: Ctx, s: Stmt): Low
    requires s.For?
    decreases s, 0
  {
    var (b1, r) := ForSetup(b, s);
    ForTail(Statements(ForIn(b1, r), k, s.body), r, |Blocks(b1)|)
  }

  function ForHead(b: Low): Low {
    LSwitch(LEnd(LBlock(LBlock(LBlock(LBlock(b)))), Goto(|Blocks(b)|)), |Blocks(b)|)
  }

  function ForIn(b: Low, r: ForRegs): Low {
    var header := |Blocks(b)|;
    var (b1, c) := ForHeader(ForHead(b), r);
    LoopIn(b1, CondBr(c, header + 1, header + 3), header + 1, LoopFrame(header + 3, header + 2))
  }

  /** In front of the loop: the variable gets its start value before the end and
      the step are evaluated; then the sign of the step. */
  function ForSetup(b: Low, s: Stmt): (Low, ForRegs)
    requires s.For?
  {
    var (b1, ptr) := ForVariable(b, s.x);
    var (b2, v) := Expression(b1, s.from);
    var (b3, last) := Expression(LPush(b2, Store(ptr, v)), s.to);
    var (b4, stride) := ExpressionOr(b3, s.step, 1);
    var zero := b4.g.nextReg;
    (Ins(Ins(b4, Const(zero, IntC(0))), Binary(zero + 1, Ge, stride, zero)), ForRegs(ptr, last, stride, zero, zero + 1))
  }

  function ForTail(b: Low, r: ForRegs, header: BlockId): Low {
    var (b1, cur, fits) := ForRoom(LoopEnd(b, header + 2, header + 2), r);
    LSwitch(ForAdvance(ForFork(b1, fits, header), r, cur, header), header + 3)
  }

  function ForFork(b: Low, fits: Reg, header: BlockId): Low {
    LSwitch(LEnd(LBlock(b), CondBr(fits, |Blocks(b)|, header + 3)), |Blocks(b)|)
  }

  function ForAdvance(b: Low, r: ForRegs, cur: Reg, header: BlockId): Low {
    var next := b.g.nextReg;
    LEnd(LPush(Ins(b, Binary(next, Add, cur, r.stride)), Store(r.ptr, next)), Goto(header))
  }

  /** The storage of a FOR variable; a name without any gets a new slot that
      later statements of the function then use as well. */
  function ForVariable(b: Low, x: string): (Low, Reg) {
    if x in b.locals then NamePtr(b, x)
    else
      var p := b.g.nextReg;
      (Ins(b, Alloca(p, None)).(locals := b.locals[x := Binding(p, Direct)]), p)
  }

  datatype ForRegs = ForRegs(ptr: Reg, last: Reg, stride: Reg, zero: Reg, nonneg: Reg)

  /** (step >= 0 and cur <= last) or (step < 0 and cur >= last) */
  function ForHeader(b: Low, r: ForRegs): (Low, Reg) {
    var n := b.g.nextReg;
    var b1 := Ins(b, Load(n, r.ptr));
    var b2 := Ins(b1, Binary(n + 1, Le, n, r.last));
    var b3 := Ins(b2, Binary(n + 2, Ge, n, r.last));
    var b4 := Ins(b3, Unary(n + 3, UnaryOp.Not, r.nonneg));
    var b5 := Ins(b4, Binary(n + 4, And, r.nonneg, n + 1));
    var b6 := Ins(b5, Binary(n + 5, And, n + 3, n + 2));
    (Ins(b6, Binary(n + 6, Or, n + 4, n + 5)), n + 6)
  }

  /** Is there room for another whole step? */
  function ForRoom(b: Low, r: ForRegs): (Low, Reg, Reg) {
    var n := b.g.nextReg;
    var b1 := Ins(b, Load(n, r.ptr));
    var b2 := Ins(b1, Binary(n + 1, Sub, r.last, n));
    var b3 := Ins(b2, Binary(n + 2, Sub, n, r.last));
    var b4 := Ins(b3, Binary(n + 3, Sub, r.zero, r.stride));
    var b5 := Ins(b4, Unary(n + 4, UnaryOp.Not, r.nonneg));
    var b6 := Ins(b5, Binary(n + 5, Ge, n + 1, r.stride));
    var b7 := Ins(b6, Binary(n + 6, And, r.nonneg, n + 5));
    var b8 := Ins(b7, Binary(n + 7, Ge, n + 2, n + 3));
    var b9 := Ins(b8, Binary(n + 8, And, n + 4, n + 7));
    (Ins(b9, Binary(n + 9, Or, n + 6, n + 8)), n, n + 9)
  }

  // ---- CASE --------------------------------------------------------------------------

  function CaseStatement(b: Low, k: Ctx, s: Stmt): Low
    requires s.Case?
    decreases s, 1
  {
    var (b1, v) := Expression(b, s.scrutinee);
    var join := |Blocks(b1)|;
    CaseBodies(CaseDispatch(b1, v, s.carms), k, s, join)
  }

  /** The join, the ELSE block and one block per arm; tests for the ranges; a
      switch on the single labels. */
  function CaseDispatch(b: Low, v: Reg, arms: seq<CaseArm>): Low {
    var join := |Blocks(b)|;
    var b1 := RangeTests(AddBlocks(b, 2 + |arms|), v, Ranges(arms, join + 2));
    LEnd(b1, Switch(v, Singles(arms, join + 2), join + 1))
  }

  function CaseBodies(b: Low, k: Ctx, s: Stmt, join: BlockId): Low
    requires s.Case?
    decreases s, 0
  {
    var b1 := CaseArms(b, k, s.carms, join + 2, join);
    LSwitch(CaseElse(LSwitch(b1, join + 1), k, s.els, join), join)
  }

  function CaseElse(b: Low, k: Ctx, els: Else, join: BlockId): Low
    decreases els, 0
  {
    if els.ElseDo? then JumpTo(Statements(b, k, els.ss), join)
    else if Closed(b) then b
    else RaiseM2(b, CASE_EXCEPTION)
  }

  function AddBlocks(b: Low, n: nat): Low
    decreases n
  {
    if n == 0 then b else AddBlocks(LBlock(b), n - 1)
  }

  function LabelSingles(labels: seq<Label>, target: BlockId): seq<(int, BlockId)> {
    if labels == [] then []
    else (if labels[0].Single? then [(labels[0].n, target)] else []) + LabelSingles(labels[1..], target)
  }

  function LabelRanges(labels: seq<Label>, target: BlockId): seq<(int, int, BlockId)> {
    if labels == [] then []
    else (if labels[0].Range? then [(labels[0].lo, labels[0].hi, target)] else []) + LabelRanges(labels[1..], target)
  }

  /** Arm i of a CASE owns block `first + i`. */
  function Singles(arms: seq<CaseArm>, first: BlockId): seq<(int, BlockId)> {
    if arms == [] then [] else LabelSingles(arms[0].labels, first) + Singles(arms[1..], first + 1)
  }

  function Ranges(arms: seq<CaseArm>, first: BlockId): seq<(int, int, BlockId)> {
    if arms == [] then [] else LabelRanges(arms[0].labels, first) + Ranges(arms[1..], first + 1)
  }

  function RangeTest(b: Low, v: Reg, lo: int, hi: int, target: BlockId): Low {
    var next := |Blocks(b)|;
    var c := b.g.nextReg;
    var b1 := Ins(LBlock(b), Const(c, IntC(lo)));
    var b2 := Ins(b1, Const(c + 1, IntC(hi)));
    var b3 := Ins(b2, Binary(c + 2, Ge, v, c));
    var b4 := Ins(b3, Binary(c + 3, Le, v, c + 1));
    var b5 := Ins(b4, Binary(c + 4, And, c + 2, c + 3));
    LSwitch(LEnd(b5, CondBr(c + 4, target, next)), next)
  }

  function RangeTests(b: Low, v: Reg, ranges: seq<(int, int, BlockId)>): Low
    decreases |ranges|
  {
    if ranges == [] then b
    else RangeTests(RangeTest(b, v, ranges[0].0, ranges[0].1, ranges[0].2), v, ranges[1..])
  }

  function CaseArms(b: Low, k: Ctx, arms: seq<CaseArm>, first: BlockId, join: BlockId): Low
    decreases arms, 0
  {
    if arms == [] then b
    else CaseArms(JumpTo(Statements(LSwitch(b, first), k, arms[0].body), join), k, arms[1..], first + 1, join)
  }

  // ---- A whole function -----------------------------------------------------------------

  /** A parameter or local variable; VAR parameters and open arrays are indirect. */
  datatype Decl = Decl(name: string, indirect: bool)

  function DeclNames(decls: seq<Decl>): set<string> {
    set d | d in decls :: d.name
  }

  /** One declaration: its slot, and its name bound to it. */
  function Declared(b: Low, x: Decl): Low {
    var r := b.g.nextReg;
    Ins(b, Alloca(r, if x.indirect then None else Some(x.name)))
      .(locals := b.locals[x.name := Binding(r, if x.indirect then Indirect else Direct)])
  }

  /** A stack slot for every parameter and local, in the entry block. */
  function Prologue(b: Low, decls: seq<Decl>): Low
    decreases |decls|
  {
    if decls == [] then b else Prologue(Declared(b, decls[0]), decls[1..])
  }

  function FunctionBody(decls: seq<Decl>, body: seq<Stmt>): Low {
    Statements(Prologue(Low(Initial(), map[]), decls), Ctx(None, None, None), body)
  }
}
