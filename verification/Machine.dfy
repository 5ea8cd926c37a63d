/** What a control-flow graph does when it runs: a small-step machine over
    registers, stack slots, program variables and a trace of calls. */
module Machine {
  import opened Arith
  import opened Ir

  /** A program variable's cell: the variable's base and an element offset. */
  datatype Loc = Loc(base: nat, off: int)

  datatype Value =
    | Num(n: I64)
    | CellAddr(loc: Loc)
    | SlotAddr(slot: Reg)
    | Code(f: string)
    | Text(s: string)

  datatype Event = Event(callee: string, args: seq<Value>)

  datatype State = State(cells: map<Loc, I64>, trace: seq<Event>)

  function ReadCell(st: State, l: Loc): I64 {
    if l in st.cells then st.cells[l] else 0
  }

  function WriteCell(st: State, l: Loc, v: I64): State {
    st.(cells := st.cells[l := v])
  }

  /** A call to code outside the function either comes back with a value and new
      contents for the program variables, or never comes back. */
  datatype Reply = Answer(val: I64, cells: map<Loc, I64>) | NeverReturns

  /** The outside world, and the frame the function runs in: where each name's
      variable lives, the exception frame to free on return, the shared result
      cell of an outlined protected body, the cells the frame has for names, and the
      module's variables. A parameter passed by address lives in none of the last two. */
  datatype World = World(
    call: (string, seq<Value>, State) -> Reply,
    env: string -> nat,
    frame: Option<Value>,
    resultCell: Option<Loc>,
    home: string -> nat,
    global: string -> nat)

  const RAISE_M2 := "nm2_raise_m2"
  const HALT := "nm2_halt"
  const ASSERT_FAILED := "nm2_assert_failed"
  const RERAISE := "nm2_reraise"
  const FREE := "nm2_free"
  const HANDLED := "nm2_exception_handled"
  const RUN_PROTECTED := "nm2_run_protected"

  predicate NeverComesBack(f: string) {
    f == RAISE_M2 || f == HALT || f == ASSERT_FAILED || f == RERAISE
  }

  predicate TouchesNothing(f: string) {
    f == FREE || f == HANDLED
  }

  datatype CallResult = Returned(val: I64, st: State) | Gone(st: State)

  function Invoke(w: World, f: string, args: seq<Value>, st: State): CallResult {
    var trace := st.trace + [Event(f, args)];
    if NeverComesBack(f) then Gone(st.(trace := trace))
    else if TouchesNothing(f) then Returned(0, st.(trace := trace))
    else match w.call(f, args, st)
      case Answer(v, cells) => Returned(v, State(cells, trace))
      case NeverReturns => Gone(st.(trace := trace))
  }

  /** A running configuration: the next instruction is `idx` of block `blk`. */
  datatype Config = Config(blk: BlockId, idx: nat, regs: map<Reg, Value>, slots: map<Reg, Value>, st: State)

  datatype Final = Result(v: Option<I64>) | Aborted

  datatype Status = Run(c: Config) | Done(final: Final, st: State) | Stuck

  /** Division as machine code does it: towards zero, and one less when something is
      left over and the signs differ. */
  function Floored(a: I64, b: I64): I64
    requires b != 0
  {
    var q := Wrap(TruncDiv(a, b));
    var rest := Wrap(a - Wrap(q * b));
    if rest != 0 && ((a < 0) != (b < 0)) then Wrap(q - 1) else q
  }

  function BinaryOf(op: BinOp, a: I64, b: I64): Option<I64> {
    match op
    case Add => Some(Wrap(a + b))
    case Sub => Some(Wrap(a - b))
    case Mul => Some(Wrap(a * b))
    case Div => if b == 0 then None else Some(Floored(a, b))
    case Mod => if b == 0 then None else Some(Wrap(a - Wrap(Floored(a, b) * b)))
    case Quot => if b == 0 then None else Some(Wrap(Unsigned(a) / Unsigned(b)))
    case Rem => if b == 0 then None else Some(Wrap(Unsigned(a) % Unsigned(b)))
    case SRem => if b == 0 then None else Some(TruncRem(a, b))
    case Eq => Some(FromBool(a == b))
    case Ne => Some(FromBool(a != b))
    case Lt => Some(FromBool(a < b))
    case Le => Some(FromBool(a <= b))
    case Gt => Some(FromBool(a > b))
    case Ge => Some(FromBool(a >= b))
    case ULt => Some(FromBool(Unsigned(a) < Unsigned(b)))
    case ULe => Some(FromBool(Unsigned(a) <= Unsigned(b)))
    case UGt => Some(FromBool(Unsigned(a) > Unsigned(b)))
    case UGe => Some(FromBool(Unsigned(a) >= Unsigned(b)))
    case And => Some(FromBool(a != 0 && b != 0))
    case Or => Some(FromBool(a != 0 || b != 0))
  }

  function UnaryOf(op: UnaryOp, a: I64): I64 {
    match op
    case Neg => Wrap(0 - a)
    case Not => FromBool(a == 0)
  }

  function ConstOf(w: World, k: ConstVal): Value {
    match k
    case IntC(n) => Num(Wrap(n))
    case BoolC(b) => Num(FromBool(b))
    case StrC(s) => Text(s)
    case FuncRef(f) => Code(f)
    case GlobalRef(x) => CellAddr(Loc(w.global(x), 0))
  }

  predicate HasNum(c: Config, r: Reg) {
    r in c.regs && c.regs[r].Num?
  }

  function Set(c: Config, r: Reg, v: Value): Config {
    c.(regs := c.regs[r := v], idx := c.idx + 1)
  }

  function ExecInst(w: World, i: Inst, c: Config): Status {
    match i
    case Const(dst, k) => Run(Set(c, dst, ConstOf(w, k)))
    case Alloca(dst, home) =>
      Run(Set(c, dst, if home.Some? then CellAddr(Loc(w.home(home.value), 0)) else SlotAddr(dst)))
    case Load(dst, ptr) =>
      if ptr !in c.regs then Stuck
      else (match c.regs[ptr]
            case CellAddr(l) => Run(Set(c, dst, Num(ReadCell(c.st, l))))
            case SlotAddr(s) => if s in c.slots then Run(Set(c, dst, c.slots[s])) else Stuck
            case _ => Stuck)
    case Store(ptr, src) =>
      if ptr !in c.regs || src !in c.regs then Stuck
      else (match c.regs[ptr]
            case CellAddr(l) =>
              if c.regs[src].Num?
              then Run(c.(st := WriteCell(c.st, l, c.regs[src].n), idx := c.idx + 1))
              else Stuck
            case SlotAddr(s) => Run(c.(slots := c.slots[s := c.regs[src]], idx := c.idx + 1))
            case _ => Stuck)
    case IndexPtr(dst, base, index) =>
      if base in c.regs && c.regs[base].CellAddr? && HasNum(c, index)
      then var l := c.regs[base].loc;
           Run(Set(c, dst, CellAddr(Loc(l.base, l.off + c.regs[index].n))))
      else Stuck
    case TypedPtr(dst, src) => if src in c.regs then Run(Set(c, dst, c.regs[src])) else Stuck
    case Unary(dst, op, src) => if HasNum(c, src) then Run(Set(c, dst, Num(UnaryOf(op, c.regs[src].n)))) else Stuck
    case Binary(dst, op, l, r) =>
      if HasNum(c, l) && HasNum(c, r)
      then (match BinaryOf(op, c.regs[l].n, c.regs[r].n)
            case Some(v) => Run(Set(c, dst, Num(v)))
            case None => Stuck)
      else Stuck
    case Call(res, callee, args) =>
      if callee in c.regs && c.regs[callee].Code? && (forall k :: 0 <= k < |args| ==> args[k] in c.regs)
      then (match Invoke(w, c.regs[callee].f, ValuesOf(c.regs, args), c.st)
            case Returned(v, st) =>
              (match res
               case Some(dst) => Run(Set(c.(st := st), dst, Num(v)))
               case None => Run(c.(st := st, idx := c.idx + 1)))
            case Gone(st) => Done(Aborted, st))
      else Stuck
  }

  function ValuesOf(regs: map<Reg, Value>, args: seq<Reg>): seq<Value>
    requires forall k :: 0 <= k < |args| ==> args[k] in regs
  {
    seq(|args|, k requires 0 <= k < |args| => regs[args[k]])
  }

  function Enter(c: Config, b: BlockId): Status {
    Run(c.(blk := b, idx := 0))
  }

  /** The first arm whose (64-bit) label equals the value, else the default. */
  function SwitchTarget(arms: seq<(int, BlockId)>, default: BlockId, v: int): BlockId {
    if arms == [] then default
    else if Wrap(arms[0].0) == v then arms[0].1
    else SwitchTarget(arms[1..], default, v)
  }

  function ExecTerm(t: Terminator, c: Config): Status {
    match t
    case Goto(b) => Enter(c, b)
    case CondBr(r, bt, bf) => if HasNum(c, r) then Enter(c, if c.regs[r].n != 0 then bt else bf) else Stuck
    case Switch(r, arms, d) => if HasNum(c, r) then Enter(c, SwitchTarget(arms, d, c.regs[r].n)) else Stuck
    case Return(None) => Done(Result(None), c.st)
    case Return(Some(r)) => if HasNum(c, r) then Done(Result(Some(c.regs[r].n)), c.st) else Stuck
    case Unreachable => Stuck
  }

  function Step(w: World, f: seq<Block>, s: Status): Status {
    match s
    case Run(c) =>
      if c.blk >= |f| then Stuck
      else if c.idx < |f[c.blk].insts| then ExecInst(w, f[c.blk].insts[c.idx], c)
      else ExecTerm(f[c.blk].term, c)
    case _ => s
  }

  function Steps(w: World, f: seq<Block>, n: nat, s: Status): Status {
    if n == 0 then s else Steps(w, f, n - 1, Step(w, f, s))
  }

  /** `s` becomes `t` after `k` steps or more. */
  ghost predicate Reach(w: World, f: seq<Block>, k: nat, s: Status, t: Status) {
    exists n: nat :: n >= k && Steps(w, f, n, s) == t
  }

  lemma {:induction false} StepsCompose(w: World, f: seq<Block>, m: nat, n: nat, s: Status)
    ensures Steps(w, f, m + n, s) == Steps(w, f, n, Steps(w, f, m, s))
  {
    if m > 0 {
      StepsCompose(w, f, m - 1, n, Step(w, f, s));
    }
  }

  lemma ReachRefl(w: World, f: seq<Block>, s: Status)
    ensures Reach(w, f, 0, s, s)
  {
    assert Steps(w, f, 0, s) == s;
  }

  lemma ReachStep(w: World, f: seq<Block>, s: Status)
    ensures Reach(w, f, 1, s, Step(w, f, s))
  {
    assert Steps(w, f, 1, s) == Steps(w, f, 0, Step(w, f, s)) == Step(w, f, s);
  }

  lemma ReachTrans(w: World, f: seq<Block>, j: nat, k: nat, s: Status, t: Status, u: Status)
    requires Reach(w, f, j, s, t) && Reach(w, f, k, t, u)
    ensures forall i: nat :: i <= j + k ==> Reach(w, f, i, s, u)
  {
    var m: nat :| m >= j && Steps(w, f, m, s) == t;
    var n: nat :| n >= k && Steps(w, f, n, t) == u;
    StepsCompose(w, f, m, n, s);
    assert Steps(w, f, m + n, s) == u;
  }

  /** A run that has ended stays ended, so its end is unique. */
  lemma {:induction false} DoneForever(w: World, f: seq<Block>, n: nat, s: Status)
    requires !s.Run?
    ensures Steps(w, f, n, s) == s
  {
    if n > 0 {
      DoneForever(w, f, n - 1, s);
    }
  }

  lemma EndIsUnique(w: World, f: seq<Block>, m: nat, n: nat, s: Status)
    requires !Steps(w, f, m, s).Run?
    ensures !Steps(w, f, n, s).Run? ==> Steps(w, f, m, s) == Steps(w, f, n, s)
    ensures n >= m ==> Steps(w, f, n, s) == Steps(w, f, m, s)
  {
    if n >= m {
      StepsCompose(w, f, m, n - m, s);
      DoneForever(w, f, n - m, Steps(w, f, m, s));
    } else if !Steps(w, f, n, s).Run? {
      StepsCompose(w, f, n, m - n, s);
      DoneForever(w, f, m - n, Steps(w, f, n, s));
    }
  }
}
