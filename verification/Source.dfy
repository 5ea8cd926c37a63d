/** The Modula-2 statements the lowering takes apart (sections 8.2 and 9 of
    Wirth's report, fourth edition) and what running them means, told without any
    blocks, registers or jumps. */
module Source {
  import opened Arith
  import opened Ir
  import opened Machine

  /** One dimension of an array type: its lower bound and number of elements. */
  datatype Dim = Dim(lo: int, count: int)

  datatype Operator = Plus | Minus | Times | Slash | DivKw | ModKw | RemKw | Equal | NotEqual | Less | LessEq | Greater | GreaterEq

  /** An operator, and whether the types of its operands make it one on CARDINAL numbers. */
  datatype ArithOp = ArithOp(sign: Operator, cardinal: bool)

  /** A variable, or an array element; with fewer indices than dimensions, the
      start of the sub-array they select. */
  datatype Designator = Var(x: string) | Elem(x: string, dims: seq<Dim>, ixs: seq<Expr>)

  datatype Expr =
    | IntLit(n: int)
    | BoolLit(b: bool)
    | Des(d: Designator)
    | Arith(op: ArithOp, l: Expr, r: Expr)
    | AndThen(l: Expr, r: Expr)
    | OrElse(l: Expr, r: Expr)
    | NotE(e: Expr)
    | NegE(e: Expr)
    | CallE(f: string, args: seq<Arg>)

  datatype Arg = ByValue(e: Expr) | ByAddress(d: Designator)

  datatype Label = Single(n: int) | Range(lo: int, hi: int)
  datatype CaseArm = CaseArm(labels: seq<Label>, body: seq<Stmt>)
  datatype IfArm = IfArm(cond: Expr, body: seq<Stmt>)

  datatype Else = NoElse | ElseDo(ss: seq<Stmt>)

  datatype Stmt =
    | Empty
    | Assign(target: Designator, value: Expr)
    | CallS(f: string, args: seq<Arg>)
    | IncDec(target: Designator, amount: Option<Expr>, up: bool)
    | Assert(cond: Expr)
    | Halt(code: Option<Expr>)
    | If(arms: seq<IfArm>, els: Else)
    | While(cond: Expr, body: seq<Stmt>)
    | Repeat(body: seq<Stmt>, cond: Expr)
    | For(x: string, from: Expr, to: Expr, step: Option<Expr>, body: seq<Stmt>)
    | Loop(body: seq<Stmt>)
    | Exit
    | Return(val: Option<Expr>)
    | Retry
    | Case(scrutinee: Expr, cardinal: bool, carms: seq<CaseArm>, els: Else) // is the selector's type a CARDINAL one?

  // ---- Well-formedness: what the type checker has already established --------

  function Total(dims: seq<Dim>): int {
    if dims == [] then 1 else dims[0].count * Total(dims[1..])
  }

  ghost predicate GoodDims(dims: seq<Dim>) {
    && (forall d :: d in dims ==> d.count >= 1 && IsInt64(d.lo) && IsInt64(d.lo + d.count - 1))
    && Total(dims) <= MAX64
  }

  ghost predicate WfD(d: Designator)
    decreases d
  {
    match d
    case Var(_) => true
    case Elem(_, dims, ixs) => 1 <= |ixs| <= |dims| && GoodDims(dims) && forall e :: e in ixs ==> WfE(e)
  }

  ghost predicate WfE(e: Expr)
    decreases e
  {
    match e
    case IntLit(_) => true
    case BoolLit(_) => true
    case Des(d) => WfD(d)
    case Arith(_, l, r) => WfE(l) && WfE(r)
    case AndThen(l, r) => WfE(l) && WfE(r)
    case OrElse(l, r) => WfE(l) && WfE(r)
    case NotE(a) => WfE(a)
    case NegE(a) => WfE(a)
    case CallE(_, args) => forall a :: a in args ==> WfA(a)
  }

  ghost predicate WfA(a: Arg)
    decreases a
  {
    match a
    case ByValue(e) => WfE(e)
    case ByAddress(d) => WfD(d)
  }

  predicate Covers(l: Label, v: int) {
    match l
    case Single(n) => v == n
    case Range(lo, hi) => lo <= v <= hi
  }

  predicate ArmCovers(arm: CaseArm, v: int) {
    exists k :: 0 <= k < |arm.labels| && Covers(arm.labels[k], v)
  }

  /** No value is labelled by two arms, labels are values of the selector's 64-bit
      type, and no range is split (`CaseIsRightIff` in `CaseMeaning` is why). */
  ghost predicate GoodLabels(arms: seq<CaseArm>, cardinal: bool) {
    && (forall i, j, v :: 0 <= i < j < |arms| ==> !(ArmCovers(arms[i], v) && ArmCovers(arms[j], v)))
    && (forall i, k :: 0 <= i < |arms| && 0 <= k < |arms[i].labels| ==> InWidth(arms[i].labels[k], cardinal) && !Split(arms[i].labels[k], cardinal))
  }

  predicate InWidth(l: Label, cardinal: bool) {
    match l
    case Single(n) => IsValue(n, cardinal)
    case Range(lo, hi) => IsValue(lo, cardinal) && IsValue(hi, cardinal)
  }

  predicate IsValue(n: int, cardinal: bool) {
    if cardinal then 0 <= n < TWO64 else IsInt64(n)
  }

  /** One bound is below 2^63 and the other is not, in a CASE over a CARDINAL. */
  predicate Split(l: Label, cardinal: bool) {
    cardinal && l.Range? && (l.lo < TWO63) != (l.hi < TWO63)
  }

  /** The number 64 bits stand for in a selector. */
  function Reading(cardinal: bool, v: I64): int {
    if cardinal then Unsigned(v) else v
  }

  /** EXIT only inside a loop, RETRY only in a handler, FOR only over variables
      that have storage of their own in this frame (`own`). */
  ghost predicate WfS(s: Stmt, own: set<string>, inLoop: bool, inHandler: bool)
    decreases s
  {
    match s
    case Empty => true
    case Assign(d, e) => WfD(d) && WfE(e)
    case CallS(_, args) => forall a :: a in args ==> WfA(a)
    case IncDec(d, amount, _) => WfD(d) && (amount.Some? ==> WfE(amount.value))
    case Assert(e) => WfE(e)
    case Halt(code) => code.Some? ==> WfE(code.value)
    case If(arms, els) =>
      && (forall a :: a in arms ==> WfE(a.cond) && WfSs(a.body, own, inLoop, inHandler))
      && (els.ElseDo? ==> WfSs(els.ss, own, inLoop, inHandler))
    case While(e, body) => WfE(e) && WfSs(body, own, true, inHandler)
    case Repeat(body, e) => WfE(e) && WfSs(body, own, true, inHandler)
    case For(x, from, to, step, body) =>
      && x in own && WfE(from) && WfE(to) && (step.Some? ==> WfE(step.value))
      && WfSs(body, own, true, inHandler)
    case Loop(body) => WfSs(body, own, true, inHandler)
    case Exit => inLoop
    case Return(v) => v.Some? ==> WfE(v.value)
    case Retry => inHandler
    case Case(e, cardinal, arms, els) =>
      && WfE(e) && GoodLabels(arms, cardinal)
      && (forall a :: a in arms ==> WfSs(a.body, own, inLoop, inHandler))
      && (els.ElseDo? ==> WfSs(els.ss, own, inLoop, inHandler))
  }

  ghost predicate WfSs(ss: seq<Stmt>, own: set<string>, inLoop: bool, inHandler: bool)
    decreases ss
  {
    forall s :: s in ss ==> WfS(s, own, inLoop, inHandler)
  }

  // ---- Expressions -------------------------------------------------------------

  /** Evaluation yields a value, or ends the run inside a call that never
      returns (a raised exception, HALT). */
  datatype EvalResult<+T> = Val(v: T, st: State) | Escaped(st: State)

  function Raise(w: World, number: I64, st: State): State {
    st.(trace := st.trace + [Event(RAISE_M2, [Num(number)])])
  }

  const INDEX_EXCEPTION := 0
  const CASE_EXCEPTION := 2
  const DIV_EXCEPTION := 6

  predicate Divides(op: ArithOp) {
    op.sign.Slash? || op.sign.DivKw? || op.sign.ModKw? || op.sign.RemKw?
  }

  function Meaning(op: ArithOp, a: I64, b: I64): I64
    requires Divides(op) ==> b != 0
  {
    if op.cardinal then Wrap(OnCardinals(op.sign, Unsigned(a), Unsigned(b))) else OnIntegers(op.sign, a, b)
  }

  function OnCardinals(op: Operator, a: nat, b: nat): int
    requires b == 0 ==> !op.Slash? && !op.DivKw? && !op.ModKw? && !op.RemKw?
  {
    match op
    case Plus => a + b
    case Minus => a - b
    case Times => a * b
    case Slash => a / b
    case DivKw => a / b
    case ModKw => a % b
    case RemKw => a % b
    case Equal => if a == b then 1 else 0
    case NotEqual => if a == b then 0 else 1
    case Less => if a < b then 1 else 0
    case LessEq => if a > b then 0 else 1
    case Greater => if a > b then 1 else 0
    case GreaterEq => if a < b then 0 else 1
  }

  /** `/` divides unsigned whatever its operands are, see `SlashIsRightIff`. */
  function OnIntegers(op: Operator, a: I64, b: I64): I64
    requires b == 0 ==> !op.Slash? && !op.DivKw? && !op.ModKw? && !op.RemKw?
  {
    match op
    case Plus => Wrap(a + b)
    case Minus => Wrap(a - b)
    case Times => Wrap(a * b)
    case Slash => Wrap(Unsigned(a) / Unsigned(b))
    case DivKw => Wrap(FloorDiv(a, b))
    case ModKw => Modulo(a, b)
    case RemKw => TruncRem(a, b)
    case Equal => if a == b then 1 else 0
    case NotEqual => if a == b then 0 else 1
    case Less => if a < b then 1 else 0
    case LessEq => if a > b then 0 else 1
    case Greater => if a > b then 1 else 0
    case GreaterEq => if a < b then 0 else 1
  }

  function Eval(w: World, e: Expr, st: State): EvalResult<I64>
    decreases e
  {
    match e
    case IntLit(n) => Val(Wrap(n), st)
    case BoolLit(b) => Val(if b then 1 else 0, st)
    case Des(d) =>
      (match Locate(w, d, st)
       case Val(l, st1) => Val(ReadCell(st1, l), st1)
       case Escaped(st1) => Escaped(st1))
    case Arith(op, l, r) =>
      (match Eval(w, l, st)
       case Escaped(st1) => Escaped(st1)
       case Val(a, st1) =>
         match Eval(w, r, st1)
         case Escaped(st2) => Escaped(st2)
         case Val(b, st2) =>
           if Divides(op) && b == 0 then Escaped(Raise(w, DIV_EXCEPTION, st2))
           else Val(Meaning(op, a, b), st2))
    case AndThen(l, r) =>
      (match Eval(w, l, st)
       case Escaped(st1) => Escaped(st1)
       case Val(a, st1) => if a != 0 then Eval(w, r, st1) else Val(a, st1))
    case OrElse(l, r) =>
      (match Eval(w, l, st)
       case Escaped(st1) => Escaped(st1)
       case Val(a, st1) => if a != 0 then Val(a, st1) else Eval(w, r, st1))
    case NotE(a) =>
      (match Eval(w, a, st)
       case Escaped(st1) => Escaped(st1)
       case Val(v, st1) => Val(if v == 0 then 1 else 0, st1))
    case NegE(a) =>
      (match Eval(w, a, st)
       case Escaped(st1) => Escaped(st1)
       case Val(v, st1) => Val(Wrap(0 - v), st1))
    case CallE(f, args) =>
      (match EvalArgs(w, args, st)
       case Escaped(st1) => Escaped(st1)
       case Val(vs, st1) => CallOut(w, f, vs, st1))
  }

  function CallOut(w: World, f: string, vs: seq<Value>, st: State): EvalResult<I64> {
    match Invoke(w, f, vs, st)
    case Returned(v, st1) => Val(v, st1)
    case Gone(st1) => Escaped(st1)
  }

  function EvalArgs(w: World, args: seq<Arg>, st: State): EvalResult<seq<Value>>
    decreases args
  {
    if args == [] then Val([], st)
    else match EvalArg(w, args[0], st)
      case Escaped(st1) => Escaped(st1)
      case Val(v, st1) =>
        match EvalArgs(w, args[1..], st1)
        case Escaped(st2) => Escaped(st2)
        case Val(vs, st2) => Val([v] + vs, st2)
  }

  function EvalArg(w: World, a: Arg, st: State): EvalResult<Value>
    decreases a
  {
    match a
    case ByValue(e) =>
      (match Eval(w, e, st)
       case Escaped(st1) => Escaped(st1)
       case Val(v, st1) => Val(Num(v), st1))
    case ByAddress(d) =>
      (match Locate(w, d, st)
       case Escaped(st1) => Escaped(st1)
       case Val(l, st1) => Val(CellAddr(l), st1))
  }

  /** Where a designator's variable lives. An element of an array lives at its
      row-major rank; an index outside its dimension raises indexException. */
  function Locate(w: World, d: Designator, st: State): EvalResult<Loc>
    decreases d
  {
    match d
    case Var(x) => Val(Loc(w.env(x), 0), st)
    case Elem(x, dims, ixs) =>
      match Rank(w, dims, ixs, st)
      case Escaped(st1) => Escaped(st1)
      case Val(r, st1) => Val(Loc(w.env(x), r), st1)
  }

  function Rank(w: World, dims: seq<Dim>, ixs: seq<Expr>, st: State): EvalResult<int>
    decreases ixs
  {
    if ixs == [] || dims == [] then Val(0, st)
    else match Eval(w, ixs[0], st)
      case Escaped(st1) => Escaped(st1)
      case Val(v, st1) =>
        if !(dims[0].lo <= v < dims[0].lo + dims[0].count) then Escaped(Raise(w, INDEX_EXCEPTION, st1))
        else match Rank(w, dims[1..], ixs[1..], st1)
          case Escaped(st2) => Escaped(st2)
          case Val(r, st2) => Val((v - dims[0].lo) * Total(dims[1..]) + r, st2)
  }

  // ---- Statements ----------------------------------------------------------------

  datatype Outcome = Normal | Exited | Retried | Leaves(v: Option<I64>) | Ended | Timeout

  datatype Res = Res(o: Outcome, st: State)

  /** A RETURN frees the exception frame it leaves behind, and the body outlined
      from a protected function hands its value over through the shared cell. */
  function LeaveFunction(w: World, v: Option<I64>, st: State): Res {
    var st1 := if w.frame.Some? then st.(trace := st.trace + [Event(FREE, [w.frame.value])]) else st;
    if w.resultCell.None? then Res(Leaves(v), st1)
    else if v.None? then Res(Leaves(None), st1)
    else Res(Leaves(None), WriteCell(st1, w.resultCell.value, v.value))
  }

  /** The first arm labelled with the value. */
  function Pick(arms: seq<CaseArm>, v: int): (r: Option<nat>)
    ensures r.Some? ==> r.value < |arms| && ArmCovers(arms[r.value], v)
  {
    if arms == [] then None
    else if ArmCovers(arms[0], v) then Some(0)
    else match Pick(arms[1..], v)
      case Some(i) => Some(i + 1)
      case None => None
  }

  predicate ForRuns(cur: I64, last: I64, step: I64) {
    if step >= 0 then cur <= last else cur >= last
  }

  /** The room test in front of every advance of a FOR variable, in 64 bits. */
  predicate StepFits(cur: I64, last: I64, step: I64) {
    if step >= 0 then Wrap(last - cur) >= step else Wrap(cur - last) >= Wrap(0 - step)
  }

  /** Runs at most `fuel` rounds of any loop; `Timeout` carries the state so far. */
  function Exec(w: World, s: Stmt, fuel: nat, st: State): Res
    decreases fuel, s, 0
  {
    match s
    case Empty => Res(Normal, st)
    case Assign(d, e) =>
      (match Eval(w, e, st)
       case Escaped(st1) => Res(Ended, st1)
       case Val(v, st1) =>
         match Locate(w, d, st1)
         case Escaped(st2) => Res(Ended, st2)
         case Val(l, st2) => Res(Normal, WriteCell(st2, l, v)))
    case CallS(f, args) =>
      (match Eval(w, CallE(f, args), st)
       case Escaped(st1) => Res(Ended, st1)
       case Val(_, st1) => Res(Normal, st1))
    case IncDec(d, amount, up) =>
      (match Locate(w, d, st)
       case Escaped(st1) => Res(Ended, st1)
       case Val(l, st1) =>
         match EvalOr(w, amount, 1, st1)
         case Escaped(st2) => Res(Ended, st2)
         case Val(delta, st2) =>
           var before := ReadCell(st1, l);
           Res(Normal, WriteCell(st2, l, Wrap(if up then before + delta else before - delta))))
    case Assert(e) =>
      (match Eval(w, e, st)
       case Escaped(st1) => Res(Ended, st1)
       case Val(v, st1) =>
         if v != 0 then Res(Normal, st1)
         else Res(Ended, st1.(trace := st1.trace + [Event(ASSERT_FAILED, [Text(""), Num(0)])])))
    case Halt(code) =>
      (match EvalOr(w, code, 1, st)
       case Escaped(st1) => Res(Ended, st1)
       case Val(v, st1) => Res(Ended, st1.(trace := st1.trace + [Event(HALT, [Num(v)])])))
    case If(arms, els) =>
      (match ExecArms(w, arms, fuel, st)
       case Took(r) => r
       case Fell(st1) => if els.ElseDo? then ExecAll(w, els.ss, fuel, st1) else Res(Normal, st1))
    case While(e, body) =>
      if fuel == 0 then Res(Timeout, st)
      else (match Eval(w, e, st)
        case Escaped(st1) => Res(Ended, st1)
        case Val(v, st1) =>
          if v == 0 then Res(Normal, st1)
          else
            var r := ExecAll(w, body, fuel, st1);
            if r.o.Normal? then Exec(w, s, fuel - 1, r.st)
            else if r.o.Exited? then Res(Normal, r.st)
            else r)
    case Repeat(body, e) =>
      if fuel == 0 then Res(Timeout, st)
      else
        var r := ExecAll(w, body, fuel, st);
        if r.o.Normal? then
          (match Eval(w, e, r.st)
           case Escaped(st1) => Res(Ended, st1)
           case Val(v, st1) => if v != 0 then Res(Normal, st1) else Exec(w, s, fuel - 1, st1))
        else if r.o.Exited? then Res(Normal, r.st)
        else r
    case For(x, from, to, step, body) =>
      (match Eval(w, from, st)
       case Escaped(st1) => Res(Ended, st1)
       case Val(a, st1) =>
         match Eval(w, to, WriteCell(st1, Loc(w.env(x), 0), a))
         case Escaped(st2) => Res(Ended, st2)
         case Val(last, st2) =>
           match EvalOr(w, step, 1, st2)
           case Escaped(st3) => Res(Ended, st3)
           case Val(stride, st3) => ExecFor(w, x, last, stride, body, fuel, st3))
    case Loop(body) =>
      if fuel == 0 then Res(Timeout, st)
      else
        var r := ExecAll(w, body, fuel, st);
        if r.o.Normal? then Exec(w, s, fuel - 1, r.st)
        else if r.o.Exited? then Res(Normal, r.st)
        else r
    case Exit => Res(Exited, st)
    case Return(None) => LeaveFunction(w, None, st)
    case Return(Some(e)) =>
      (match Eval(w, e, st)
       case Escaped(st1) => Res(Ended, st1)
       case Val(v, st1) => LeaveFunction(w, Some(v), st1))
    case Retry => Res(Retried, st.(trace := st.trace + [Event(HANDLED, [])]))
    case Case(e, cardinal, arms, els) =>
      (match Eval(w, e, st)
       case Escaped(st1) => Res(Ended, st1)
       case Val(v, st1) =>
         match Pick(arms, Reading(cardinal, v))
         case Some(i) => ExecAll(w, arms[i].body, fuel, st1)
         case None =>
           if els.ElseDo? then ExecAll(w, els.ss, fuel, st1)
           else Res(Ended, Raise(w, CASE_EXCEPTION, st1)))
  }

  function EvalOr(w: World, e: Option<Expr>, d: I64, st: State): EvalResult<I64> {
    if e.Some? then Eval(w, e.value, st) else Val(d, st)
  }

  datatype ArmRes = Took(r: Res) | Fell(st: State)

  function ExecArms(w: World, arms: seq<IfArm>, fuel: nat, st: State): ArmRes
    decreases fuel, arms, 0
  {
    if arms == [] then Fell(st)
    else match Eval(w, arms[0].cond, st)
      case Escaped(st1) => Took(Res(Ended, st1))
      case Val(v, st1) =>
        if v != 0 then Took(ExecAll(w, arms[0].body, fuel, st1))
        else ExecArms(w, arms[1..], fuel, st1)
  }

  function ExecAll(w: World, ss: seq<Stmt>, fuel: nat, st: State): Res
    decreases fuel, ss, 0
  {
    if ss == [] then Res(Normal, st)
    else
      var r := Exec(w, ss[0], fuel, st);
      if r.o.Normal? then ExecAll(w, ss[1..], fuel, r.st) else r
  }

  function ExecFor(w: World, x: string, last: I64, step: I64, body: seq<Stmt>, fuel: nat, st: State): Res
    decreases fuel, body, 1
  {
    var l := Loc(w.env(x), 0);
    if fuel == 0 then Res(Timeout, st)
    else if !ForRuns(ReadCell(st, l), last, step) then Res(Normal, st)
    else
      var r := ExecAll(w, body, fuel, st);
      if r.o.Normal? then
        var cur := ReadCell(r.st, l);
        if StepFits(cur, last, step)
        then ExecFor(w, x, last, step, body, fuel - 1, WriteCell(r.st, l, Wrap(cur + step)))
        else Res(Normal, r.st)
      else if r.o.Exited? then Res(Normal, r.st)
      else r
  }
}
