/** From a builder's state to a machine's: where execution stands, what the code
    around relies on, and what one appended instruction, jump or trap does. */
module Running {
  import opened Arith
  import opened Ir
  import opened Machine
  import opened Source
  import opened Builder
  import opened LowerSpec
  import opened LowerGrow

  /** About to execute what comes next in the builder's active block. */
  ghost predicate At(c: Config, b: Low) {
    c.blk == b.g.current && c.idx == |Blocks(b)[c.blk].insts|
  }

  /** Every bound name's storage register leads to the name's variable; the others are
      the module's. */
  ghost predicate Names(w: World, b: Low, c: Config) {
    Bound(w, b, c) && forall x :: x !in b.locals ==> w.global(x) == w.env(x)
  }

  ghost predicate Bound(w: World, b: Low, c: Config) {
    forall x :: x in b.locals ==>
      var s := b.locals[x].storage;
      && s < b.g.nextReg && s in c.regs
      && (if b.locals[x].kind.Direct? then c.regs[s] == CellAddr(Loc(w.env(x), 0))
          else c.regs[s] == SlotAddr(s) && s in c.slots && c.slots[s] == CellAddr(Loc(w.env(x), 0)))
  }

  /** Registers and slots below `n` still hold what they held. */
  ghost predicate Kept(n: Reg, c: Config, d: Config) {
    && (forall r :: r < n && r in c.regs ==> r in d.regs && d.regs[r] == c.regs[r])
    && (forall r :: r < n && r in c.slots ==> r in d.slots && d.slots[r] == c.slots[r])
  }

  ghost predicate Arrives(w: World, f: seq<Block>, b: Low, b1: Low, c: Config, d: Config, st: State) {
    && Reach(w, f, 0, Run(c), Run(d))
    && At(d, b1)
    && d.st == st
    && Kept(b.g.nextReg, c, d)
  }

  ghost predicate Holds(b: Low, d: Config, r: Reg, v: Value) {
    r < b.g.nextReg && r in d.regs && d.regs[r] == v
  }

  /** The code between `b` and `b1` behaves as an evaluation with result `res`. */
  ghost predicate Yields(w: World, f: seq<Block>, b: Low, b1: Low, c: Config, d: Config, r: Reg, res: EvalResult<Value>) {
    match res
    case Val(v, st) => Arrives(w, f, b, b1, c, d, st) && Holds(b1, d, r, v)
    case Escaped(st) => Reach(w, f, 0, Run(c), Done(Aborted, st))
  }

  function AsNum(res: EvalResult<I64>): EvalResult<Value> {
    match res
    case Val(v, st) => Val(Num(v), st)
    case Escaped(st) => Escaped(st)
  }

  function AsAddr(res: EvalResult<Loc>): EvalResult<Value> {
    match res
    case Val(l, st) => Val(CellAddr(l), st)
    case Escaped(st) => Escaped(st)
  }

  // ---- Single steps ---------------------------------------------------------------

  lemma NamesKept(w: World, b: Low, b1: Low, c: Config, d: Config)
    requires Names(w, b, c) && Kept(b.g.nextReg, c, d) && b1.locals == b.locals && b.g.nextReg <= b1.g.nextReg
    ensures Names(w, b1, d)
  {
  }

  lemma KeptTrans(n: Reg, m: Reg, c: Config, d: Config, e: Config)
    requires Kept(n, c, d) && Kept(m, d, e) && n <= m
    ensures Kept(n, c, e)
  {
  }

  lemma HoldsKept(b: Low, b1: Low, c: Config, d: Config, r: Reg, v: Value)
    requires Holds(b, c, r, v) && Kept(b.g.nextReg, c, d) && b.g.nextReg <= b1.g.nextReg
    ensures Holds(b1, d, r, v)
  {
  }

  lemma ArrivesTrans(w: World, f: seq<Block>, a: Low, b: Low, b1: Low, c: Config, d: Config, e: Config, st: State, st1: State)
    requires Arrives(w, f, a, b, c, d, st) && Arrives(w, f, b, b1, d, e, st1) && a.g.nextReg <= b.g.nextReg
    ensures Arrives(w, f, a, b1, c, e, st1)
  {
    ReachTrans(w, f, 0, 0, Run(c), Run(d), Run(e));
    KeptTrans(a.g.nextReg, b.g.nextReg, c, d, e);
  }

  lemma ArrivesRefl(w: World, f: seq<Block>, b: Low, c: Config)
    requires At(c, b)
    ensures Arrives(w, f, b, b, c, c, c.st)
  {
    ReachRefl(w, f, Run(c));
  }

  /** What is appended to an open block is what the machine executes there. */
  lemma PushStep(w: World, f: seq<Block>, b: Low, i: Inst, c: Config)
    requires !Closed(b) && At(c, b) && Ext(Blocks(LPush(b, i)), f)
    ensures Reach(w, f, 0, Run(c), ExecInst(w, i, c))
    ensures Step(w, f, Run(c)) == ExecInst(w, i, c)
  {
    var b1 := LPush(b, i);
    var n := |Blocks(b)[c.blk].insts|;
    assert Blocks(b1)[c.blk].insts == Blocks(b)[c.blk].insts + [i];
    assert Continues(Blocks(b1)[c.blk], f[c.blk]);
    assert Blocks(b1)[c.blk].insts[n] == i;
    assert f[c.blk].insts[n] == i;
    ReachStep(w, f, Run(c));
    Weaken(w, f, 1, Run(c), ExecInst(w, i, c));
  }

  lemma Weaken(w: World, f: seq<Block>, k: nat, s: Status, t: Status)
    requires Reach(w, f, k, s, t)
    ensures Reach(w, f, 0, s, t)
  {
    var n: nat :| n >= k && Steps(w, f, n, s) == t;
    assert n >= 0;
  }

  lemma EndStep(w: World, f: seq<Block>, b: Low, t: Terminator, c: Config)
    requires !Closed(b) && !t.Unreachable? && At(c, b) && Ext(Blocks(LEnd(b, t)), f)
    ensures Reach(w, f, 1, Run(c), ExecTerm(t, c)) && Reach(w, f, 0, Run(c), ExecTerm(t, c))
  {
    var b1 := LEnd(b, t);
    assert Continues(Blocks(b1)[c.blk], f[c.blk]);
    assert f[c.blk] == Blocks(b1)[c.blk];
    ReachStep(w, f, Run(c));
    Weaken(w, f, 1, Run(c), ExecTerm(t, c));
  }

  /** An instruction that defines the next fresh register as `v`. */
  lemma InsStep(w: World, f: seq<Block>, b: Low, i: Inst, c: Config, v: Value) returns (d: Config)
    requires !Closed(b) && At(c, b) && Ext(Blocks(Ins(b, i)), f)
    requires ExecInst(w, i, c) == Run(Set(c, b.g.nextReg, v))
    ensures d == Set(c, b.g.nextReg, v)
    ensures Arrives(w, f, b, Ins(b, i), c, d, c.st) && Holds(Ins(b, i), d, b.g.nextReg, v)
    ensures !Closed(Ins(b, i)) && Ins(b, i).locals == b.locals && Ins(b, i).g.nextReg == b.g.nextReg + 1
  {
    d := Set(c, b.g.nextReg, v);
    PushStep(w, f, LFresh(b), i, c);
  }

  /** Whatever lowering adds later, the blocks it started from are extended. */
  lemma ExtBack(a: Low, b: Low, f: seq<Block>)
    requires Grows(a, b) && Ext(Blocks(b), f)
    ensures Ext(Blocks(a), f)
  {
    ExtTrans(Blocks(a), Blocks(b), f);
  }

  lemma ExtIns(b: Low, i: Inst, f: seq<Block>)
    requires Ext(Blocks(Ins(b, i)), f)
    ensures Ext(Blocks(b), f)
  {
    GrowsRefl(b);
    GIns(b, b, i);
    ExtBack(b, Ins(b, i), f);
  }

  lemma ExtPush(b: Low, i: Inst, f: seq<Block>)
    requires Ext(Blocks(LPush(b, i)), f)
    ensures Ext(Blocks(b), f)
  {
    PushExt(b, i);
    ExtBack(b, LPush(b, i), f);
  }

  // ---- Runtime calls and traps -------------------------------------------------------

  lemma RuntimeCallStep(w: World, f: seq<Block>, b: Low, fn: string, args: seq<Reg>, c: Config) returns (d: Config)
    requires !Closed(b) && At(c, b) && Ext(Blocks(RuntimeCall(b, fn, args)), f)
    requires forall k :: 0 <= k < |args| ==> args[k] in c.regs && args[k] < b.g.nextReg
    ensures match Invoke(w, fn, ValuesOf(c.regs, args), c.st)
            case Returned(_, st) => Arrives(w, f, b, RuntimeCall(b, fn, args), c, d, st)
            case Gone(st) => Reach(w, f, 0, Run(c), Done(Aborted, st))
  {
    var callee := b.g.nextReg;
    var i1 := Const(callee, FuncRef(fn));
    var i2 := Call(None, callee, args);
    var b1 := Ins(b, i1);
    ExtPush(b1, i2, f);
    var c1 := InsStep(w, f, b, i1, c, Code(fn));
    assert ValuesOf(c1.regs, args) == ValuesOf(c.regs, args);
    PushStep(w, f, b1, i2, c1);
    match Invoke(w, fn, ValuesOf(c.regs, args), c.st)
    case Returned(_, st) =>
      d := c1.(st := st, idx := c1.idx + 1);
      ReachTrans(w, f, 0, 0, Run(c), Run(c1), Run(d));
    case Gone(st) =>
      d := c1;
      ReachTrans(w, f, 0, 0, Run(c), Run(c1), Done(Aborted, st));
  }

  lemma RaiseStep(w: World, f: seq<Block>, b: Low, number: I64, c: Config)
    requires !Closed(b) && At(c, b) && Ext(Blocks(RaiseM2(b, number)), f)
    ensures Reach(w, f, 0, Run(c), Done(Aborted, Raise(w, number, c.st)))
  {
    var n := b.g.nextReg;
    var i := Const(n, IntC(number));
    var b1 := Ins(b, i);
    var b2 := RuntimeCall(b1, RAISE_M2, [n]);
    EndExt(b2, Unreachable);
    ExtBack(b2, RaiseM2(b, number), f);
    GrowsRuntimeCall(b1, RAISE_M2, [n]);
    ExtBack(b1, b2, f);
    var c1 := InsStep(w, f, b, i, c, Num(number));
    var _ := RuntimeCallStep(w, f, b1, RAISE_M2, [n], c1);
    assert ValuesOf(c1.regs, [n]) == [Num(number)];
    ReachTrans(w, f, 0, 0, Run(c), Run(c1), Done(Aborted, Raise(w, number, c.st)));
  }

  lemma TrapStep(w: World, f: seq<Block>, b: Low, cond: Reg, number: I64, c: Config) returns (d: Config)
    requires !Closed(b) && At(c, b) && Ext(Blocks(Trap(b, cond, number)), f) && HasNum(c, cond)
    ensures if c.regs[cond].n != 0 then Reach(w, f, 0, Run(c), Done(Aborted, Raise(w, number, c.st)))
            else Arrives(w, f, b, Trap(b, cond, number), c, d, c.st) && d.regs == c.regs && d.slots == c.slots
  {
    var fail := |Blocks(b)|;
    var t := CondBr(cond, fail, fail + 1);
    var b0 := LBlock(LBlock(b));
    var b1 := LEnd(b0, t);
    GFork(b, t);
    var b2 := LSwitch(b1, fail);
    GrowsRaise(b2, number);
    ExtTrans(Blocks(b2), Blocks(RaiseM2(b2, number)), f);
    EndStep(w, f, b0, t, c);
    GrowsTrap(b, cond, number);
    if c.regs[cond].n != 0 {
      d := c.(blk := fail, idx := 0);
      RaiseStep(w, f, b2, number, d);
      ReachTrans(w, f, 0, 0, Run(c), Run(d), Done(Aborted, Raise(w, number, c.st)));
    } else {
      d := c.(blk := fail + 1, idx := 0);
    }
  }
}
