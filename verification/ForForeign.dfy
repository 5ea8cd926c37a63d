/** A FOR loop over a variable without storage in the frame (a module variable) does
    not touch that variable: the lowering counts in a fresh slot instead. This is
    why well-formed statements use FOR over the function's own variables only. */
module ForForeign {
  import opened Arith
  import opened Ir
  import opened Machine
  import opened Source
  import opened Builder
  import opened LowerSpec

  /** Instructions that make no address of a program variable and call nothing. */
  predicate Inert(i: Inst) {
    match i
    case Const(_, k) => k.IntC?
    case Alloca(_, home) => home.None?
    case Load(_, _) => true
    case Store(_, _) => true
    case Unary(_, _, _) => true
    case Binary(_, _, _, _) => true
    case _ => false
  }

  ghost predicate InertCode(f: seq<Block>) {
    forall k, j :: 0 <= k < |f| && 0 <= j < |f[k].insts| ==> Inert(f[k].insts[j])
  }

  predicate InertValue(v: Value) {
    v.Num? || v.SlotAddr?
  }

  ghost predicate InertConfig(c: Config) {
    && (forall r :: r in c.regs ==> InertValue(c.regs[r]))
    && (forall r :: r in c.slots ==> InertValue(c.slots[r]))
  }

  /** The program variables and the trace are as they were. */
  ghost predicate Untouched(s: Status, st: State) {
    match s
    case Run(c) => InertConfig(c) && c.st == st
    case Done(_, st1) => st1 == st
    case Stuck => true
  }

  lemma InertInst(w: World, i: Inst, c: Config)
    requires Inert(i) && InertConfig(c)
    ensures Untouched(ExecInst(w, i, c), c.st)
  {
  }

  lemma {:induction false} InertRun(w: World, f: seq<Block>, n: nat, s: Status, st: State)
    requires InertCode(f) && Untouched(s, st)
    ensures Untouched(Steps(w, f, n, s), st)
  {
    hide Inert, ExecInst, InertConfig;
    if n > 0 {
      if s.Run? && s.c.blk < |f| && s.c.idx < |f[s.c.blk].insts| {
        InertInst(w, f[s.c.blk].insts[s.c.idx], s.c);
      } else if s.Run? && s.c.blk < |f| {
        InertTerm(f[s.c.blk].term, s.c);
      }
      InertRun(w, f, n - 1, Step(w, f, s), st);
    }
  }

  lemma InertTerm(t: Terminator, c: Config)
    requires InertConfig(c)
    ensures Untouched(ExecTerm(t, c), c.st)
  {
  }

  // ---- The code of an empty FOR loop is inert -------------------------------------------

  ghost predicate Inertly(b: Low) {
    InertCode(Blocks(b))
  }

  lemma InertOps(b: Low)
    requires Inertly(b)
    ensures forall t :: Inertly(LEnd(b, t))
    ensures forall id :: Inertly(LSwitch(b, id))
    ensures Inertly(LBlock(b)) && Inertly(LLeave(b)) && forall f :: Inertly(LEnter(b, f))
  {
  }

  lemma InertPush(b: Low, i: Inst)
    requires Inertly(b) && Inert(i)
    ensures Inertly(LPush(b, i)) && Inertly(Ins(b, i))
  {
  }

  lemma InertSetup(b: Low, x: string, n: int, m: int)
    requires Inertly(b) && x !in b.locals
    ensures Inertly(ForSetup(b, For(x, IntLit(n), IntLit(m), None, [])).0)
  {
    hide Inertly, LPush, Ins;
    var (b1, ptr) := ForVariable(b, x);
    InertPush(b, Alloca(ptr, None));
    assert Inertly(b1) by { assert Blocks(b1) == Blocks(Ins(b, Alloca(ptr, None))); SameBlocks(Ins(b, Alloca(ptr, None)), b1); }
    var (b2, v) := Expression(b1, IntLit(n));
    InertPush(b1, Const(v, IntC(n)));
    var b3 := LPush(b2, Store(ptr, v));
    InertPush(b2, Store(ptr, v));
    var (b4, last) := Expression(b3, IntLit(m));
    InertPush(b3, Const(last, IntC(m)));
    var (b5, stride) := ExpressionOr(b4, None, 1);
    InertPush(b4, Const(stride, IntC(1)));
    var zero := b5.g.nextReg;
    InertPush(b5, Const(zero, IntC(0)));
    InertPush(Ins(b5, Const(zero, IntC(0))), Binary(zero + 1, Ge, stride, zero));
  }

  lemma SameBlocks(a: Low, b: Low)
    requires Inertly(a) && Blocks(a) == Blocks(b)
    ensures Inertly(b)
  {
  }

  lemma InertHeader(b: Low, r: ForRegs)
    requires Inertly(b)
    ensures Inertly(ForHeader(b, r).0)
  {
    hide Inertly, LPush, Ins;
    var n := b.g.nextReg;
    var b1 := Ins(b, Load(n, r.ptr));
    var b2 := Ins(b1, Binary(n + 1, Le, n, r.last));
    var b3 := Ins(b2, Binary(n + 2, Ge, n, r.last));
    var b4 := Ins(b3, Unary(n + 3, UnaryOp.Not, r.nonneg));
    var b5 := Ins(b4, Binary(n + 4, And, r.nonneg, n + 1));
    var b6 := Ins(b5, Binary(n + 5, And, n + 3, n + 2));
    InertPush(b, Load(n, r.ptr));
    InertPush(b1, Binary(n + 1, Le, n, r.last));
    InertPush(b2, Binary(n + 2, Ge, n, r.last));
    InertPush(b3, Unary(n + 3, UnaryOp.Not, r.nonneg));
    InertPush(b4, Binary(n + 4, And, r.nonneg, n + 1));
    InertPush(b5, Binary(n + 5, And, n + 3, n + 2));
    InertPush(b6, Binary(n + 6, Or, n + 4, n + 5));
  }

  lemma InertRoom(b: Low, r: ForRegs)
    requires Inertly(b)
    ensures Inertly(ForRoom(b, r).0)
  {
    hide Inertly, LPush, Ins;
    var n := b.g.nextReg;
    var b1 := Ins(b, Load(n, r.ptr));
    var b2 := Ins(b1, Binary(n + 1, Sub, r.last, n));
    var b3 := Ins(b2, Binary(n + 2, Sub, n, r.last));
    var b4 := Ins(b3, Binary(n + 3, Sub, r.zero, r.stride));
    var b5 := Ins(b4, Unary(n + 4, UnaryOp.Not, r.nonneg));
    var b6 := Ins(b5, Binary(n + 5, Ge, n + 1, r.stride));
    var b7 := Ins(b6, Binary(n + 6, And, r.nonneg, n + 5));
    var b8 := Ins(b7, Binary(n + 7, Ge, n + 2, n + 3));
    var b9 := Ins(b8, Binary(n + 8, And, n + 4, n + 7));
    InertPush(b, Load(n, r.ptr));
    InertPush(b1, Binary(n + 1, Sub, r.last, n));
    InertPush(b2, Binary(n + 2, Sub, n, r.last));
    InertPush(b3, Binary(n + 3, Sub, r.zero, r.stride));
    InertPush(b4, Unary(n + 4, UnaryOp.Not, r.nonneg));
    InertPush(b5, Binary(n + 5, Ge, n + 1, r.stride));
    InertPush(b6, Binary(n + 6, And, r.nonneg, n + 5));
    InertPush(b7, Binary(n + 7, Ge, n + 2, n + 3));
    InertPush(b8, Binary(n + 8, And, n + 4, n + 7));
    InertPush(b9, Binary(n + 9, Or, n + 6, n + 8));
  }

  lemma InertIn(b: Low, r: ForRegs)
    requires Inertly(b)
    ensures Inertly(ForIn(b, r))
  {
    hide Inertly, LPush, Ins, LEnd, LBlock, LSwitch, LEnter, ForHeader;
    var b0 := LBlock(LBlock(LBlock(LBlock(b))));
    InertOps(b);
    InertOps(LBlock(b));
    InertOps(LBlock(LBlock(b)));
    InertOps(LBlock(LBlock(LBlock(b))));
    InertOps(b0);
    InertOps(LEnd(b0, Goto(|Blocks(b)|)));
    var h := ForHead(b);
    InertHeader(h, r);
    var (t, c) := ForHeader(h, r);
    var n := |Blocks(b)|;
    InertOps(t);
    InertOps(LEnd(t, CondBr(c, n + 1, n + 3)));
    InertOps(LSwitch(LEnd(t, CondBr(c, n + 1, n + 3)), n + 1));
  }

  lemma InertTail(b: Low, r: ForRegs, n: BlockId)
    requires Inertly(b)
    ensures Inertly(ForTail(b, r, n))
  {
    hide Inertly, LPush, Ins, LEnd, LBlock, LSwitch, LLeave, ForRoom;
    InertOps(b);
    InertOps(LLeave(b));
    InertOps(JumpTo(LLeave(b), n + 2));
    var p := LoopEnd(b, n + 2, n + 2);
    InertRoom(p, r);
    var (t, cur, fits) := ForRoom(p, r);
    InertOps(t);
    InertOps(LBlock(t));
    InertOps(LEnd(LBlock(t), CondBr(fits, |Blocks(t)|, n + 3)));
    var a := ForFork(t, fits, n);
    var next := a.g.nextReg;
    InertPush(a, Binary(next, Add, cur, r.stride));
    var a1 := Ins(a, Binary(next, Add, cur, r.stride));
    InertPush(a1, Store(r.ptr, next));
    InertOps(LPush(a1, Store(r.ptr, next)));
    InertOps(ForAdvance(a, r, cur, n));
  }

  /** FOR x := n TO m DO END with x not among the function's own variables: the
      statement gives x the value n, the code never changes any variable at all. */
  lemma ForeignForIsLost(w: World, x: string, n: int, m: int, f: seq<Block>, c: Config, steps: nat, fuel: nat)
    requires var s := For(x, IntLit(n), IntLit(m), None, []); IsSealing(Blocks(FunctionBody([], [s])), f, true)
    requires c.blk == ENTRY && c.idx == 0 && c.regs == map[] && c.slots == map[]
    ensures match Steps(w, f, steps, Run(c))
            case Run(d) => d.st == c.st
            case Done(_, st) => st == c.st
            case Stuck => true
    ensures var s := For(x, IntLit(n), IntLit(m), None, []);
            var r := Exec(w, s, fuel, c.st);
            Loc(w.env(x), 0) in r.st.cells && (Wrap(n) > Wrap(m) ==> fuel > 0 ==> r == Res(Normal, WriteCell(c.st, Loc(w.env(x), 0), Wrap(n))))
  {
    hide ForSetup, ForIn, ForTail, ExecFor;
    var s := For(x, IntLit(n), IntLit(m), None, []);
    var b := Low(Initial(), map[]);
    var k := Ctx(None, None, None);
    assert FunctionBody([], [s]) == Statements(b, k, [s]);
    assert !Closed(b) && [s][1..] == [];
    assert Statement(b, k, s) == ForStatement(b, k, s);
    assert Statements(b, k, [s]) == Statements(ForStatement(b, k, s), k, []) == ForStatement(b, k, s);
    assert Inertly(b);
    InertSetup(b, x, n, m);
    var (b1, r) := ForSetup(b, s);
    InertIn(b1, r);
    InertTail(ForIn(b1, r), r, |Blocks(b1)|);
    assert Statements(ForIn(b1, r), k, []) == ForIn(b1, r);
    assert FunctionBody([], [s]) == ForTail(ForIn(b1, r), r, |Blocks(b1)|);
    SealedInert(FunctionBody([], [s]), f);
    InertRun(w, f, steps, Run(c), c.st);
    var l := Loc(w.env(x), 0);
    StepsKeep(w, x, Wrap(m), fuel, WriteCell(c.st, l, Wrap(n)));
  }

  lemma SealedInert(b: Low, f: seq<Block>)
    requires Inertly(b) && IsSealing(Blocks(b), f, true)
    ensures InertCode(f)
  {
    forall k, j | 0 <= k < |f| && 0 <= j < |f[k].insts|
      ensures Inert(f[k].insts[j])
    {
      assert f[k].insts == Blocks(b)[k].insts;
    }
  }

  lemma {:induction false} StepsKeep(w: World, x: string, last: I64, fuel: nat, st: State)
    requires Loc(w.env(x), 0) in st.cells
    ensures Loc(w.env(x), 0) in ExecFor(w, x, last, 1, [], fuel, st).st.cells
    ensures ReadCell(st, Loc(w.env(x), 0)) > last && fuel > 0 ==> ExecFor(w, x, last, 1, [], fuel, st) == Res(Normal, st)
    decreases fuel
  {
    var l := Loc(w.env(x), 0);
    if fuel > 0 && ForRuns(ReadCell(st, l), last, 1) && StepFits(ReadCell(st, l), last, 1) {
      StepsKeep(w, x, last, fuel - 1, WriteCell(st, l, Wrap(ReadCell(st, l) + 1)));
    }
  }
}
