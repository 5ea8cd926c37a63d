/** Lowering only ever adds: it appends to the active block, closes it, and
    creates new blocks; every other block of the function is left as it is. */
module LowerGrow {
  import opened Ir
  import opened Source
  import opened Builder
  import opened LowerSpec
  import Machine

  /** A block that has its terminator never changes again; an open one keeps the
      instructions it has. */
  ghost predicate Continues(x: Block, y: Block) {
    if x.term.Unreachable? then x.insts <= y.insts else y == x
  }

  ghost predicate Ext(a: seq<Block>, b: seq<Block>) {
    |a| <= |b| && forall i :: 0 <= i < |a| ==> Continues(a[i], b[i])
  }

  ghost predicate Grows(a: Low, b: Low) {
    && Ext(Blocks(a), Blocks(b))
    && a.g.nextReg <= b.g.nextReg
    && (forall i :: 0 <= i < |Blocks(a)| && i != a.g.current ==> Blocks(b)[i] == Blocks(a)[i])
    && (b.g.current == a.g.current || b.g.current >= |Blocks(a)|)
    && (forall x :: x in a.locals ==> x in b.locals && b.locals[x] == a.locals[x])
  }

  /** Expressions besides leave the block they end in open. */
  ghost predicate Flows(a: Low, b: Low) {
    && Grows(a, b)
    && b.g.loops == a.g.loops
    && b.locals == a.locals
    && (!Closed(a) ==> !Closed(b))
  }

  lemma ExtRefl(a: seq<Block>)
    ensures Ext(a, a)
  {
  }

  lemma ExtTrans(a: seq<Block>, b: seq<Block>, c: seq<Block>)
    requires Ext(a, b) && Ext(b, c)
    ensures Ext(a, c)
  {
    forall i | 0 <= i < |a|
      ensures Continues(a[i], c[i])
    {
      assert Continues(a[i], b[i]) && Continues(b[i], c[i]);
    }
  }

  lemma GrowsRefl(a: Low)
    ensures Grows(a, a) && Flows(a, a)
  {
  }

  lemma GrowsTrans(a: Low, b: Low, c: Low)
    requires Grows(a, b) && Grows(b, c)
    ensures Grows(a, c)
  {
    ExtTrans(Blocks(a), Blocks(b), Blocks(c));
  }

  lemma FlowsTrans(a: Low, b: Low, c: Low)
    requires Flows(a, b) && Flows(b, c)
    ensures Flows(a, c)
  {
    GrowsTrans(a, b, c);
  }

  // ---- One builder operation -------------------------------------------------------

  lemma GFresh(a: Low, b: Low)
    requires Grows(a, b)
    ensures Grows(a, LFresh(b))
  {
  }

  lemma GBlock(a: Low, b: Low)
    requires Grows(a, b)
    ensures Grows(a, LBlock(b))
  {
  }

  lemma GSwitch(a: Low, b: Low, id: BlockId)
    requires Grows(a, b) && id >= |Blocks(a)|
    ensures Grows(a, LSwitch(b, id))
  {
  }

  lemma PushExt(b: Low, i: Inst)
    ensures Grows(b, LPush(b, i))
  {
  }

  lemma EndExt(b: Low, t: Terminator)
    ensures Grows(b, LEnd(b, t))
  {
  }

  lemma GPush(a: Low, b: Low, i: Inst)
    requires Grows(a, b)
    ensures Grows(a, LPush(b, i))
  {
    PushExt(b, i);
    GrowsTrans(a, b, LPush(b, i));
  }

  lemma GIns(a: Low, b: Low, i: Inst)
    requires Grows(a, b)
    ensures Grows(a, Ins(b, i))
  {
    GFresh(a, b);
    GPush(a, LFresh(b), i);
  }

  lemma GEnd(a: Low, b: Low, t: Terminator)
    requires Grows(a, b)
    ensures Grows(a, LEnd(b, t))
  {
    EndExt(b, t);
    GrowsTrans(a, b, LEnd(b, t));
  }

  lemma FIns(a: Low, b: Low, i: Inst)
    requires Flows(a, b)
    ensures Flows(a, Ins(b, i))
  {
    GIns(a, b, i);
  }

  lemma FPush(a: Low, b: Low, i: Inst)
    requires Flows(a, b)
    ensures Flows(a, LPush(b, i))
  {
    GPush(a, b, i);
  }

  lemma FFresh(a: Low, b: Low)
    requires Flows(a, b)
    ensures Flows(a, LFresh(b))
  {
    GFresh(a, b);
  }

  /** A block the caller is not working in and that was there before stays put. */
  lemma Untouched(a: Low, b: Low, id: BlockId)
    requires Grows(a, b) && id < |Blocks(a)| && id != a.g.current
    ensures id < |Blocks(b)| && Blocks(b)[id] == Blocks(a)[id]
  {
  }

  // ---- Runtime calls and traps --------------------------------------------------------

  lemma GrowsRuntimeCall(b: Low, f: string, args: seq<Reg>)
    ensures Flows(b, RuntimeCall(b, f, args))
    ensures RuntimeCall(b, f, args).g.current == b.g.current
    ensures |Blocks(RuntimeCall(b, f, args))| == |Blocks(b)|
  {
    GrowsRefl(b);
    var callee := b.g.nextReg;
    FIns(b, b, Const(callee, FuncRef(f)));
    FPush(b, Ins(b, Const(callee, FuncRef(f))), Call(None, callee, args));
  }

  lemma GrowsRaise(b: Low, number: int)
    ensures Flows(b, RaiseM2(b, number))
    ensures RaiseM2(b, number).g.current == b.g.current
    ensures |Blocks(RaiseM2(b, number))| == |Blocks(b)|
  {
    var n := b.g.nextReg;
    var b1 := Ins(b, Const(n, IntC(number)));
    GrowsRefl(b);
    FIns(b, b, Const(n, IntC(number)));
    GrowsRuntimeCall(b1, Machine.RAISE_M2, [n]);
    FlowsTrans(b, b1, RuntimeCall(b1, Machine.RAISE_M2, [n]));
    EndExt(RuntimeCall(b1, Machine.RAISE_M2, [n]), Unreachable);
    GrowsTrans(b, RuntimeCall(b1, Machine.RAISE_M2, [n]), RaiseM2(b, number));
  }

  lemma GrowsTrap(b: Low, cond: Reg, number: int)
    ensures Flows(b, Trap(b, cond, number))
    ensures Trap(b, cond, number).g.current == |Blocks(b)| + 1
    ensures Blocks(Trap(b, cond, number))[|Blocks(b)| + 1] == EMPTY_BLOCK
    ensures |Blocks(Trap(b, cond, number))| == |Blocks(b)| + 2
  {
    hide Ext, RaiseM2;
    var fail := |Blocks(b)|;
    var b1 := LEnd(LBlock(LBlock(b)), CondBr(cond, fail, fail + 1));
    GrowsRefl(b);
    GBlock(b, b);
    GBlock(b, LBlock(b));
    GEnd(b, LBlock(LBlock(b)), CondBr(cond, fail, fail + 1));
    GSwitch(b, b1, fail);
    var b2 := LSwitch(b1, fail);
    GrowsRaise(b2, number);
    GrowsTrans(b, b2, RaiseM2(b2, number));
    Untouched(b2, RaiseM2(b2, number), fail + 1);
    GSwitch(b, RaiseM2(b2, number), fail + 1);
  }

  lemma GrowsTest(b: Low, op: BinOp, subject: Reg, limit: int)
    ensures Flows(b, Test(b, op, subject, limit))
    ensures Test(b, op, subject, limit).g.nextReg == b.g.nextReg + 2
  {
    var c := b.g.nextReg;
    GrowsRefl(b);
    FIns(b, b, Const(c, IntC(limit)));
    FIns(b, Ins(b, Const(c, IntC(limit))), Binary(c + 1, op, subject, c));
  }

  lemma GrowsBounds(b: Low, adj: Reg, count: int)
    ensures Flows(b, BoundsCheck(b, adj, count))
  {
    hide Ext, Grows, Trap, Test, Flows;
    var b1 := Test(b, UGe, adj, count);
    GrowsTest(b, UGe, adj, count);
    GrowsTrap(b1, b.g.nextReg + 1, INDEX_EXCEPTION);
    FlowsTrans(b, b1, BoundsCheck(b, adj, count));
  }

  lemma GrowsDivCheck(b: Low, y: Reg)
    ensures Flows(b, DivCheck(b, y))
  {
    hide Ext, Grows, Trap, Test, Flows;
    var b1 := Test(b, Eq, y, 0);
    GrowsTest(b, Eq, y, 0);
    GrowsTrap(b1, b.g.nextReg + 1, DIV_EXCEPTION);
    FlowsTrans(b, b1, DivCheck(b, y));
  }

  lemma GrowsGuarded(b: Low, op: ArithOp, y: Reg)
    ensures Flows(b, Guarded(b, op, y))
  {
    GrowsRefl(b);
    GrowsDivCheck(b, y);
  }

  // ---- Expressions ------------------------------------------------------------------------

  lemma GrowsName(b: Low, x: string)
    ensures Flows(b, NamePtr(b, x).0)
  {
    GrowsRefl(b);
    var r := b.g.nextReg;
    if x in b.locals {
      var s := b.locals[x].storage;
      FIns(b, b, Load(r, s));
      FIns(b, Ins(b, Load(r, s)), TypedPtr(r + 1, r));
    } else {
      FIns(b, b, Const(r, GlobalRef(x)));
    }
  }

  lemma {:induction false} GrowsExpression(b: Low, e: Expr)
    ensures Flows(b, Expression(b, e).0)
    decreases e, 1
  {
    GrowsRefl(b);
    match e
    case IntLit(n) => FIns(b, b, Const(b.g.nextReg, IntC(n)));
    case BoolLit(v) => FIns(b, b, Const(b.g.nextReg, BoolC(v)));
    case Des(d) =>
      var (b1, p) := Address(b, d);
      GrowsAddress(b, d);
      FIns(b, b1, Load(b1.g.nextReg, p));
    case Arith(op, l, r) => GrowsArith(b, e);
    case AndThen(l, r) => GrowsShortCircuit(b, e);
    case OrElse(l, r) => GrowsShortCircuit(b, e);
    case NotE(a) =>
      var (b1, x) := Expression(b, a);
      GrowsExpression(b, a);
      FIns(b, b1, Unary(b1.g.nextReg, UnaryOp.Not, x));
    case NegE(a) =>
      var (b1, x) := Expression(b, a);
      GrowsExpression(b, a);
      FIns(b, b1, Unary(b1.g.nextReg, UnaryOp.Neg, x));
    case CallE(f, args) =>
      var callee := b.g.nextReg;
      var b0 := Ins(b, Const(callee, FuncRef(f)));
      var (b1, rs) := Arguments(b0, args);
      FIns(b, b, Const(callee, FuncRef(f)));
      GrowsArguments(b0, args);
      FlowsTrans(b, b0, b1);
      FIns(b, b1, Call(Some(b1.g.nextReg), callee, rs));
  }

  lemma {:induction false} GrowsArith(b: Low, e: Expr)
    requires e.Arith?
    ensures Flows(b, Expression(b, e).0)
    decreases e, 0
  {
    var (b1, x) := Expression(b, e.l);
    var (b2, y) := Expression(b1, e.r);
    GrowsExpression(b, e.l);
    GrowsExpression(b1, e.r);
    FlowsTrans(b, b1, b2);
    var b3 := LFresh(b2);
    FFresh(b, b2);
    GrowsGuarded(b3, e.op, y);
    FlowsTrans(b, b3, Guarded(b3, e.op, y));
    FPush(b, Guarded(b3, e.op, y), Binary(b2.g.nextReg, IrOp(e.op), x, y));
  }

  /** Two new blocks and an end for the active one. */
  lemma GFork(b: Low, t: Terminator)
    ensures var n := |Blocks(b)|; var f := LEnd(LBlock(LBlock(b)), t);
            Grows(b, f) && |Blocks(f)| == n + 2 && Blocks(f)[n] == EMPTY_BLOCK && Blocks(f)[n + 1] == EMPTY_BLOCK
            && f.g.current == b.g.current && f.g.nextReg == b.g.nextReg && f.g.loops == b.g.loops && f.locals == b.locals
  {
    GrowsRefl(b);
    GBlock(b, b);
    GBlock(b, LBlock(b));
    GEnd(b, LBlock(LBlock(b)), t);
  }

  lemma GrowsScFork(b: Low, t: Terminator)
    ensures var n := |Blocks(b)|; var f := ScFork(b, t);
            Grows(b, f) && |Blocks(f)| == n + 2 && Blocks(f)[n] == EMPTY_BLOCK && Blocks(f)[n + 1] == EMPTY_BLOCK
            && f.g.current == n && f.g.nextReg == b.g.nextReg && f.g.loops == b.g.loops && f.locals == b.locals && !Closed(f)
  {
    GFork(b, t);
    GSwitch(b, LEnd(LBlock(LBlock(b)), t), |Blocks(b)|);
  }

  /** Store, jump to the join, load there. */
  lemma GrowsScJoin(b: Low, slot: Reg, y: Reg, join: BlockId)
    ensures var c := LSwitch(LEnd(LPush(b, Store(slot, y)), Goto(join)), join);
            Ext(Blocks(b), Blocks(c)) && Ext(Blocks(LPush(b, Store(slot, y))), Blocks(c)) && Ext(Blocks(c), Blocks(ScJoin(b, slot, y, join).0))
  {
    var b1 := LPush(b, Store(slot, y));
    PushExt(b, Store(slot, y));
    EndExt(b1, Goto(join));
    ExtTrans(Blocks(b), Blocks(b1), Blocks(LEnd(b1, Goto(join))));
    var c := LSwitch(LEnd(b1, Goto(join)), join);
    GrowsRefl(c);
    GIns(c, c, Load(c.g.nextReg, slot));
  }

  lemma FlowsScJoin(a: Low, b: Low, slot: Reg, y: Reg, join: BlockId)
    requires Grows(a, b) && b.g.loops == a.g.loops && b.locals == a.locals
    requires |Blocks(a)| <= join < |Blocks(b)| && join != b.g.current && Blocks(b)[join] == EMPTY_BLOCK
    ensures Flows(a, ScJoin(b, slot, y, join).0)
  {
    var b1 := LPush(b, Store(slot, y));
    var b2 := LEnd(b1, Goto(join));
    GPush(a, b, Store(slot, y));
    GEnd(a, b1, Goto(join));
    GSwitch(a, b2, join);
    var c := LSwitch(b2, join);
    assert Blocks(c)[join] == EMPTY_BLOCK;
    FIns(a, c, Load(c.g.nextReg, slot));
  }

  lemma {:induction false} GrowsShortCircuit(b: Low, e: Expr)
    requires e.AndThen? || e.OrElse?
    ensures Flows(b, ShortCircuit(b, e).0)
    decreases e, 0
  {
    hide Ext, Expression, ScFork, ScJoin, ScTest;
    var slot := b.g.nextReg;
    var b0 := Ins(b, Alloca(slot, None));
    var (b1, x) := Expression(b0, e.l);
    var b2 := LPush(b1, Store(slot, x));
    var n := |Blocks(b2)|;
    var b3 := ScFork(b2, ScTest(e, x, n));
    var (b4, y) := Expression(b3, e.r);
    GrowsRefl(b);
    FIns(b, b, Alloca(slot, None));
    GrowsExpression(b0, e.l);
    FlowsTrans(b, b0, b1);
    FPush(b, b1, Store(slot, x));
    GrowsScFork(b2, ScTest(e, x, n));
    GrowsTrans(b, b2, b3);
    GrowsExpression(b3, e.r);
    GrowsTrans(b, b3, b4);
    Untouched(b3, b4, n + 1);
    LongEnough(b, b2);
    FlowsScJoin(b, b4, slot, y, n + 1);
  }

  lemma LongEnough(a: Low, b: Low)
    requires Grows(a, b)
    ensures |Blocks(a)| <= |Blocks(b)| && a.g.nextReg <= b.g.nextReg
  {
  }

  lemma {:induction false} GrowsArguments(b: Low, args: seq<Arg>)
    ensures Flows(b, Arguments(b, args).0)
    decreases args, 0
  {
    if args == [] {
      GrowsRefl(b);
    } else {
      var (b1, r) := Argument(b, args[0]);
      GrowsArgument(b, args[0]);
      GrowsArguments(b1, args[1..]);
      FlowsTrans(b, b1, Arguments(b1, args[1..]).0);
    }
  }

  lemma {:induction false} GrowsArgument(b: Low, a: Arg)
    ensures Flows(b, Argument(b, a).0)
    decreases a, 0
  {
    match a
    case ByValue(e) => GrowsExpression(b, e);
    case ByAddress(d) => GrowsAddress(b, d);
  }

  lemma {:induction false} GrowsAddress(b: Low, d: Designator)
    ensures Flows(b, Address(b, d).0)
    decreases d, 0
  {
    GrowsName(b, d.x);
    if d.Elem? {
      var (b1, base) := NamePtr(b, d.x);
      var (b2, flat) := Flatten(b1, d.dims, d.ixs, None);
      GrowsFlatten(b1, d.dims, d.ixs, None);
      FlowsTrans(b, b1, b2);
      if flat.Some? {
        FIns(b, b2, IndexPtr(b2.g.nextReg, base, flat.value));
      }
    }
  }

  lemma GrowsCheckedIndex(b: Low, raw: Reg, dim: Dim)
    ensures Flows(b, Adjusted(b, raw, dim.lo).0) && Flows(b, CheckedIndex(b, raw, dim).0)
  {
    GrowsRefl(b);
    var c := b.g.nextReg;
    FIns(b, b, Const(c, IntC(dim.lo)));
    FIns(b, Ins(b, Const(c, IntC(dim.lo))), Binary(c + 1, Sub, raw, c));
    var (b1, adj) := Adjusted(b, raw, dim.lo);
    GrowsBounds(b1, adj, dim.count);
    FlowsTrans(b, b1, BoundsCheck(b1, adj, dim.count));
  }

  lemma GrowsContribution(b: Low, adj: Reg, stride: int, acc: Option<Reg>)
    ensures Flows(b, Scaled(b, adj, stride).0) && Flows(b, Contribution(b, adj, stride, acc).0)
    ensures Flows(Scaled(b, adj, stride).0, Contribution(b, adj, stride, acc).0)
  {
    GrowsRefl(b);
    var c := b.g.nextReg;
    FIns(b, b, Const(c, IntC(stride)));
    FIns(b, Ins(b, Const(c, IntC(stride))), Binary(c + 1, Mul, adj, c));
    var (b1, term) := Scaled(b, adj, stride);
    GrowsRefl(b1);
    if acc.Some? {
      FIns(b1, b1, Binary(b1.g.nextReg, Add, acc.value, term));
      FlowsTrans(b, b1, Contribution(b, adj, stride, acc).0);
    }
  }

  lemma GrowsDimension(b: Low, raw: Reg, dim: Dim, stride: int, acc: Option<Reg>)
    ensures Flows(b, Dimension(b, raw, dim, stride, acc).0)
    ensures Flows(CheckedIndex(b, raw, dim).0, Dimension(b, raw, dim, stride, acc).0)
  {
    var (b1, adj) := CheckedIndex(b, raw, dim);
    GrowsCheckedIndex(b, raw, dim);
    GrowsContribution(b1, adj, stride, acc);
    FlowsTrans(b, b1, Contribution(b1, adj, stride, acc).0);
  }

  lemma {:induction false} GrowsFlatten(b: Low, dims: seq<Dim>, ixs: seq<Expr>, acc: Option<Reg>)
    ensures Flows(b, Flatten(b, dims, ixs, acc).0)
    decreases ixs, 0
  {
    if ixs == [] || dims == [] {
      GrowsRefl(b);
    } else {
      var (b1, raw) := Expression(b, ixs[0]);
      var (b2, sum) := Dimension(b1, raw, dims[0], Total(dims[1..]), acc);
      GrowsExpression(b, ixs[0]);
      GrowsDimension(b1, raw, dims[0], Total(dims[1..]), acc);
      FlowsTrans(b, b1, b2);
      GrowsFlatten(b2, dims[1..], ixs[1..], Some(sum));
      FlowsTrans(b, b2, Flatten(b2, dims[1..], ixs[1..], Some(sum)).0);
    }
  }

  lemma GrowsExpressionOr(b: Low, e: Option<Expr>, d: int)
    ensures Flows(b, ExpressionOr(b, e, d).0)
  {
    if e.Some? {
      GrowsExpression(b, e.value);
    } else {
      GrowsRefl(b);
      FIns(b, b, Const(b.g.nextReg, IntC(d)));
    }
  }

  // ---- Statements --------------------------------------------------------------------------

  ghost predicate GrowsLoops(a: Low, b: Low) {
    Grows(a, b) && b.g.loops == a.g.loops
  }

  lemma {:induction false} GrowsStatements(b: Low, k: Ctx, ss: seq<Stmt>)
    ensures GrowsLoops(b, Statements(b, k, ss))
    decreases ss, 0
  {
    if ss == [] || Closed(b) {
      GrowsRefl(b);
    } else {
      var b1 := Statement(b, k, ss[0]);
      GrowsStatement(b, k, ss[0]);
      GrowsStatements(b1, k, ss[1..]);
      GrowsTrans(b, b1, Statements(b1, k, ss[1..]));
    }
  }

  lemma GEnter(a: Low, b: Low, f: LoopFrame)
    requires Grows(a, b)
    ensures Grows(a, LEnter(b, f))
  {
  }

  /** A loop body, entered from `b`; `a` is where the loop statement started. */
  lemma {:induction false} GrowsBody(a: Low, b: Low, k: Ctx, t: Terminator, top: BlockId, f: LoopFrame, body: seq<Stmt>)
    requires GrowsLoops(a, b) && |Blocks(a)| <= top
    ensures var c := Statements(LoopIn(b, t, top, f), k, body);
            Grows(a, c) && c.g.loops == a.g.loops + [f]
    decreases body, 1
  {
    hide Ext, Statements;
    GEnd(a, b, t);
    GSwitch(a, LEnd(b, t), top);
    var c := LoopIn(b, t, top, f);
    GrowsStatements(c, k, body);
    GEnter(a, LSwitch(LEnd(b, t), top), f);
    GrowsTrans(a, c, Statements(c, k, body));
  }

  lemma GrowsLoopEnd(a: Low, b: Low, back: BlockId, exit: BlockId, f: LoopFrame)
    requires Grows(a, b) && b.g.loops == a.g.loops + [f] && |Blocks(a)| <= exit
    ensures GrowsLoops(a, LLeave(b)) && GrowsLoops(a, LoopEnd(b, back, exit))
  {
    hide Ext;
    GEnd(a, LLeave(b), Goto(back));
    GSwitch(a, JumpTo(LLeave(b), back), exit);
  }

  lemma {:induction false} GrowsStatement(b: Low, k: Ctx, s: Stmt)
    ensures GrowsLoops(b, Statement(b, k, s))
    decreases s, 1
  {
    hide Grows, GrowsLoops, IfStatement, WhileStatement, RepeatStatement, ForStatement, LoopStatement, CaseStatement;
    match s
    case If(_, _) => GrowsIf(b, k, s);
    case While(_, _) => GrowsWhile(b, k, s);
    case Repeat(_, _) => GrowsRepeat(b, k, s);
    case For(_, _, _, _, _) => GrowsFor(b, k, s);
    case Loop(_) => GrowsLoop(b, k, s);
    case Case(_, _, _, _) => GrowsCase(b, k, s);
    case _ => GrowsSimple(b, k, s);
  }

  lemma GrowsSimple(b: Low, k: Ctx, s: Stmt)
    requires !s.If? && !s.While? && !s.Repeat? && !s.For? && !s.Loop? && !s.Case?
    ensures GrowsLoops(b, Statement(b, k, s))
  {
    match s
    case Assign(d, e) => GrowsAssignment(b, d, e);
    case CallS(f, args) => GrowsExpression(b, CallE(f, args));
    case IncDec(d, amount, up) => GrowsIncrement(b, d, amount, up);
    case Assert(e) => GrowsAssertion(b, e);
    case Halt(code) => GrowsHalt(b, code);
    case Return(val) => GrowsReturn(b, k, val);
    case Empty => GrowsRefl(b);
    case Exit => GrowsExit(b);
    case Retry => GrowsRetry(b, k);
  }

  lemma GrowsExit(b: Low)
    ensures b.g.loops != [] ==> GrowsLoops(b, LEnd(b, Goto(b.g.loops[|b.g.loops| - 1].exitBlock)))
    ensures GrowsLoops(b, b)
  {
    GrowsRefl(b);
    if b.g.loops != [] {
      GEnd(b, b, Goto(b.g.loops[|b.g.loops| - 1].exitBlock));
    }
  }

  lemma GrowsRetry(b: Low, k: Ctx)
    ensures k.retry.Some? ==> GrowsLoops(b, LEnd(RuntimeCall(b, Machine.HANDLED, []), Goto(k.retry.value)))
    ensures GrowsLoops(b, b)
  {
    GrowsRefl(b);
    if k.retry.Some? {
      GrowsRuntimeCall(b, Machine.HANDLED, []);
      GEnd(b, RuntimeCall(b, Machine.HANDLED, []), Goto(k.retry.value));
    }
  }

  lemma GrowsAssignment(b: Low, d: Designator, e: Expr)
    ensures Flows(b, Assignment(b, d, e))
  {
    var (b1, v) := Expression(b, e);
    var (b2, p) := Address(b1, d);
    GrowsExpression(b, e);
    GrowsAddress(b1, d);
    FlowsTrans(b, b1, b2);
    FPush(b, b2, Store(p, v));
  }

  lemma GrowsHalt(b: Low, code: Option<Expr>)
    ensures GrowsLoops(b, HaltStatement(b, code))
  {
    var (b1, c) := ExpressionOr(b, code, 1);
    GrowsExpressionOr(b, code, 1);
    var b2 := RuntimeCall(b1, Machine.HALT, [c]);
    GrowsRuntimeCall(b1, Machine.HALT, [c]);
    FlowsTrans(b, b1, b2);
    GEnd(b, b2, Unreachable);
    GBlock(b, LEnd(b2, Unreachable));
    GSwitch(b, LBlock(LEnd(b2, Unreachable)), |Blocks(b2)|);
  }

  lemma GrowsIncrement(b: Low, d: Designator, amount: Option<Expr>, up: bool)
    ensures Flows(b, Increment(b, d, amount, up))
  {
    var (b1, p) := Address(b, d);
    var cur := b1.g.nextReg;
    var b1' := Ins(b1, Load(cur, p));
    var (b2, delta) := ExpressionOr(b1', amount, 1);
    var res := b2.g.nextReg;
    GrowsAddress(b, d);
    FIns(b, b1, Load(cur, p));
    GrowsExpressionOr(b1', amount, 1);
    FlowsTrans(b, b1', b2);
    FIns(b, b2, Binary(res, if up then Add else Sub, cur, delta));
    FPush(b, Ins(b2, Binary(res, if up then Add else Sub, cur, delta)), Store(p, res));
  }

  lemma GrowsAssertFailure(b: Low)
    ensures GrowsLoops(b, AssertFailure(b)) && AssertFailure(b).g.current == b.g.current
    ensures |Blocks(AssertFailure(b))| == |Blocks(b)|
  {
    var msg := b.g.nextReg;
    GrowsRefl(b);
    var b1 := Ins(b, Const(msg, StrC("")));
    GIns(b, b, Const(msg, StrC("")));
    var b2 := Ins(b1, Const(msg + 1, IntC(0)));
    GIns(b, b1, Const(msg + 1, IntC(0)));
    GrowsRuntimeCall(b2, Machine.ASSERT_FAILED, [msg, msg + 1]);
    var b3 := RuntimeCall(b2, Machine.ASSERT_FAILED, [msg, msg + 1]);
    GrowsTrans(b, b2, b3);
    GEnd(b, b3, Unreachable);
  }

  lemma GrowsAssertion(b: Low, e: Expr)
    ensures GrowsLoops(b, Assertion(b, e))
  {
    hide Ext, Expression, AssertFailure, LSwitch, LEnd, LBlock;
    var (b1, v) := Expression(b, e);
    GrowsExpression(b, e);
    GrowsAssertFork(b1, CondBr(v, |Blocks(b1)| + 1, |Blocks(b1)|));
    GrowsTrans(b, b1, Assertion(b, e));
  }

  lemma GrowsAssertFork(b: Low, t: Terminator)
    ensures var f := |Blocks(b)|;
            GrowsLoops(b, LSwitch(AssertFailure(LSwitch(LEnd(LBlock(LBlock(b)), t), f)), f + 1))
  {
    var f := |Blocks(b)|;
    var b1 := LEnd(LBlock(LBlock(b)), t);
    GFork(b, t);
    GSwitch(b, b1, f);
    var b2 := LSwitch(b1, f);
    GrowsAssertFailure(b2);
    GrowsTrans(b, b2, AssertFailure(b2));
    GSwitch(b, AssertFailure(b2), f + 1);
  }

  lemma {:induction false} GrowsIf(b: Low, k: Ctx, s: Stmt)
    requires s.If?
    ensures GrowsLoops(b, IfStatement(b, k, s))
    decreases s, 0
  {
    var join := |Blocks(b)|;
    GrowsRefl(b);
    GBlock(b, b);
    GrowsIfArms(b, LBlock(b), k, s.arms, s.els.ElseDo?, join);
    var b1 := IfArms(LBlock(b), k, s.arms, s.els.ElseDo?, join);
    if s.els.ElseDo? {
      var b2 := Statements(b1, k, s.els.ss);
      GrowsStatements(b1, k, s.els.ss);
      GrowsTrans(b, b1, b2);
      GEnd(b, b2, Goto(join));
      GSwitch(b, JumpTo(b2, join), join);
    }
  }

  lemma {:induction false} GrowsLoop(b: Low, k: Ctx, s: Stmt)
    requires s.Loop?
    ensures GrowsLoops(b, LoopStatement(b, k, s))
    decreases s, 0
  {
    hide Ext, Statements, LoopIn;
    var top := |Blocks(b)|;
    GTwo(b);
    GrowsBody(b, LBlock(LBlock(b)), k, Goto(top), top, LoopFrame(top + 1, top), s.body);
    GrowsLoopEnd(b, Statements(LoopTop(b), k, s.body), top, top + 1, LoopFrame(top + 1, top));
  }

  lemma GTwo(b: Low)
    ensures GrowsLoops(b, LBlock(LBlock(b)))
  {
    GrowsRefl(b);
    GBlock(b, b);
    GBlock(b, LBlock(b));
  }

  lemma {:induction false} GrowsIfArms(a: Low, b: Low, k: Ctx, arms: seq<IfArm>, hasElse: bool, join: BlockId)
    requires GrowsLoops(a, b) && join >= |Blocks(a)|
    ensures GrowsLoops(a, IfArms(b, k, arms, hasElse, join))
    decreases arms, 0
  {
    if arms != [] {
      GrowsOneIfArm(a, b, k, arms[0], 1 < |arms| || hasElse, join);
      GrowsIfArms(a, OneIfArm(b, k, arms[0], 1 < |arms| || hasElse, join), k, arms[1..], hasElse, join);
    }
  }

  lemma {:induction false} GrowsOneIfArm(a: Low, b: Low, k: Ctx, arm: IfArm, more: bool, join: BlockId)
    requires GrowsLoops(a, b) && join >= |Blocks(a)|
    ensures GrowsLoops(a, OneIfArm(b, k, arm, more, join))
    decreases arm, 0
  {
    hide Ext, Expression, Statements, Closed, Grows;
    var then_ := |Blocks(b)|;
    var false_ := if more then then_ + 1 else join;
    var b1 := if more then LBlock(LBlock(b)) else LBlock(b);
    LongEnough(a, b);
    GBlock(a, b);
    GBlock(a, LBlock(b));
    var (b2, c) := Expression(b1, arm.cond);
    GrowsExpression(b1, arm.cond);
    GrowsTrans(a, b1, b2);
    GEnd(a, b2, CondBr(c, then_, false_));
    GSwitch(a, LEnd(b2, CondBr(c, then_, false_)), then_);
    var b3 := LSwitch(LEnd(b2, CondBr(c, then_, false_)), then_);
    GrowsStatements(b3, k, arm.body);
    var b4 := Statements(b3, k, arm.body);
    GrowsTrans(a, b3, b4);
    GEnd(a, b4, Goto(join));
    GSwitch(a, JumpTo(b4, join), false_);
  }

  lemma {:induction false} GrowsWhile(b: Low, k: Ctx, s: Stmt)
    requires s.While?
    ensures GrowsLoops(b, WhileStatement(b, k, s))
    decreases s, 0
  {
    hide Ext, Statements, Expression, LoopIn, WhileHead;
    var header := |Blocks(b)|;
    GrowsWhileHead(b);
    var (b1, c) := Expression(WhileHead(b), s.cond);
    GrowsExpression(WhileHead(b), s.cond);
    GrowsTrans(b, WhileHead(b), b1);
    GrowsBody(b, b1, k, CondBr(c, header + 1, header + 2), header + 1, LoopFrame(header + 2, header), s.body);
    GrowsLoopEnd(b, Statements(WhileIn(b, s.cond), k, s.body), header, header + 2, LoopFrame(header + 2, header));
  }

  lemma GrowsWhileHead(b: Low)
    ensures GrowsLoops(b, WhileHead(b))
  {
    GThree(b, Goto(|Blocks(b)|));
    GSwitch(b, LEnd(LBlock(LBlock(LBlock(b))), Goto(|Blocks(b)|)), |Blocks(b)|);
  }

  lemma {:induction false} GrowsRepeat(b: Low, k: Ctx, s: Stmt)
    requires s.Repeat?
    ensures GrowsLoops(b, RepeatStatement(b, k, s))
    decreases s, 0
  {
    hide Ext, Statements, Expression, LoopIn;
    var top := |Blocks(b)|;
    GTwo(b);
    GrowsBody(b, LBlock(LBlock(b)), k, Goto(top), top, LoopFrame(top + 1, top), s.body);
    GrowsLoopEnd(b, Statements(LoopTop(b), k, s.body), top, top + 1, LoopFrame(top + 1, top));
    GrowsUntil(b, LLeave(Statements(LoopTop(b), k, s.body)), s.cond, top);
  }

  lemma GrowsUntil(a: Low, b: Low, cond: Expr, top: BlockId)
    requires GrowsLoops(a, b) && |Blocks(a)| <= top
    ensures GrowsLoops(a, UntilTest(b, cond, top))
  {
    hide Ext, Expression;
    GSwitch(a, b, top + 1);
    var (b1, c) := Expression(b, cond);
    GrowsExpression(b, cond);
    GrowsTrans(a, b, b1);
    GEnd(a, b1, CondBr(c, top + 1, top));
    GSwitch(a, LEnd(b1, CondBr(c, top + 1, top)), top + 1);
  }

  lemma GrowsLeave(b: Low, k: Ctx, v: Option<Reg>)
    ensures GrowsLoops(b, Leave(b, k, v))
  {
    GrowsRefl(b);
    var b1 := FreeFrame(b, k);
    if k.frame.Some? {
      GrowsRuntimeCall(b, Machine.FREE, [k.frame.value]);
    }
    GEnd(b, b1, Terminator.Return(v));
    GEnd(b, b1, Terminator.Return(None));
    if k.resultSlot.Some? && v.Some? {
      GPush(b, b1, Store(k.resultSlot.value, v.value));
      GEnd(b, LPush(b1, Store(k.resultSlot.value, v.value)), Terminator.Return(None));
    }
  }

  lemma GrowsReturn(b: Low, k: Ctx, val: Option<Expr>)
    ensures GrowsLoops(b, ReturnStatement(b, k, val))
  {
    if val.None? {
      GrowsLeave(b, k, None);
    } else {
      var (b1, v) := Expression(b, val.value);
      GrowsExpression(b, val.value);
      GrowsLeave(b1, k, Some(v));
      GrowsTrans(b, b1, Leave(b1, k, Some(v)));
    }
  }

  // ---- FOR ----------------------------------------------------------------------------------

  lemma GrowsForVariable(b: Low, x: string)
    ensures GrowsLoops(b, ForVariable(b, x).0)
    ensures x in b.locals ==> Flows(b, ForVariable(b, x).0)
  {
    if x in b.locals {
      GrowsName(b, x);
    } else {
      GrowsRefl(b);
      GIns(b, b, Alloca(b.g.nextReg, None));
    }
  }

  lemma GrowsForHeader(b: Low, r: ForRegs)
    ensures Flows(b, ForHeader(b, r).0)
  {
    var n := b.g.nextReg;
    GrowsRefl(b);
    var b1 := Ins(b, Load(n, r.ptr));
    FIns(b, b, Load(n, r.ptr));
    var b2 := Ins(b1, Binary(n + 1, Le, n, r.last));
    FIns(b, b1, Binary(n + 1, Le, n, r.last));
    var b3 := Ins(b2, Binary(n + 2, Ge, n, r.last));
    FIns(b, b2, Binary(n + 2, Ge, n, r.last));
    var b4 := Ins(b3, Unary(n + 3, UnaryOp.Not, r.nonneg));
    FIns(b, b3, Unary(n + 3, UnaryOp.Not, r.nonneg));
    var b5 := Ins(b4, Binary(n + 4, And, r.nonneg, n + 1));
    FIns(b, b4, Binary(n + 4, And, r.nonneg, n + 1));
    var b6 := Ins(b5, Binary(n + 5, And, n + 3, n + 2));
    FIns(b, b5, Binary(n + 5, And, n + 3, n + 2));
    FIns(b, b6, Binary(n + 6, Or, n + 4, n + 5));
  }

  lemma GrowsForRoom(b: Low, r: ForRegs)
    ensures Flows(b, ForRoom(b, r).0)
  {
    hide Ext, Grows, Ins;
    var n := b.g.nextReg;
    GrowsRefl(b);
    var b1 := Ins(b, Load(n, r.ptr));
    FIns(b, b, Load(n, r.ptr));
    var b2 := Ins(b1, Binary(n + 1, Sub, r.last, n));
    FIns(b, b1, Binary(n + 1, Sub, r.last, n));
    var b3 := Ins(b2, Binary(n + 2, Sub, n, r.last));
    FIns(b, b2, Binary(n + 2, Sub, n, r.last));
    var b4 := Ins(b3, Binary(n + 3, Sub, r.zero, r.stride));
    FIns(b, b3, Binary(n + 3, Sub, r.zero, r.stride));
    var b5 := Ins(b4, Unary(n + 4, UnaryOp.Not, r.nonneg));
    FIns(b, b4, Unary(n + 4, UnaryOp.Not, r.nonneg));
    var b6 := Ins(b5, Binary(n + 5, Ge, n + 1, r.stride));
    FIns(b, b5, Binary(n + 5, Ge, n + 1, r.stride));
    var b7 := Ins(b6, Binary(n + 6, And, r.nonneg, n + 5));
    FIns(b, b6, Binary(n + 6, And, r.nonneg, n + 5));
    var b8 := Ins(b7, Binary(n + 7, Ge, n + 2, n + 3));
    FIns(b, b7, Binary(n + 7, Ge, n + 2, n + 3));
    var b9 := Ins(b8, Binary(n + 8, And, n + 4, n + 7));
    FIns(b, b8, Binary(n + 8, And, n + 4, n + 7));
    FIns(b, b9, Binary(n + 9, Or, n + 6, n + 8));
  }

  lemma GrowsForSetup(b: Low, s: Stmt)
    requires s.For?
    ensures GrowsLoops(b, ForSetup(b, s).0)
  {
    hide Ext, Expression, ForVariable, ExpressionOr;
    var (b1, ptr) := ForVariable(b, s.x);
    var (b2, v) := Expression(b1, s.from);
    var b2' := LPush(b2, Store(ptr, v));
    var (b3, last) := Expression(b2', s.to);
    var (b4, stride) := ExpressionOr(b3, s.step, 1);
    var zero := b4.g.nextReg;
    GrowsForVariable(b, s.x);
    GrowsExpression(b1, s.from);
    GrowsTrans(b, b1, b2);
    GPush(b, b2, Store(ptr, v));
    GrowsExpression(b2', s.to);
    GrowsTrans(b, b2', b3);
    GrowsExpressionOr(b3, s.step, 1);
    GrowsTrans(b, b3, b4);
    GIns(b, b4, Const(zero, IntC(0)));
    GIns(b, Ins(b4, Const(zero, IntC(0))), Binary(zero + 1, Ge, stride, zero));
  }

  lemma GrowsForAdvance(b: Low, r: ForRegs, cur: Reg, header: BlockId)
    ensures GrowsLoops(b, ForAdvance(b, r, cur, header))
  {
    var next := b.g.nextReg;
    GrowsRefl(b);
    GIns(b, b, Binary(next, Add, cur, r.stride));
    var b1 := Ins(b, Binary(next, Add, cur, r.stride));
    GPush(b, b1, Store(r.ptr, next));
    GEnd(b, LPush(b1, Store(r.ptr, next)), Goto(header));
  }

  lemma GrowsForTail(a: Low, b: Low, r: ForRegs, header: BlockId, f: LoopFrame)
    requires Grows(a, b) && b.g.loops == a.g.loops + [f] && header >= |Blocks(a)|
    ensures GrowsLoops(a, ForTail(b, r, header))
  {
    hide Ext, ForRoom, LoopEnd, ForAdvance, ForFork;
    GrowsLoopEnd(a, b, header + 2, header + 2, f);
    var b0 := LoopEnd(b, header + 2, header + 2);
    var (b1, cur, fits) := ForRoom(b0, r);
    GrowsForRoom(b0, r);
    GrowsTrans(a, b0, b1);
    GrowsForFork(b1, fits, header);
    var b2 := ForFork(b1, fits, header);
    GrowsTrans(a, b1, b2);
    GrowsForAdvance(b2, r, cur, header);
    GrowsTrans(a, b2, ForAdvance(b2, r, cur, header));
    GSwitch(a, ForAdvance(b2, r, cur, header), header + 3);
  }

  lemma GrowsForFork(b: Low, fits: Reg, header: BlockId)
    ensures GrowsLoops(b, ForFork(b, fits, header))
    ensures var c := ForFork(b, fits, header); var n := |Blocks(b)|;
            c.g.current == n && n < |Blocks(c)| && Blocks(c)[n] == EMPTY_BLOCK && c.g.nextReg == b.g.nextReg
  {
    var n := |Blocks(b)|;
    GrowsRefl(b);
    GBlock(b, b);
    GEnd(b, LBlock(b), CondBr(fits, n, header + 3));
    GSwitch(b, LEnd(LBlock(b), CondBr(fits, n, header + 3)), n);
  }

  lemma GThree(b: Low, t: Terminator)
    ensures var n := |Blocks(b)|; var f := LEnd(LBlock(LBlock(LBlock(b))), t);
            GrowsLoops(b, f) && |Blocks(f)| == n + 3 && f.g.current == b.g.current && f.g.nextReg == b.g.nextReg && f.locals == b.locals
            && (forall i :: n <= i < n + 3 ==> Blocks(f)[i] == EMPTY_BLOCK)
  {
    GrowsRefl(b);
    GBlock(b, b);
    GBlock(b, LBlock(b));
    GBlock(b, LBlock(LBlock(b)));
    GEnd(b, LBlock(LBlock(LBlock(b))), t);
  }

  lemma GFour(b: Low, t: Terminator)
    ensures var n := |Blocks(b)|; var f := LEnd(LBlock(LBlock(LBlock(LBlock(b)))), t);
            GrowsLoops(b, f) && |Blocks(f)| == n + 4 && f.g.current == b.g.current && f.g.nextReg == b.g.nextReg && f.locals == b.locals
            && (forall i :: n <= i < n + 4 ==> Blocks(f)[i] == EMPTY_BLOCK)
  {
    GrowsRefl(b);
    GBlock(b, b);
    GBlock(b, LBlock(b));
    GBlock(b, LBlock(LBlock(b)));
    GBlock(b, LBlock(LBlock(LBlock(b))));
    GEnd(b, LBlock(LBlock(LBlock(LBlock(b)))), t);
  }

  lemma GrowsForHead(b: Low)
    ensures GrowsLoops(b, ForHead(b))
  {
    GFour(b, Goto(|Blocks(b)|));
    GSwitch(b, LEnd(LBlock(LBlock(LBlock(LBlock(b)))), Goto(|Blocks(b)|)), |Blocks(b)|);
  }

  lemma {:induction false} GrowsFor(b: Low, k: Ctx, s: Stmt)
    requires s.For?
    ensures GrowsLoops(b, ForStatement(b, k, s))
    decreases s, 0
  {
    hide Ext, Statements, ForSetup, ForHeader, ForTail, ForHead, LoopIn;
    var (b1, r) := ForSetup(b, s);
    GrowsForSetup(b, s);
    var header := |Blocks(b1)|;
    LongEnough(b, b1);
    GrowsForHead(b1);
    GrowsTrans(b, b1, ForHead(b1));
    var (b2, c) := ForHeader(ForHead(b1), r);
    GrowsForHeader(ForHead(b1), r);
    GrowsTrans(b, ForHead(b1), b2);
    var f := LoopFrame(header + 3, header + 2);
    GrowsBody(b, b2, k, CondBr(c, header + 1, header + 3), header + 1, f, s.body);
    GrowsForTail(b, Statements(ForIn(b1, r), k, s.body), r, header, f);
  }

  // ---- CASE ---------------------------------------------------------------------------------

  lemma {:induction false} GrowsAddBlocks(b: Low, n: nat)
    ensures Flows(b, AddBlocks(b, n))
    ensures var c := AddBlocks(b, n);
            c.g.current == b.g.current && c.g.nextReg == b.g.nextReg && |Blocks(c)| == |Blocks(b)| + n
            && Blocks(c)[..|Blocks(b)|] == Blocks(b)
            && (forall i :: |Blocks(b)| <= i < |Blocks(c)| ==> Blocks(c)[i] == EMPTY_BLOCK)
    decreases n
  {
    GrowsRefl(b);
    if n > 0 {
      GBlock(b, b);
      GrowsAddBlocks(LBlock(b), n - 1);
      GrowsTrans(b, LBlock(b), AddBlocks(b, n));
      Untouched2(LBlock(b), AddBlocks(b, n));
    }
  }

  lemma Untouched2(a: Low, b: Low)
    requires Grows(a, b)
    ensures forall i :: 0 <= i < |Blocks(a)| && i != a.g.current ==> Blocks(b)[i] == Blocks(a)[i]
  {
  }

  lemma GrowsRangeTest(b: Low, v: Reg, lo: int, hi: int, target: BlockId)
    ensures Flows(b, RangeTest(b, v, lo, hi, target))
    ensures RangeTest(b, v, lo, hi, target).g.current == |Blocks(b)|
    ensures |Blocks(RangeTest(b, v, lo, hi, target))| == |Blocks(b)| + 1
    ensures Blocks(RangeTest(b, v, lo, hi, target))[|Blocks(b)|] == EMPTY_BLOCK
  {
    hide Ext;
    var next := |Blocks(b)|;
    var c := b.g.nextReg;
    GrowsRefl(b);
    GBlock(b, b);
    GIns(b, LBlock(b), Const(c, IntC(lo)));
    var b1 := Ins(LBlock(b), Const(c, IntC(lo)));
    GIns(b, b1, Const(c + 1, IntC(hi)));
    var b2 := Ins(b1, Const(c + 1, IntC(hi)));
    GIns(b, b2, Binary(c + 2, Ge, v, c));
    var b3 := Ins(b2, Binary(c + 2, Ge, v, c));
    GIns(b, b3, Binary(c + 3, Le, v, c + 1));
    var b4 := Ins(b3, Binary(c + 3, Le, v, c + 1));
    GIns(b, b4, Binary(c + 4, And, c + 2, c + 3));
    var b5 := Ins(b4, Binary(c + 4, And, c + 2, c + 3));
    GEnd(b, b5, CondBr(c + 4, target, next));
    GSwitch(b, LEnd(b5, CondBr(c + 4, target, next)), next);
  }

  lemma {:induction false} GrowsRangeTests(b: Low, v: Reg, ranges: seq<(int, int, BlockId)>)
    ensures Flows(b, RangeTests(b, v, ranges))
    decreases |ranges|
  {
    GrowsRefl(b);
    if ranges != [] {
      var b1 := RangeTest(b, v, ranges[0].0, ranges[0].1, ranges[0].2);
      GrowsRangeTest(b, v, ranges[0].0, ranges[0].1, ranges[0].2);
      GrowsRangeTests(b1, v, ranges[1..]);
      FlowsTrans(b, b1, RangeTests(b1, v, ranges[1..]));
    }
  }

  lemma {:induction false} GrowsCaseArms(a: Low, b: Low, k: Ctx, arms: seq<CaseArm>, first: BlockId, join: BlockId)
    requires GrowsLoops(a, b) && |Blocks(a)| <= first
    ensures GrowsLoops(a, CaseArms(b, k, arms, first, join))
    decreases arms, 0
  {
    if arms != [] {
      GSwitch(a, b, first);
      var b1 := LSwitch(b, first);
      GrowsStatements(b1, k, arms[0].body);
      var b2 := Statements(b1, k, arms[0].body);
      GrowsTrans(a, b1, b2);
      GEnd(a, b2, Goto(join));
      GrowsCaseArms(a, JumpTo(b2, join), k, arms[1..], first + 1, join);
    }
  }

  lemma {:induction false} GrowsCaseElse(b: Low, k: Ctx, els: Else, join: BlockId)
    ensures GrowsLoops(b, CaseElse(b, k, els, join))
    decreases els, 0
  {
    GrowsRefl(b);
    if els.ElseDo? {
      var c := Statements(b, k, els.ss);
      GrowsStatements(b, k, els.ss);
      GEnd(b, c, Goto(join));
    } else if !Closed(b) {
      GrowsRaise(b, CASE_EXCEPTION);
    }
  }

  lemma GrowsCaseDispatch(b: Low, v: Reg, arms: seq<CaseArm>)
    ensures GrowsLoops(b, CaseDispatch(b, v, arms))
  {
    hide Ext, Grows;
    var n := |Blocks(b)|;
    var b1 := AddBlocks(b, 2 + |arms|);
    GrowsAddBlocks(b, 2 + |arms|);
    var b2 := RangeTests(b1, v, Ranges(arms, n + 2));
    GrowsRangeTests(b1, v, Ranges(arms, n + 2));
    FlowsTrans(b, b1, b2);
    GEnd(b, b2, Switch(v, Singles(arms, n + 2), n + 1));
  }

  lemma {:induction false} GrowsCaseEnd(a: Low, b: Low, k: Ctx, els: Else, n: BlockId)
    requires GrowsLoops(a, b) && |Blocks(a)| <= n
    ensures GrowsLoops(a, LSwitch(CaseElse(LSwitch(b, n + 1), k, els, n), n))
    decreases els, 1
  {
    GSwitch(a, b, n + 1);
    GrowsCaseElse(LSwitch(b, n + 1), k, els, n);
    GrowsTrans(a, LSwitch(b, n + 1), CaseElse(LSwitch(b, n + 1), k, els, n));
    GSwitch(a, CaseElse(LSwitch(b, n + 1), k, els, n), n);
  }

  lemma {:induction false} GrowsCaseBodies(a: Low, b: Low, k: Ctx, s: Stmt, n: BlockId)
    requires s.Case? && GrowsLoops(a, b) && |Blocks(a)| <= n
    ensures GrowsLoops(a, CaseBodies(b, k, s, n))
    decreases s, -1
  {
    GrowsCaseArms(a, b, k, s.carms, n + 2, n);
    GrowsCaseEnd(a, CaseArms(b, k, s.carms, n + 2, n), k, s.els, n);
  }

  lemma {:induction false} GrowsCase(b: Low, k: Ctx, s: Stmt)
    requires s.Case?
    ensures GrowsLoops(b, CaseStatement(b, k, s))
    decreases s, 0
  {
    var (b1, v) := Expression(b, s.scrutinee);
    GrowsExpression(b, s.scrutinee);
    GrowsCaseDispatch(b1, v, s.carms);
    GrowsTrans(b, b1, CaseDispatch(b1, v, s.carms));
    GrowsCaseBodies(b, CaseDispatch(b1, v, s.carms), k, s, |Blocks(b1)|);
  }
}
