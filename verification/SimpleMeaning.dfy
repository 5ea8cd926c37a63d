/** Statements without statements inside. */
module SimpleMeaning {
  import opened Arith
  import opened Ir
  import opened Machine
  import opened Source
  import opened Builder
  import opened LowerSpec
  import opened LowerGrow
  import opened Running
  import opened ExprMeaning
  import opened Landing

  lemma AssignmentMeaning(w: World, f: seq<Block>, k: Ctx, b: Low, d: Designator, e: Expr, fuel: nat, c: Config) returns (r: Config)
    requires WfD(d) && WfE(e) && !Closed(b) && At(c, b) && Names(w, b, c) && Ext(Blocks(Assignment(b, d, e)), f)
    ensures Lands(w, f, k, b, Assignment(b, d, e), c, r, fuel, Exec(w, Assign(d, e), fuel, c.st))
  {
    hide Ext, Names, Expression, Address, Eval, Locate, WfE, WfD, Reach;
    var (b1, v) := Expression(b, e);
    var (b2, p) := Address(b1, d);
    GrowsExpression(b, e);
    GrowsAddress(b1, d);
    ExtPush(b2, Store(p, v), f);
    ExtBack(b1, b2, f);
    r := ExpressionMeaning(w, f, b, e, c);
    match Eval(w, e, c.st)
    case Escaped(_) =>
    case Val(n, st) =>
      var c1 := r;
      NamesKept(w, b, b1, c, c1);
      r := AddressMeaning(w, f, b1, d, c1);
      match Locate(w, d, st)
      case Escaped(st1) => ThenEscape(w, f, b, b1, c, c1, st, st1);
      case Val(l, st1) =>
        var c2 := r;
        HoldsKept(b1, b2, c1, c2, v, Num(n));
        ArrivesTrans(w, f, b, b1, b2, c, c1, c2, st, st1);
        r := StoreStep(w, f, b, b2, p, v, l, n, c, c2);
  }

  lemma StoreStep(w: World, f: seq<Block>, b: Low, b1: Low, p: Reg, v: Reg, l: Loc, n: I64, c: Config, d: Config) returns (e: Config)
    requires Arrives(w, f, b, b1, c, d, d.st) && !Closed(b1) && Ext(Blocks(LPush(b1, Store(p, v))), f)
    requires Holds(b1, d, p, CellAddr(l)) && Holds(b1, d, v, Num(n))
    ensures Arrives(w, f, b, LPush(b1, Store(p, v)), c, e, WriteCell(d.st, l, n)) && !Closed(LPush(b1, Store(p, v)))
    ensures e.regs == d.regs && e.slots == d.slots
  {
    hide Ext;
    PushStep(w, f, b1, Store(p, v), d);
    e := d.(st := WriteCell(d.st, l, n), idx := d.idx + 1);
    ReachTrans(w, f, 0, 0, Run(c), Run(d), Run(e));
  }

  lemma CallStatementMeaning(w: World, f: seq<Block>, k: Ctx, b: Low, fn: string, args: seq<Arg>, fuel: nat, c: Config) returns (r: Config)
    requires (forall a :: a in args ==> WfA(a)) && !Closed(b) && At(c, b) && Names(w, b, c) && Ext(Blocks(Expression(b, CallE(fn, args)).0), f)
    ensures Lands(w, f, k, b, Expression(b, CallE(fn, args)).0, c, r, fuel, Exec(w, CallS(fn, args), fuel, c.st))
  {
    hide Ext, Names, Expression, Eval, Reach;
    GrowsExpression(b, CallE(fn, args));
    r := ExpressionMeaning(w, f, b, CallE(fn, args), c);
  }

  lemma IncrementShape(b: Low, d: Designator, amount: Option<Expr>, up: bool, f: seq<Block>)
    requires !Closed(b) && Ext(Blocks(Increment(b, d, amount, up)), f)
    ensures var (b1, p) := Address(b, d);
            var b1' := Ins(b1, Load(b1.g.nextReg, p));
            var (b2, delta) := ExpressionOr(b1', amount, 1);
            var i := Binary(b2.g.nextReg, if up then Add else Sub, b1.g.nextReg, delta);
            && Ext(Blocks(b1), f) && Ext(Blocks(b1'), f) && Ext(Blocks(b2), f) && Ext(Blocks(Ins(b2, i)), f)
            && !Closed(b1') && !Closed(b2) && b1'.locals == b.locals
            && b.g.nextReg <= b1.g.nextReg && b1'.g.nextReg == b1.g.nextReg + 1 <= b2.g.nextReg
  {
    hide Ext, ExpressionOr, Address, Reach;
    var (b1, p) := Address(b, d);
    var b1' := Ins(b1, Load(b1.g.nextReg, p));
    var (b2, delta) := ExpressionOr(b1', amount, 1);
    GrowsAddress(b, d);
    GrowsExpressionOr(b1', amount, 1);
    var i := Binary(b2.g.nextReg, if up then Add else Sub, b1.g.nextReg, delta);
    ExtPush(Ins(b2, i), Store(p, b2.g.nextReg), f);
    ExtIns(b2, i, f);
    ExtBack(b1', b2, f);
    ExtIns(b1, Load(b1.g.nextReg, p), f);
  }

  lemma IncrementMeaning(w: World, f: seq<Block>, k: Ctx, b: Low, d: Designator, amount: Option<Expr>, up: bool, fuel: nat, c: Config) returns (r: Config)
    requires WfD(d) && (amount.Some? ==> WfE(amount.value)) && !Closed(b) && At(c, b) && Names(w, b, c) && Ext(Blocks(Increment(b, d, amount, up)), f)
    ensures Lands(w, f, k, b, Increment(b, d, amount, up), c, r, fuel, Exec(w, IncDec(d, amount, up), fuel, c.st))
  {
    hide Ext, Names, Increment, EvalOr, Locate, WfE, WfD, Reach, Wrap;
    r := IncrementSteps(w, f, b, d, amount, up, c);
  }

  /** Address, old value, amount, and the sum or difference stored. */
  lemma {:induction false} IncrementSteps(w: World, f: seq<Block>, b: Low, d: Designator, amount: Option<Expr>, up: bool, c: Config) returns (r: Config)
    requires WfD(d) && (amount.Some? ==> WfE(amount.value)) && !Closed(b) && At(c, b) && Names(w, b, c) && Ext(Blocks(Increment(b, d, amount, up)), f)
    ensures match Locate(w, d, c.st)
            case Escaped(st) => Reach(w, f, 0, Run(c), Done(Aborted, st))
            case Val(l, st) =>
              match EvalOr(w, amount, 1, st)
              case Escaped(st1) => Reach(w, f, 0, Run(c), Done(Aborted, st1))
              case Val(n, st1) =>
                var v := ReadCell(st, l);
                var z := Increment(b, d, amount, up);
                Arrives(w, f, b, z, c, r, WriteCell(st1, l, Wrap(if up then v + n else v - n))) && !Closed(z)
  {
    hide Ext, Names, ExpressionOr, Address, EvalOr, Locate, WfE, WfD, Reach, Wrap, WriteCell, Kept;
    var (b1, p) := Address(b, d);
    var cur := b1.g.nextReg;
    var b1' := Ins(b1, Load(cur, p));
    var (b2, delta) := ExpressionOr(b1', amount, 1);
    var i := Binary(b2.g.nextReg, if up then Add else Sub, cur, delta);
    IncrementShape(b, d, amount, up, f);
    r := AddressMeaning(w, f, b, d, c);
    match Locate(w, d, c.st)
    case Escaped(_) =>
    case Val(l, st) =>
      var v := ReadCell(st, l);
      var c1 := ThenIns(w, f, b, b1, Load(cur, p), c, r, st, Num(v));
      HoldsKept(b1, b1', r, c1, p, CellAddr(l));
      NamesKept(w, b, b1', c, c1);
      r := AmountMeaning(w, f, b, b1', amount, p, l, cur, v, c, c1, st);
      match EvalOr(w, amount, 1, st)
      case Escaped(_) =>
      case Val(n, st1) => r := AddAndStore(w, f, b, b2, i, p, l, v, n, up, c, r);
  }

  /** The amount, with the variable's address and old value still at hand. */
  lemma {:induction false} AmountMeaning(w: World, f: seq<Block>, b: Low, b1: Low, amount: Option<Expr>, p: Reg, l: Loc, cur: Reg, v: I64, c: Config, c1: Config, st: State)
    returns (d: Config)
    requires Arrives(w, f, b, b1, c, c1, st) && !Closed(b1) && b.g.nextReg <= b1.g.nextReg && Names(w, b1, c1)
    requires (amount.Some? ==> WfE(amount.value)) && Ext(Blocks(ExpressionOr(b1, amount, 1).0), f)
    requires Holds(b1, c1, p, CellAddr(l)) && Holds(b1, c1, cur, Num(v)) && b1.g.nextReg <= ExpressionOr(b1, amount, 1).0.g.nextReg
    ensures var (b2, delta) := ExpressionOr(b1, amount, 1);
            match EvalOr(w, amount, 1, st)
            case Escaped(st1) => Reach(w, f, 0, Run(c), Done(Aborted, st1))
            case Val(n, st1) =>
              && Arrives(w, f, b, b2, c, d, st1) && Holds(b2, d, delta, Num(n))
              && Holds(b2, d, p, CellAddr(l)) && Holds(b2, d, cur, Num(v))
  {
    hide Ext, Names, ExpressionOr, EvalOr, WfE, Reach;
    var (b2, delta) := ExpressionOr(b1, amount, 1);
    d := ExpressionOrMeaning(w, f, b1, amount, 1, c1);
    match EvalOr(w, amount, 1, st)
    case Escaped(st1) => ThenEscape(w, f, b, b1, c, c1, st, st1);
    case Val(_, st1) =>
      HoldsKept(b1, b2, c1, d, p, CellAddr(l));
      HoldsKept(b1, b2, c1, d, cur, Num(v));
      ArrivesTrans(w, f, b, b1, b2, c, c1, d, st, st1);
  }

  lemma AddAndStore(w: World, f: seq<Block>, b: Low, b2: Low, i: Inst, p: Reg, l: Loc, a: I64, n: I64, up: bool, c: Config, d: Config) returns (r: Config)
    requires Arrives(w, f, b, b2, c, d, d.st) && !Closed(b2) && b.g.nextReg <= b2.g.nextReg
    requires i.Binary? && i.dst == b2.g.nextReg && i.op == (if up then Add else Sub)
    requires Holds(b2, d, i.lhs, Num(a)) && Holds(b2, d, i.rhs, Num(n)) && Holds(b2, d, p, CellAddr(l))
    requires Ext(Blocks(LPush(Ins(b2, i), Store(p, i.dst))), f) && Ext(Blocks(Ins(b2, i)), f)
    ensures var b3 := LPush(Ins(b2, i), Store(p, i.dst));
            Arrives(w, f, b, b3, c, r, WriteCell(d.st, l, Wrap(if up then a + n else a - n))) && !Closed(b3)
  {
    hide Ext, Reach;
    var v := Wrap(if up then a + n else a - n);
    var d1 := ThenIns(w, f, b, b2, i, c, d, d.st, Num(v));
    assert !Closed(Ins(b2, i));
    r := StoreStep(w, f, b, Ins(b2, i), p, i.dst, l, v, c, d1);
  }

  // ---- ASSERT, HALT ----------------------------------------------------------------------

  lemma AssertFailureStep(w: World, f: seq<Block>, b: Low, c: Config)
    requires !Closed(b) && At(c, b) && Ext(Blocks(AssertFailure(b)), f)
    ensures Reach(w, f, 0, Run(c), Done(Aborted, c.st.(trace := c.st.trace + [Event(ASSERT_FAILED, [Text(""), Num(0)])])))
  {
    hide Ext, Reach;
    var msg := b.g.nextReg;
    var i1 := Const(msg, StrC(""));
    var i2 := Const(msg + 1, IntC(0));
    var b1 := Ins(b, i1);
    var b2 := Ins(b1, i2);
    var b3 := RuntimeCall(b2, ASSERT_FAILED, [msg, msg + 1]);
    EndExt(b3, Unreachable);
    ExtBack(b3, LEnd(b3, Unreachable), f);
    GrowsRuntimeCall(b2, ASSERT_FAILED, [msg, msg + 1]);
    ExtBack(b2, b3, f);
    ExtIns(b1, i2, f);
    var c1 := InsStep(w, f, b, i1, c, Text(""));
    var c2 := ThenIns(w, f, b, b1, i2, c, c1, c.st, Num(0));
    var _ := RuntimeCallStep(w, f, b2, ASSERT_FAILED, [msg, msg + 1], c2);
    assert ValuesOf(c2.regs, [msg, msg + 1]) == [Text(""), Num(0)];
    ThenEscape(w, f, b, b2, c, c2, c.st, c.st.(trace := c.st.trace + [Event(ASSERT_FAILED, [Text(""), Num(0)])]));
  }

  lemma AssertionMeaning(w: World, f: seq<Block>, k: Ctx, b: Low, e: Expr, fuel: nat, c: Config) returns (r: Config)
    requires WfE(e) && !Closed(b) && At(c, b) && Names(w, b, c) && Ext(Blocks(Assertion(b, e)), f)
    ensures Lands(w, f, k, b, Assertion(b, e), c, r, fuel, Exec(w, Assert(e), fuel, c.st))
  {
    hide Ext, Names, Expression, Eval, WfE, Reach, AssertFailure, Kept;
    var (b1, v) := Expression(b, e);
    GrowsExpression(b, e);
    var n := |Blocks(b1)|;
    var t := CondBr(v, n + 1, n);
    GFork(b1, t);
    var b2 := LEnd(LBlock(LBlock(b1)), t);
    var b3 := LSwitch(b2, n);
    GrowsAssertFailure(b3);
    ExtTrans(Blocks(b2), Blocks(AssertFailure(b3)), f);
    ExtBack(b1, b2, f);
    r := ExpressionMeaning(w, f, b, e, c);
    match Eval(w, e, c.st)
    case Escaped(_) =>
    case Val(x, st) =>
      var c1 := r;
      r := BranchStep(w, f, b.g.nextReg, LBlock(LBlock(b1)), v, n + 1, n, x, c, c1);
      Untouched(b3, AssertFailure(b3), n + 1);
      if x != 0 {
        JumpArrives(w, f, b, Assertion(b, e), c, r, n + 1, st);
      } else {
        AssertFailureStep(w, f, b3, r);
        ReachTrans(w, f, 0, 0, Run(c), Run(r), Done(Aborted, st.(trace := st.trace + [Event(ASSERT_FAILED, [Text(""), Num(0)])])));
      }
  }

  lemma HaltMeaning(w: World, f: seq<Block>, k: Ctx, b: Low, code: Option<Expr>, fuel: nat, c: Config) returns (r: Config)
    requires (code.Some? ==> WfE(code.value)) && !Closed(b) && At(c, b) && Names(w, b, c) && Ext(Blocks(HaltStatement(b, code)), f)
    ensures Lands(w, f, k, b, HaltStatement(b, code), c, r, fuel, Exec(w, Stmt.Halt(code), fuel, c.st))
  {
    hide Ext, Names, ExpressionOr, EvalOr, WfE, Reach;
    var (b1, v) := ExpressionOr(b, code, 1);
    GrowsExpressionOr(b, code, 1);
    var b2 := RuntimeCall(b1, HALT, [v]);
    GrowsRuntimeCall(b1, HALT, [v]);
    EndExt(b2, Unreachable);
    GrowsRefl(LEnd(b2, Unreachable));
    GBlock(LEnd(b2, Unreachable), LEnd(b2, Unreachable));
    ExtTrans(Blocks(LEnd(b2, Unreachable)), Blocks(HaltStatement(b, code)), f);
    ExtBack(b2, LEnd(b2, Unreachable), f);
    ExtBack(b1, b2, f);
    r := ExpressionOrMeaning(w, f, b, code, 1, c);
    match EvalOr(w, code, 1, c.st)
    case Escaped(_) =>
    case Val(n, st) =>
      var c1 := r;
      var _ := RuntimeCallStep(w, f, b1, HALT, [v], c1);
      assert ValuesOf(c1.regs, [v]) == [Num(n)];
      ThenEscape(w, f, b, b1, c, c1, st, st.(trace := st.trace + [Event(HALT, [Num(n)])]));
  }

  // ---- EXIT, RETRY, RETURN ------------------------------------------------------------------

  lemma ExitMeaning(w: World, f: seq<Block>, k: Ctx, b: Low, fuel: nat, c: Config) returns (r: Config)
    requires b.g.loops != [] && !Closed(b) && At(c, b) && Ext(Blocks(Statement(b, k, Exit)), f)
    ensures Lands(w, f, k, b, Statement(b, k, Exit), c, r, fuel, Exec(w, Exit, fuel, c.st))
  {
    hide Ext;
    ReachRefl(w, f, Run(c));
    r := GotoStep(w, f, b.g.nextReg, b, b.g.loops[|b.g.loops| - 1].exitBlock, c, c);
  }

  lemma RetryMeaning(w: World, f: seq<Block>, k: Ctx, b: Low, fuel: nat, c: Config) returns (r: Config)
    requires k.retry.Some? && !Closed(b) && At(c, b) && Ext(Blocks(Statement(b, k, Retry)), f)
    ensures Lands(w, f, k, b, Statement(b, k, Retry), c, r, fuel, Exec(w, Retry, fuel, c.st))
  {
    hide Ext, Reach;
    var b1 := RuntimeCall(b, HANDLED, []);
    GrowsRuntimeCall(b, HANDLED, []);
    EndExt(b1, Goto(k.retry.value));
    ExtBack(b1, LEnd(b1, Goto(k.retry.value)), f);
    var c1 := RuntimeCallStep(w, f, b, HANDLED, [], c);
    assert ValuesOf(c.regs, []) == [];
    r := GotoStep(w, f, b.g.nextReg, b1, k.retry.value, c, c1);
  }

  lemma FreeStep(w: World, f: seq<Block>, k: Ctx, b: Low, c: Config) returns (d: Config)
    requires !Closed(b) && At(c, b) && Surrounded(w, k, b, c) && Ext(Blocks(FreeFrame(b, k)), f)
    ensures Arrives(w, f, b, FreeFrame(b, k), c, d, if w.frame.Some? then c.st.(trace := c.st.trace + [Event(FREE, [w.frame.value])]) else c.st)
    ensures !Closed(FreeFrame(b, k)) && b.g.nextReg <= FreeFrame(b, k).g.nextReg
  {
    hide Ext, Reach;
    if k.frame.None? {
      ArrivesRefl(w, f, b, c);
      d := c;
    } else {
      GrowsRuntimeCall(b, FREE, [k.frame.value]);
      d := RuntimeCallStep(w, f, b, FREE, [k.frame.value], c);
      assert ValuesOf(c.regs, [k.frame.value]) == [w.frame.value];
    }
  }

  lemma LeaveMeaning(w: World, f: seq<Block>, k: Ctx, b: Low, v: Option<Reg>, n: Option<I64>, c: Config)
    requires !Closed(b) && At(c, b) && Surrounded(w, k, b, c) && Ext(Blocks(Leave(b, k, v)), f)
    requires v.Some? == n.Some? && (v.Some? ==> Holds(b, c, v.value, Num(n.value)))
    ensures LeaveFunction(w, n, c.st).o.Leaves?
    ensures Reach(w, f, 0, Run(c), Done(Result(LeaveFunction(w, n, c.st).o.v), LeaveFunction(w, n, c.st).st))
  {
    hide Ext, Reach;
    var b1 := FreeFrame(b, k);
    ExtLeave(b, k, v, f);
    var d := FreeStep(w, f, k, b, c);
    if v.Some? {
      HoldsKept(b, b1, c, d, v.value, Num(n.value));
    }
    var res := LeaveFunction(w, n, c.st);
    if k.resultSlot.Some? && v.Some? {
      var s := k.resultSlot.value;
      HoldsKept(b, b1, c, d, s, CellAddr(w.resultCell.value));
      var e := StoreStep(w, f, b, b1, s, v.value, w.resultCell.value, n.value, c, d);
      EndStep(w, f, LPush(b1, Store(s, v.value)), Terminator.Return(None), e);
      ReachTrans(w, f, 0, 0, Run(c), Run(e), Done(Result(None), res.st));
    } else if k.resultSlot.Some? {
      EndStep(w, f, b1, Terminator.Return(None), d);
      ReachTrans(w, f, 0, 0, Run(c), Run(d), Done(Result(None), res.st));
    } else {
      EndStep(w, f, b1, Terminator.Return(v), d);
      ReachTrans(w, f, 0, 0, Run(c), Run(d), Done(Result(n), res.st));
    }
  }

  lemma ExtLeave(b: Low, k: Ctx, v: Option<Reg>, f: seq<Block>)
    requires Ext(Blocks(Leave(b, k, v)), f)
    ensures Ext(Blocks(FreeFrame(b, k)), f)
    ensures k.resultSlot.Some? && v.Some? ==> Ext(Blocks(LPush(FreeFrame(b, k), Store(k.resultSlot.value, v.value))), f)
  {
    hide Ext;
    var b1 := FreeFrame(b, k);
    if k.resultSlot.Some? && v.Some? {
      var b2 := LPush(b1, Store(k.resultSlot.value, v.value));
      EndExt(b2, Terminator.Return(None));
      ExtBack(b2, LEnd(b2, Terminator.Return(None)), f);
      ExtPush(b1, Store(k.resultSlot.value, v.value), f);
    } else {
      EndExt(b1, Terminator.Return(None));
      EndExt(b1, Terminator.Return(v));
      ExtTrans(Blocks(b1), Blocks(Leave(b, k, v)), f);
    }
  }

  lemma ReturnMeaning(w: World, f: seq<Block>, k: Ctx, b: Low, val: Option<Expr>, fuel: nat, c: Config) returns (r: Config)
    requires (val.Some? ==> WfE(val.value)) && !Closed(b) && At(c, b) && Ready(w, k, b, c) && Ext(Blocks(ReturnStatement(b, k, val)), f)
    ensures Lands(w, f, k, b, ReturnStatement(b, k, val), c, r, fuel, Exec(w, Stmt.Return(val), fuel, c.st))
  {
    hide Ext, Names, Expression, Eval, WfE, Reach, Leave, LeaveFunction;
    r := c;
    if val.None? {
      LeaveMeaning(w, f, k, b, None, None, c);
    } else {
      var (b1, v) := Expression(b, val.value);
      GrowsExpression(b, val.value);
      GrowsLeave(b1, k, Some(v));
      ExtBack(b1, Leave(b1, k, Some(v)), f);
      r := ExpressionMeaning(w, f, b, val.value, c);
      match Eval(w, val.value, c.st)
      case Escaped(_) =>
      case Val(n, st) =>
        var c1 := r;
        ReadyKept(w, k, b, b1, c, c1);
        LeaveMeaning(w, f, k, b1, Some(v), Some(n), c1);
        var res := LeaveFunction(w, Some(n), st);
        ReachTrans(w, f, 0, 0, Run(c), Run(c1), Done(Result(res.o.v), res.st));
    }
  }
}
