/** The wrapper of a protected procedure does what running the procedure means. */
module ProtectedMeaning {
  import opened Arith
  import opened Ir
  import opened Machine
  import opened Source
  import opened Builder
  import opened LowerSpec
  import opened LowerGrow
  import opened LowerLocals
  import opened Running
  import opened ExprMeaning
  import opened Landing
  import opened LoopShape
  import opened SimpleMeaning
  import opened ProtectedSpec
  import StmtMeaning

  /** The registers the wrapper was given hold what they should. */
  ghost predicate Given(b: Low, c: Config, state: Reg, v: Value, result: Option<Reg>, l: Option<Loc>) {
    && Holds(b, c, state, v)
    && (result.Some? <==> l.Some?)
    && (result.Some? ==> Holds(b, c, result.value, CellAddr(l.value)))
  }

  ghost predicate Prepared(w: World, k: Ctx, b: Low, c: Config, state: Reg, v: Value, result: Option<Reg>, l: Option<Loc>) {
    Ready(w, k, b, c) && Given(b, c, state, v, result, l)
  }

  lemma PreparedKept(w: World, k: Ctx, b: Low, b1: Low, c: Config, d: Config, state: Reg, v: Value, result: Option<Reg>, l: Option<Loc>)
    requires Prepared(w, k, b, c, state, v, result, l) && Kept(b.g.nextReg, c, d) && b1.locals == b.locals && b.g.nextReg <= b1.g.nextReg
    ensures Prepared(w, k, b1, d, state, v, result, l)
  {
    hide Names, Surrounded;
    ReadyKept(w, k, b, b1, c, d);
  }

  /** A statement list of the wrapper: well formed, outside any loop. */
  ghost predicate Fine(ss: seq<Stmt>, b: Low, inHandler: bool) {
    WfSs(ss, b.locals.Keys, false, inHandler) && b.g.loops == []
  }

  // ---- The run itself ----------------------------------------------------------------------------

  lemma RunExt(b: Low, name: string, state: Reg, f: seq<Block>)
    requires Ext(Blocks(ProtectRun(b, name, state).0), f)
    ensures var n := b.g.nextReg;
            var b0 := Ins(b, Const(n, FuncRef(name)));
            var b1 := Ins(b0, Const(n + 1, FuncRef(RUN_PROTECTED)));
            var b2 := Ins(b1, Call(Some(n + 2), n + 1, [n, state]));
            var b3 := Ins(b2, Const(n + 3, IntC(0)));
            Ext(Blocks(b), f) && Ext(Blocks(b0), f) && Ext(Blocks(b1), f) && Ext(Blocks(b2), f) && Ext(Blocks(b3), f)
  {
    hide Ext, Ins;
    var n := b.g.nextReg;
    var b0 := Ins(b, Const(n, FuncRef(name)));
    var b1 := Ins(b0, Const(n + 1, FuncRef(RUN_PROTECTED)));
    var b2 := Ins(b1, Call(Some(n + 2), n + 1, [n, state]));
    var b3 := Ins(b2, Const(n + 3, IntC(0)));
    ExtIns(b3, Binary(n + 4, Eq, n + 2, n + 3), f);
    ExtIns(b2, Const(n + 3, IntC(0)), f);
    ExtIns(b1, Call(Some(n + 2), n + 1, [n, state]), f);
    ExtIns(b0, Const(n + 1, FuncRef(RUN_PROTECTED)), f);
    ExtIns(b, Const(n, FuncRef(name)), f);
  }

  lemma GrowsRun(b: Low, name: string, state: Reg)
    ensures Flows(b, ProtectRun(b, name, state).0) && ProtectRun(b, name, state).0.g.nextReg == b.g.nextReg + 5
    ensures ProtectRun(b, name, state).0.g.current == b.g.current && |Blocks(ProtectRun(b, name, state).0)| == |Blocks(b)|
  {
    hide Ext;
    var n := b.g.nextReg;
    var b0 := Ins(b, Const(n, FuncRef(name)));
    var b1 := Ins(b0, Const(n + 1, FuncRef(RUN_PROTECTED)));
    var b2 := Ins(b1, Call(Some(n + 2), n + 1, [n, state]));
    var b3 := Ins(b2, Const(n + 3, IntC(0)));
    GrowsRefl(b);
    FIns(b, b, Const(n, FuncRef(name)));
    FIns(b, b0, Const(n + 1, FuncRef(RUN_PROTECTED)));
    FIns(b, b1, Call(Some(n + 2), n + 1, [n, state]));
    FIns(b, b2, Const(n + 3, IntC(0)));
    FIns(b, b3, Binary(n + 4, Eq, n + 2, n + 3));
  }

  /** The call comes back with whether the statements ended normally, or does not
      come back. */
  lemma RunStep(w: World, f: seq<Block>, b: Low, name: string, state: Reg, v: Value, c: Config) returns (d: Config)
    requires !Closed(b) && At(c, b) && Holds(b, c, state, v) && Ext(Blocks(ProtectRun(b, name, state).0), f)
    ensures match Invoke(w, RUN_PROTECTED, [Code(name), v], c.st)
            case Gone(st) => Reach(w, f, 0, Run(c), Done(Aborted, st))
            case Returned(raised, st) =>
              var (z, ok) := ProtectRun(b, name, state);
              Arrives(w, f, b, z, c, d, st) && !Closed(z) && Holds(z, d, ok, Num(FromBool(raised == 0)))
  {
    hide Ext, Reach, Invoke;
    var n := b.g.nextReg;
    var b0 := Ins(b, Const(n, FuncRef(name)));
    var b1 := Ins(b0, Const(n + 1, FuncRef(RUN_PROTECTED)));
    var i := Call(Some(n + 2), n + 1, [n, state]);
    var b2 := Ins(b1, i);
    RunExt(b, name, state, f);
    var c0 := InsStep(w, f, b, Const(n, FuncRef(name)), c, Code(name));
    var c1 := ThenIns(w, f, b, b0, Const(n + 1, FuncRef(RUN_PROTECTED)), c, c0, c.st, Code(RUN_PROTECTED));
    assert ValuesOf(c1.regs, [n, state]) == [Code(name), v];
    d := CallStep(w, f, b, b1, n + 1, [n, state], RUN_PROTECTED, [Code(name), v], c, c1, c.st);
    match Invoke(w, RUN_PROTECTED, [Code(name), v], c.st)
    case Gone(_) =>
    case Returned(raised, st) => d := CompareStep(w, f, b, b2, n + 2, raised, c, d, st);
  }

  lemma CompareStep(w: World, f: seq<Block>, b: Low, b2: Low, r: Reg, raised: I64, c: Config, c2: Config, st: State) returns (d: Config)
    requires Arrives(w, f, b, b2, c, c2, st) && b.g.nextReg <= b2.g.nextReg && !Closed(b2) && Holds(b2, c2, r, Num(raised))
    requires var m := b2.g.nextReg;
             Ext(Blocks(Ins(b2, Const(m, IntC(0)))), f) && Ext(Blocks(Ins(Ins(b2, Const(m, IntC(0))), Binary(m + 1, Eq, r, m))), f)
    ensures var m := b2.g.nextReg;
            var z := Ins(Ins(b2, Const(m, IntC(0))), Binary(m + 1, Eq, r, m));
            Arrives(w, f, b, z, c, d, st) && !Closed(z) && Holds(z, d, m + 1, Num(FromBool(raised == 0)))
  {
    hide Ext, Reach;
    var m := b2.g.nextReg;
    var b3 := Ins(b2, Const(m, IntC(0)));
    var c3 := ThenIns(w, f, b, b2, Const(m, IntC(0)), c, c2, st, Num(0));
    HoldsKept(b2, b3, c2, c3, r, Num(raised));
    assert !Closed(b3);
    d := ThenBinary(w, f, b, b3, Eq, r, m, raised, 0, FromBool(raised == 0), c, c3, st);
  }

  // ---- Returning -----------------------------------------------------------------------------------

  lemma ReturnExt(b: Low, k: Ctx, result: Option<Reg>, f: seq<Block>)
    requires Ext(Blocks(ProtectReturn(b, k, result)), f)
    ensures Ext(Blocks(b), f) && Ext(Blocks(FreeFrame(b, k)), f)
    ensures result.Some? ==> Ext(Blocks(Ins(FreeFrame(b, k), Load(FreeFrame(b, k).g.nextReg, result.value))), f)
  {
    hide Ext, Ins;
    var b1 := FreeFrame(b, k);
    GrowsRefl(b);
    if k.frame.Some? {
      GrowsRuntimeCall(b, FREE, [k.frame.value]);
    }
    if result.Some? {
      var i := Load(b1.g.nextReg, result.value);
      EndExt(Ins(b1, i), Terminator.Return(Some(b1.g.nextReg)));
      ExtBack(Ins(b1, i), ProtectReturn(b, k, result), f);
      ExtIns(b1, i, f);
    } else {
      EndExt(b1, Terminator.Return(None));
      ExtBack(b1, ProtectReturn(b, k, result), f);
    }
    ExtBack(b, b1, f);
  }

  lemma HandOverStep(w: World, f: seq<Block>, k: Ctx, b: Low, state: Reg, v: Value, result: Option<Reg>, l: Option<Loc>, c: Config)
    requires !Closed(b) && At(c, b) && Prepared(w, k, b, c, state, v, result, l) && Ext(Blocks(ProtectReturn(b, k, result)), f)
    ensures HandOver(w, l, c.st).o.Leaves?
    ensures Reach(w, f, 0, Run(c), Done(Result(HandOver(w, l, c.st).o.v), HandOver(w, l, c.st).st))
  {
    hide Ext, Reach, FreeFrame;
    ReturnExt(b, k, result, f);
    var b1 := FreeFrame(b, k);
    var d := FreeStep(w, f, k, b, c);
    var res := HandOver(w, l, c.st);
    if result.Some? {
      HoldsKept(b, b1, c, d, result.value, CellAddr(l.value));
      var i := Load(b1.g.nextReg, result.value);
      var e := ThenIns(w, f, b, b1, i, c, d, d.st, Num(ReadCell(d.st, l.value)));
      EndStep(w, f, Ins(b1, i), Terminator.Return(Some(b1.g.nextReg)), e);
      ReachTrans(w, f, 0, 0, Run(c), Run(e), Done(Result(res.o.v), res.st));
    } else {
      EndStep(w, f, b1, Terminator.Return(None), d);
      ReachTrans(w, f, 0, 0, Run(c), Run(d), Done(Result(None), res.st));
    }
  }

  // ---- How a wrapper's run may end --------------------------------------------------------------------

  /** Like `Lands`, for code nothing comes after. */
  ghost predicate Ends(w: World, f: seq<Block>, c: Config, d: Config, fuel: nat, res: Res) {
    match res.o
    case Leaves(v) => Reach(w, f, 0, Run(c), Done(Result(v), res.st))
    case Ended => Reach(w, f, 0, Run(c), Done(Aborted, res.st))
    case Timeout => Reach(w, f, fuel, Run(c), Run(d)) && d.st == res.st
    case _ => false
  }

  lemma EndsAfter(w: World, f: seq<Block>, c: Config, c1: Config, d: Config, j: nat, more: nat, fuel: nat, res: Res)
    requires Reach(w, f, j, Run(c), Run(c1)) && Ends(w, f, c1, d, more, res) && fuel <= j + more
    ensures Ends(w, f, c, d, fuel, res)
  {
    hide Reach;
    match res.o
    case Leaves(v) => ReachTrans(w, f, j, 0, Run(c), Run(c1), Done(Result(v), res.st));
    case Ended => ReachTrans(w, f, j, 0, Run(c), Run(c1), Done(Aborted, res.st));
    case Timeout => ReachTrans(w, f, j, more, Run(c), Run(c1), Run(d));
  }

  lemma LandsEnds(w: World, f: seq<Block>, k: Ctx, b: Low, b1: Low, c: Config, d: Config, fuel: nat, res: Res)
    requires Lands(w, f, k, b, b1, c, d, fuel, res) && !res.o.Normal? && b.g.loops == [] && (k.retry.None? || !res.o.Retried?)
    ensures Ends(w, f, c, d, fuel, res)
  {
  }

  // ---- FINALLY and the way out ---------------------------------------------------------------------------

  lemma LastMeaning(w: World, f: seq<Block>, k: Ctx, b: Low, final: seq<Stmt>, state: Reg, v: Value, result: Option<Reg>, l: Option<Loc>, fuel: nat, c: Config)
    returns (d: Config)
    requires k.retry.None? && !Closed(b) && At(c, b) && Prepared(w, k, b, c, state, v, result, l) && Fine(final, b, false)
    requires Ext(Blocks(Last(b, k, final, result)), f)
    ensures Ends(w, f, c, d, fuel, FinishUp(w, final, l, fuel, c.st))
  {
    hide Ext, Reach, Names, Surrounded, ExecAll, Statements, WfSs, ProtectReturn, Given, HandOver;
    var o := Statements(b, k, final);
    LastExt(b, k, final, result, f);
    GrowsStatements(b, k, final);
    d := StmtMeaning.StatementsMeaning(w, f, k, b, final, fuel, c);
    var r := ExecAll(w, final, fuel, c.st);
    if r.o.Normal? {
      SameLocalsAll(b, k, final, b.locals.Keys, false, false);
      LongEnough(b, o);
      PreparedKept(w, k, b, o, c, d, state, v, result, l);
      HandOverStep(w, f, k, o, state, v, result, l, d);
      EndsAfter(w, f, c, d, d, 0, 0, 0, HandOver(w, l, d.st));
    } else {
      LandsEnds(w, f, k, b, o, c, d, fuel, r);
    }
  }

  lemma LastExt(b: Low, k: Ctx, final: seq<Stmt>, result: Option<Reg>, f: seq<Block>)
    requires Ext(Blocks(Last(b, k, final, result)), f)
    ensures Ext(Blocks(Statements(b, k, final)), f) && Ext(Blocks(b), f)
    ensures !Closed(Statements(b, k, final)) ==> Ext(Blocks(ProtectReturn(Statements(b, k, final), k, result)), f)
  {
    hide Ext, Statements, ProtectReturn;
    var o := Statements(b, k, final);
    GrowsStatements(b, k, final);
    if !Closed(o) {
      ReturnExt(o, k, result, f);
    }
    ExtBack(b, o, f);
  }

  // ---- EXCEPT ----------------------------------------------------------------------------------------------

  lemma HandledExt(b: Low, k: Ctx, p: Protected, ok: Reg, header: BlockId, result: Option<Reg>, f: seq<Block>)
    requires p.handler.Some? && Ext(Blocks(Handled(b, k, p, ok, header, result)), f)
    ensures var n := |Blocks(b)|;
            var h := HandlerIn(b, ok);
            var o := Statements(h, k.(retry := Some(header)), p.handler.value);
            var j := HandlerOut(o, n + 1);
            && h.g.current == n && Blocks(h)[n] == EMPTY_BLOCK && !Closed(h) && h.locals == b.locals && h.g.loops == b.g.loops && h.g.nextReg == b.g.nextReg
            && j.g.current == n + 1 && Blocks(j)[n + 1] == EMPTY_BLOCK && !Closed(j) && j.g.loops == b.g.loops && j.locals == o.locals
            && h.g.nextReg <= o.g.nextReg <= j.g.nextReg
            && Ext(Blocks(LEnd(LBlock(LBlock(b)), CondBr(ok, n + 1, n))), f) && Ext(Blocks(o), f) && Ext(Blocks(j), f)
            && (!Closed(o) ==> Ext(Blocks(RuntimeCall(o, HANDLED, [])), f) && Ext(Blocks(LEnd(RuntimeCall(o, HANDLED, []), Goto(n + 1))), f))
  {
    hide Ext, Statements, RuntimeCall, Last, Reserved;
    var n := |Blocks(b)|;
    ReservedNew(b, 2);
    var b0 := LBlock(LBlock(b));
    var t := CondBr(ok, n + 1, n);
    ReservedEnd(b0, t, n, n + 2);
    ReservedTake(LEnd(b0, t), n, n, n + 2);
    var h := HandlerIn(b, ok);
    ReservedPart(LEnd(b0, t), n, n + 2, n + 1, n + 2);
    ReservedSwitch(LEnd(b0, t), n, n + 1, n + 2);
    var k1 := k.(retry := Some(header));
    var o := Statements(h, k1, p.handler.value);
    GrowsStatements(h, k1, p.handler.value);
    LongEnough(h, o);
    ReservedGrows(h, o, n + 1, n + 2);
    GrowsRuntimeCall(o, HANDLED, []);
    var q := RuntimeCall(o, HANDLED, []);
    ReservedGrows(o, q, n + 1, n + 2);
    ReservedEnd(q, Goto(n + 1), n + 1, n + 2);
    var e := if Closed(o) then o else LEnd(q, Goto(n + 1));
    ReservedTake(e, n + 1, n + 1, n + 2);
    LastExt(HandlerOut(o, n + 1), k, p.final, result, f);
    if !Closed(o) {
      EndExt(q, Goto(n + 1));
      ExtBack(q, e, f);
      ExtBack(o, q, f);
    }
    ExtBack(h, o, f);
  }

  /** The handler ran to its end: note it, on in the join. */
  lemma HandledStep(w: World, f: seq<Block>, m: Reg, o: Low, join: BlockId, c: Config, d: Config) returns (e: Config)
    requires !Closed(o) && At(d, o) && Reach(w, f, 0, Run(c), Run(d)) && Kept(m, c, d) && m <= o.g.nextReg
    requires Ext(Blocks(RuntimeCall(o, HANDLED, [])), f) && Ext(Blocks(LEnd(RuntimeCall(o, HANDLED, []), Goto(join))), f)
    ensures Jumps(w, f, m, c, e, join, d.st.(trace := d.st.trace + [Event(HANDLED, [])]))
  {
    hide Ext, Reach, RuntimeCall;
    GrowsRuntimeCall(o, HANDLED, []);
    var q := RuntimeCall(o, HANDLED, []);
    var d1 := RuntimeCallStep(w, f, o, HANDLED, [], d);
    assert ValuesOf(d.regs, []) == [];
    ReachTrans(w, f, 0, 0, Run(c), Run(d), Run(d1));
    KeptTrans(m, o.g.nextReg, c, d, d1);
    e := GotoStep(w, f, m, q, join, c, d1);
  }

  lemma {:induction false} RoundsMeaning(w: World, f: seq<Block>, k: Ctx, b: Low, p: Protected, state: Reg, v: Value, result: Option<Reg>, l: Option<Loc>, fuel: nat, c: Config)
    returns (d: Config)
    requires k.retry.None? && Prepared(w, k, b, c, state, v, result, l) && c.blk == |Blocks(b)| && c.idx == 0
    requires Fine(p.final, b, false) && (p.handler.Some? ==> Fine(p.handler.value, b, true))
    requires Ext(Blocks(Wrapper(b, k, p, state, result)), f)
    ensures Ends(w, f, c, d, fuel, RunProtected(w, p, v, l, fuel, c.st))
    decreases fuel, 2
  {
    hide Ext, Reach, Names, Surrounded, ProtectHead, ProtectRun, Handled, Finalized, WfSs, Given, Invoke, ExecAll, FinishUp, HandOver, Reraise;
    ReachRefl(w, f, Run(c));
    d := c;
    if fuel > 0 {
      var h := ProtectHead(b);
      HeadShape(b);
      var (z, ok) := ProtectRun(h, p.name, state);
      WrapperExt(b, k, p, state, result, f);
      GrowsRun(h, p.name, state);
      PreparedKept(w, k, b, h, c, c, state, v, result, l);
      assert Holds(h, c, state, v) by { StateHeld(h, c, state, v, result, l); }
      d := RunStep(w, f, h, p.name, state, v, c);
      match Invoke(w, RUN_PROTECTED, [Code(p.name), v], c.st)
      case Gone(st) =>
      case Returned(raised, st) =>
        var c1 := d;
        PreparedKept(w, k, h, z, c, c1, state, v, result, l);
        if p.handler.Some? {
          d := HandledMeaning(w, f, k, b, z, p, ok, raised, state, v, result, l, fuel, c, c1);
        } else {
          d := FinalizedMeaning(w, f, k, z, p, ok, raised, state, v, result, l, fuel, c1);
          EndsAfter(w, f, c, c1, d, 0, fuel, fuel, RunProtected(w, p, v, l, fuel, c.st));
        }
    }
  }

  lemma StateHeld(b: Low, c: Config, state: Reg, v: Value, result: Option<Reg>, l: Option<Loc>)
    requires Given(b, c, state, v, result, l)
    ensures Holds(b, c, state, v)
  {
  }

  lemma HeadShape(b: Low)
    ensures var n := |Blocks(b)|;
            var h := ProtectHead(b);
            && h.g.current == n && Blocks(h)[n] == EMPTY_BLOCK && !Closed(h) && h.locals == b.locals && h.g.loops == b.g.loops && h.g.nextReg == b.g.nextReg
            && |Blocks(h)| == n + 1 && Blocks(h) == Blocks(LEnd(LBlock(b), Goto(n)))
  {
  }

  lemma WrapperExt(b: Low, k: Ctx, p: Protected, state: Reg, result: Option<Reg>, f: seq<Block>)
    requires Ext(Blocks(Wrapper(b, k, p, state, result)), f)
    ensures var (z, ok) := ProtectRun(ProtectHead(b), p.name, state);
            && Ext(Blocks(z), f) && Ext(Blocks(ProtectHead(b)), f)
            && (if p.handler.Some? then Ext(Blocks(Handled(z, k, p, ok, |Blocks(b)|, result)), f) else Ext(Blocks(Finalized(z, k, p, ok, result)), f))
  {
    hide Ext, ProtectRun, ProtectHead, Handled, Finalized;
    var (z, ok) := ProtectRun(ProtectHead(b), p.name, state);
    GrowsRun(ProtectHead(b), p.name, state);
    if p.handler.Some? {
      HandledExt(z, k, p, ok, |Blocks(b)|, result, f);
      var n := |Blocks(z)|;
      GTwo(z);
      GEnd(z, LBlock(LBlock(z)), CondBr(ok, n + 1, n));
      ExtBack(z, LEnd(LBlock(LBlock(z)), CondBr(ok, n + 1, n)), f);
    } else {
      FinalizedExt(z, k, p, ok, result, f);
    }
    ExtBack(ProtectHead(b), z, f);
  }

  lemma {:induction false} HandledMeaning(w: World, f: seq<Block>, k: Ctx, b: Low, z: Low, p: Protected, ok: Reg, raised: I64, state: Reg, v: Value, result: Option<Reg>,
                                          l: Option<Loc>, fuel: nat, c: Config, c1: Config) returns (d: Config)
    requires p.handler.Some? && k.retry.None? && fuel > 0 && Ext(Blocks(Wrapper(b, k, p, state, result)), f)
    requires Fine(p.final, b, false) && Fine(p.handler.value, b, true) && Prepared(w, k, b, c, state, v, result, l)
    requires (z, ok) == ProtectRun(ProtectHead(b), p.name, state) && z.locals == b.locals && z.g.loops == [] && b.g.nextReg <= z.g.nextReg
    requires Reach(w, f, 0, Run(c), Run(c1)) && Kept(b.g.nextReg, c, c1) && !Closed(z) && At(c1, z) && Holds(z, c1, ok, Num(FromBool(raised == 0)))
    requires Prepared(w, k, z, c1, state, v, result, l)
    ensures Ends(w, f, c, d, fuel,
                 if raised == 0 then FinishUp(w, p.final, l, fuel, c1.st)
                 else
                   var r := ExecAll(w, p.handler.value, fuel, c1.st);
                   if r.o.Normal? then FinishUp(w, p.final, l, fuel, r.st.(trace := r.st.trace + [Event(HANDLED, [])]))
                   else if r.o.Retried? then RunProtected(w, p, v, l, fuel - 1, r.st)
                   else r)
    decreases fuel, 1
  {
    hide Ext, Reach, Names, Surrounded, ProtectHead, ProtectRun, Statements, WfSs, Given, ExecAll, FinishUp, RunProtected, HandlerIn, HandlerOut, Last, RuntimeCall, Wrapper;
    var n := |Blocks(z)|;
    var header := |Blocks(b)|;
    WrapperHandled(b, k, p, state, result, f);
    HandledExt(z, k, p, ok, header, result, f);
    var h := HandlerIn(z, ok);
    var k1 := k.(retry := Some(header));
    var o := Statements(h, k1, p.handler.value);
    var j := HandlerOut(o, n + 1);
    AtSame(z, LBlock(LBlock(z)), c1);
    var c2 := BranchStep(w, f, b.g.nextReg, LBlock(LBlock(z)), ok, n + 1, n, FromBool(raised == 0), c, c1);
    SameLocalsAll(h, k1, p.handler.value, b.locals.Keys, false, true);
    if raised == 0 {
      PreparedKept(w, k, b, j, c, c2, state, v, result, l);
      d := LastMeaning(w, f, k, j, p.final, state, v, result, l, fuel, c2);
      EndsAfter(w, f, c, c2, d, 0, fuel, fuel, FinishUp(w, p.final, l, fuel, c2.st));
    } else {
      PreparedKept(w, k, b, h, c, c2, state, v, result, l);
      RetryReady(w, k, header, h, c2);
      d := StmtMeaning.StatementsMeaning(w, f, k1, h, p.handler.value, fuel, c2);
      var r := ExecAll(w, p.handler.value, fuel, c2.st);
      if r.o.Normal? {
        var c3 := d;
        ReachTrans(w, f, 0, 0, Run(c), Run(c2), Run(c3));
        KeptTrans(b.g.nextReg, h.g.nextReg, c, c2, c3);
        var c4 := HandledStep(w, f, b.g.nextReg, o, n + 1, c, c3);
        PreparedKept(w, k, b, j, c, c4, state, v, result, l);
        d := LastMeaning(w, f, k, j, p.final, state, v, result, l, fuel, c4);
        EndsAfter(w, f, c, c4, d, 0, fuel, fuel, FinishUp(w, p.final, l, fuel, c4.st));
      } else if r.o.Retried? {
        var c3 := d;
        ReachTrans(w, f, 1, 0, Run(c), Run(c2), Run(c3));
        KeptTrans(b.g.nextReg, h.g.nextReg, c, c2, c3);
        PreparedKept(w, k, b, b, c, c3, state, v, result, l);
        d := RoundsMeaning(w, f, k, b, p, state, v, result, l, fuel - 1, c3);
        EndsAfter(w, f, c, c3, d, 1, fuel - 1, fuel, RunProtected(w, p, v, l, fuel - 1, c3.st));
      } else {
        LandsEnds(w, f, k1, h, o, c2, d, fuel, r);
        EndsAfter(w, f, c, c2, d, 0, fuel, fuel, r);
      }
    }
  }

  lemma WrapperHandled(b: Low, k: Ctx, p: Protected, state: Reg, result: Option<Reg>, f: seq<Block>)
    requires p.handler.Some? && Ext(Blocks(Wrapper(b, k, p, state, result)), f)
    ensures var (z, ok) := ProtectRun(ProtectHead(b), p.name, state); Ext(Blocks(Handled(z, k, p, ok, |Blocks(b)|, result)), f)
  {
  }

  /** The handler's surroundings differ in where RETRY goes, and nothing else. */
  lemma RetryReady(w: World, k: Ctx, header: BlockId, b: Low, c: Config)
    requires Ready(w, k, b, c)
    ensures Ready(w, k.(retry := Some(header)), b, c)
  {
  }

  // ---- FINALLY only ------------------------------------------------------------------------------------------

  lemma FinalizedExt(b: Low, k: Ctx, p: Protected, ok: Reg, result: Option<Reg>, f: seq<Block>)
    requires Ext(Blocks(Finalized(b, k, p, ok, result)), f)
    ensures var o := Statements(b, k, p.final);
            var n := |Blocks(o)|;
            var t := CondBr(ok, n, n + 1);
            var g := LSwitch(LEnd(LBlock(LBlock(o)), t), n + 1);
            var z := ReraiseFork(o, k, ok);
            && Ext(Blocks(o), f) && Ext(Blocks(b), f) && b.g.nextReg <= o.g.nextReg && o.g.loops == b.g.loops
            && (!Closed(o) ==>
                  && Ext(Blocks(LEnd(LBlock(LBlock(o)), t)), f) && Ext(Blocks(FreeFrame(g, k)), f) && Ext(Blocks(RuntimeCall(FreeFrame(g, k), RERAISE, [])), f)
                  && Ext(Blocks(ProtectReturn(z, k, result)), f) && g.g.current == n + 1 && Blocks(g)[n + 1] == EMPTY_BLOCK && !Closed(g)
                  && z.g.current == n && Blocks(z)[n] == EMPTY_BLOCK && !Closed(z) && g.locals == o.locals && z.locals == o.locals && g.g.nextReg == o.g.nextReg && o.g.nextReg <= z.g.nextReg)
  {
    hide Ext, Statements, ProtectReturn, RuntimeCall, ReraiseFork, FreeFrame;
    var o := Statements(b, k, p.final);
    GrowsStatements(b, k, p.final);
    LongEnough(b, o);
    if !Closed(o) {
      ForkExt(o, k, ok, result, f);
    }
    ExtBack(b, o, f);
  }

  lemma ForkExt(o: Low, k: Ctx, ok: Reg, result: Option<Reg>, f: seq<Block>)
    requires !Closed(o) && Ext(Blocks(ProtectReturn(ReraiseFork(o, k, ok), k, result)), f)
    ensures var n := |Blocks(o)|;
            var t := CondBr(ok, n, n + 1);
            var g := LSwitch(LEnd(LBlock(LBlock(o)), t), n + 1);
            var z := ReraiseFork(o, k, ok);
            && Ext(Blocks(o), f) && Ext(Blocks(LEnd(LBlock(LBlock(o)), t)), f) && Ext(Blocks(FreeFrame(g, k)), f) && Ext(Blocks(RuntimeCall(FreeFrame(g, k), RERAISE, [])), f)
            && g.g.current == n + 1 && Blocks(g)[n + 1] == EMPTY_BLOCK && !Closed(g)
            && z.g.current == n && Blocks(z)[n] == EMPTY_BLOCK && !Closed(z) && g.locals == o.locals && z.locals == o.locals && g.g.nextReg == o.g.nextReg && o.g.nextReg <= z.g.nextReg
  {
    hide Ext, ProtectReturn, RuntimeCall, FreeFrame, Reserved, Closed;
    var n := |Blocks(o)|;
    var t := CondBr(ok, n, n + 1);
    ReservedNew(o, 2);
    var e := LEnd(LBlock(LBlock(o)), t);
    ReservedEnd(LBlock(LBlock(o)), t, n, n + 2);
    ReservedTake(e, n + 1, n, n + 2);
    ReservedPart(e, n, n + 2, n, n + 1);
    ReservedSwitch(e, n + 1, n, n + 1);
    var g := LSwitch(e, n + 1);
    ForkFreed(g, k, n);
    var q := RuntimeCall(FreeFrame(g, k), RERAISE, []);
    ReturnExt(ReraiseFork(o, k, ok), k, result, f);
    EndExt(q, Unreachable);
    ExtBack(q, LEnd(q, Unreachable), f);
    ExtBack(FreeFrame(g, k), q, f);
    ExtBack(g, FreeFrame(g, k), f);
    GTwo(o);
    GEnd(o, LBlock(LBlock(o)), t);
    ExtBack(o, e, f);
  }

  lemma ForkFreed(g: Low, k: Ctx, n: BlockId)
    requires Reserved(g, n, n + 1)
    ensures var a := FreeFrame(g, k);
            var q := RuntimeCall(a, RERAISE, []);
            var e := LEnd(q, Unreachable);
            && Grows(g, a) && Grows(a, q) && LSwitch(e, n).g.current == n && Blocks(LSwitch(e, n))[n] == EMPTY_BLOCK && !Closed(LSwitch(e, n))
            && g.g.nextReg <= e.g.nextReg && e.locals == g.locals
  {
    hide Ext, RuntimeCall;
    GrowsRefl(g);
    if k.frame.Some? {
      GrowsRuntimeCall(g, FREE, [k.frame.value]);
    }
    var a := FreeFrame(g, k);
    GrowsRuntimeCall(a, RERAISE, []);
    var q := RuntimeCall(a, RERAISE, []);
    LongEnough(g, a);
    LongEnough(a, q);
    ReservedGrows(g, a, n, n + 1);
    ReservedGrows(a, q, n, n + 1);
    ReservedEnd(q, Unreachable, n, n + 1);
    ReservedTake(LEnd(q, Unreachable), n, n, n + 1);
  }

  lemma FinalizedMeaning(w: World, f: seq<Block>, k: Ctx, b: Low, p: Protected, ok: Reg, raised: I64, state: Reg, v: Value, result: Option<Reg>, l: Option<Loc>,
                         fuel: nat, c: Config) returns (d: Config)
    requires k.retry.None? && !Closed(b) && At(c, b) && Prepared(w, k, b, c, state, v, result, l) && Fine(p.final, b, false)
    requires Holds(b, c, ok, Num(FromBool(raised == 0))) && Ext(Blocks(Finalized(b, k, p, ok, result)), f)
    ensures var r := ExecAll(w, p.final, fuel, c.st);
            Ends(w, f, c, d, fuel, if !r.o.Normal? then r else if raised == 0 then HandOver(w, l, r.st) else Reraise(w, r.st))
  {
    hide Ext, Reach, Names, Surrounded, ExecAll, Statements, WfSs, ProtectReturn, Given, HandOver, ReraiseFork, RuntimeCall, FreeFrame;
    var o := Statements(b, k, p.final);
    FinalizedExt(b, k, p, ok, result, f);
    d := StmtMeaning.StatementsMeaning(w, f, k, b, p.final, fuel, c);
    var r := ExecAll(w, p.final, fuel, c.st);
    if r.o.Normal? {
      var c1 := d;
      var n := |Blocks(o)|;
      SameLocalsAll(b, k, p.final, b.locals.Keys, false, false);
      HoldsKept(b, o, c, c1, ok, Num(FromBool(raised == 0)));
      AtSame(o, LBlock(LBlock(o)), c1);
      HoldsIn(o, LBlock(LBlock(o)), c1, ok, Num(FromBool(raised == 0)));
      var c2 := BranchStep(w, f, b.g.nextReg, LBlock(LBlock(o)), ok, n, n + 1, FromBool(raised == 0), c, c1);
      if raised == 0 {
        var z := ReraiseFork(o, k, ok);
        PreparedKept(w, k, b, z, c, c2, state, v, result, l);
        HandOverStep(w, f, k, z, state, v, result, l, c2);
        EndsAfter(w, f, c, c2, c2, 0, 0, 0, HandOver(w, l, c2.st));
      } else {
        var g := LSwitch(LEnd(LBlock(LBlock(o)), CondBr(ok, n, n + 1)), n + 1);
        PreparedKept(w, k, b, g, c, c2, state, v, result, l);
        ReraiseStep(w, f, k, g, c2);
        EndsAfter(w, f, c, c2, c2, 0, 0, 0, Reraise(w, c2.st));
      }
    } else {
      LandsEnds(w, f, k, b, o, c, d, fuel, r);
    }
  }

  lemma HoldsIn(b: Low, b1: Low, c: Config, r: Reg, v: Value)
    requires Holds(b, c, r, v) && b.g.nextReg <= b1.g.nextReg
    ensures Holds(b1, c, r, v)
  {
  }

  lemma ReraiseStep(w: World, f: seq<Block>, k: Ctx, g: Low, c: Config)
    requires !Closed(g) && At(c, g) && Ready(w, k, g, c)
    requires Ext(Blocks(FreeFrame(g, k)), f) && Ext(Blocks(RuntimeCall(FreeFrame(g, k), RERAISE, [])), f)
    ensures Reach(w, f, 0, Run(c), Done(Aborted, Reraise(w, c.st).st))
  {
    hide Ext, Reach, Names, RuntimeCall, FreeFrame;
    var d := FreeStep(w, f, k, g, c);
    var a := FreeFrame(g, k);
    var _ := RuntimeCallStep(w, f, a, RERAISE, [], d);
    assert ValuesOf(d.regs, []) == [];
    ReachTrans(w, f, 0, 0, Run(c), Run(d), Done(Aborted, Reraise(w, c.st).st));
  }

  // ---- The theorem -----------------------------------------------------------------------------------------------

  /** From where the wrapper's code starts, the machine ends as running the
      protected procedure does, through any number of RETRYs. */
  lemma WrapperPreservesMeaning(w: World, f: seq<Block>, k: Ctx, b: Low, p: Protected, state: Reg, v: Value, result: Option<Reg>, l: Option<Loc>, fuel: nat, c: Config)
    returns (d: Config)
    requires k.retry.None? && !Closed(b) && At(c, b) && Prepared(w, k, b, c, state, v, result, l)
    requires Fine(p.final, b, false) && (p.handler.Some? ==> Fine(p.handler.value, b, true))
    requires Ext(Blocks(Wrapper(b, k, p, state, result)), f)
    ensures Ends(w, f, c, d, fuel, RunProtected(w, p, v, l, fuel, c.st))
  {
    hide Ext, Reach, Names, Surrounded, ProtectHead, Wrapper, WfSs, Given, RunProtected;
    WrapperExt(b, k, p, state, result, f);
    HeadShape(b);
    ReachRefl(w, f, Run(c));
    AtSame(b, LBlock(b), c);
    var c1 := GotoStep(w, f, b.g.nextReg, LBlock(b), |Blocks(b)|, c, c);
    PreparedKept(w, k, b, b, c, c1, state, v, result, l);
    d := RoundsMeaning(w, f, k, b, p, state, v, result, l, fuel, c1);
    EndsAfter(w, f, c, c1, d, 0, fuel, fuel, RunProtected(w, p, v, l, fuel, c1.st));
  }
}
