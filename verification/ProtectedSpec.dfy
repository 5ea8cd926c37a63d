/** Procedures with an EXCEPT or FINALLY part: what running one means, and the
    wrapper the lowering builds around the outlined protected statements. */
module ProtectedSpec {
  import opened Ir
  import opened Machine
  import opened Source
  import opened Builder
  import opened LowerSpec

  /** The outlined protected statements (by name), the handler of an EXCEPT part,
      the statements of a FINALLY part. */
  datatype Protected = Protected(name: string, handler: Option<seq<Stmt>>, final: seq<Stmt>)

  // ---- Meaning -------------------------------------------------------------------------------

  /** Free the exception frame and hand over the result. */
  function HandOver(w: World, result: Option<Loc>, st: State): Res {
    var st1 := if w.frame.Some? then st.(trace := st.trace + [Event(FREE, [w.frame.value])]) else st;
    Res(Leaves(if result.Some? then Some(ReadCell(st1, result.value)) else None), st1)
  }

  function FinishUp(w: World, final: seq<Stmt>, result: Option<Loc>, fuel: nat, st: State): Res {
    var r := ExecAll(w, final, fuel, st);
    if r.o.Normal? then HandOver(w, result, r.st) else r
  }

  /** Free the exception frame and raise the exception again. */
  function Reraise(w: World, st: State): Res {
    var st1 := if w.frame.Some? then st.(trace := st.trace + [Event(FREE, [w.frame.value])]) else st;
    Res(Ended, st1.(trace := st1.trace + [Event(RERAISE, [])]))
  }

  /** `state` is what the outlined statements get; `result` is where they leave a
      function's result. */
  function RunProtected(w: World, p: Protected, state: Value, result: Option<Loc>, fuel: nat, st: State): Res
    decreases fuel
  {
    if fuel == 0 then Res(Timeout, st)
    else match Invoke(w, RUN_PROTECTED, [Code(p.name), state], st)
      case Gone(st1) => Res(Ended, st1)
      case Returned(raised, st1) =>
        if p.handler.Some? then
          if raised == 0 then FinishUp(w, p.final, result, fuel, st1)
          else
            var r := ExecAll(w, p.handler.value, fuel, st1);
            if r.o.Normal? then FinishUp(w, p.final, result, fuel, r.st.(trace := r.st.trace + [Event(HANDLED, [])]))
            else if r.o.Retried? then RunProtected(w, p, state, result, fuel - 1, r.st)
            else r
        else
          var r := ExecAll(w, p.final, fuel, st1);
          if !r.o.Normal? then r
          else if raised == 0 then HandOver(w, result, r.st)
          else Reraise(w, r.st)
  }

  // ---- Lowering ------------------------------------------------------------------------------

  function ProtectHead(b: Low): Low {
    LSwitch(LEnd(LBlock(b), Goto(|Blocks(b)|)), |Blocks(b)|)
  }

  /** Run the protected statements; did they end normally? */
  function ProtectRun(b: Low, name: string, state: Reg): (Low, Reg) {
    var n := b.g.nextReg;
    var b1 := Ins(Ins(b, Const(n, FuncRef(name))), Const(n + 1, FuncRef(RUN_PROTECTED)));
    var b2 := Ins(b1, Call(Some(n + 2), n + 1, [n, state]));
    (Ins(Ins(b2, Const(n + 3, IntC(0))), Binary(n + 4, Eq, n + 2, n + 3)), n + 4)
  }

  function ProtectReturn(b: Low, k: Ctx, result: Option<Reg>): Low {
    var b1 := FreeFrame(b, k);
    if result.Some? then LEnd(Ins(b1, Load(b1.g.nextReg, result.value)), Terminator.Return(Some(b1.g.nextReg)))
    else LEnd(b1, Terminator.Return(None))
  }

  function Last(b: Low, k: Ctx, final: seq<Stmt>, result: Option<Reg>): Low {
    var o := Statements(b, k, final);
    if Closed(o) then o else ProtectReturn(o, k, result)
  }

  /** Into the handler when the protected statements raised an exception. */
  function HandlerIn(b: Low, ok: Reg): Low {
    var n := |Blocks(b)|;
    LSwitch(LEnd(LBlock(LBlock(b)), CondBr(ok, n + 1, n)), n)
  }

  /** Behind the handler: the exception is handled, on in the join. */
  function HandlerOut(o: Low, join: BlockId): Low {
    LSwitch(if Closed(o) then o else LEnd(RuntimeCall(o, HANDLED, []), Goto(join)), join)
  }

  function Handled(b: Low, k: Ctx, p: Protected, ok: Reg, header: BlockId, result: Option<Reg>): Low
    requires p.handler.Some?
  {
    var o := Statements(HandlerIn(b, ok), k.(retry := Some(header)), p.handler.value);
    Last(HandlerOut(o, |Blocks(b)| + 1), k, p.final, result)
  }

  /** Block `n` for a normal end, `n + 1` to raise the exception again. */
  function ReraiseFork(o: Low, k: Ctx, ok: Reg): Low {
    var n := |Blocks(o)|;
    var b := LSwitch(LEnd(LBlock(LBlock(o)), CondBr(ok, n, n + 1)), n + 1);
    LSwitch(LEnd(RuntimeCall(FreeFrame(b, k), RERAISE, []), Unreachable), n)
  }

  function Finalized(b: Low, k: Ctx, p: Protected, ok: Reg, result: Option<Reg>): Low {
    var o := Statements(b, k, p.final);
    if Closed(o) then o else ProtectReturn(ReraiseFork(o, k, ok), k, result)
  }

  function Wrapper(b: Low, k: Ctx, p: Protected, state: Reg, result: Option<Reg>): Low {
    var (b1, ok) := ProtectRun(ProtectHead(b), p.name, state);
    if p.handler.Some? then Handled(b1, k, p, ok, |Blocks(b)|, result) else Finalized(b1, k, p, ok, result)
  }
}
