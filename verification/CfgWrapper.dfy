/** The wrapper around protected statements is a sound control-flow graph, too. */
module CfgWrapper {
  import opened Ir
  import opened Machine
  import opened Source
  import opened Builder
  import opened LowerSpec
  import opened LowerGrow
  import opened LowerLocals
  import opened Landing
  import opened CfgSound
  import opened CfgExpr
  import opened CfgStmt
  import opened CfgTheorem
  import opened ProtectedSpec
  import StmtMeaning

  lemma HeadGood(b: Low, k: Ctx, av: seq<set<Reg>>)
    requires Good(b, k, av)
    ensures var av1 := av + Rep(Here(b, av), 1);
            |av| == |Blocks(b)| && Good(ProtectHead(b), k, av1) && Here(ProtectHead(b), av1) == Here(b, av)
    ensures ProtectHead(b).locals == b.locals && ProtectHead(b).g.loops == b.g.loops
  {
    hide Good, Here, Rep;
    assert AddBlocks(b, 1) == LBlock(b) by { OneBlock(b); }
    StartSound(b, k, av, 1, ProtectHead(b));
  }

  lemma OneBlock(b: Low)
    ensures AddBlocks(b, 1) == LBlock(b)
  {
    assert AddBlocks(LBlock(b), 0) == LBlock(b);
  }

  lemma RunMakes(b: Low, av: seq<set<Reg>>, name: string, state: Reg)
    requires Open(b, av) && state in Here(b, av)
    ensures var (b1, ok) := ProtectRun(b, name, state);
            Makes(b, av, b1, av, ok) && Open(b1, av) && b1.locals == b.locals && b1.g.loops == b.g.loops
  {
    hide Open, Leads, Here, Ins;
    var n := b.g.nextReg;
    OpenLeads(b, av);
    var b1 := Ins(b, Const(n, FuncRef(name)));
    OneIns(b, av, b, Const(n, FuncRef(name)));
    var b2 := Ins(b1, Const(n + 1, FuncRef(RUN_PROTECTED)));
    OneIns(b, av, b1, Const(n + 1, FuncRef(RUN_PROTECTED)));
    HereStill(b, av, b1, b2, n);
    HereStill(b, av, b, b2, state);
    var b3 := Ins(b2, Call(Some(n + 2), n + 1, [n, state]));
    OneIns(b, av, b2, Call(Some(n + 2), n + 1, [n, state]));
    var b4 := Ins(b3, Const(n + 3, IntC(0)));
    OneIns(b, av, b3, Const(n + 3, IntC(0)));
    HereStill(b, av, b3, b4, n + 2);
    OneIns(b, av, b4, Binary(n + 4, Eq, n + 2, n + 3));
  }

  lemma OpenLeads(b: Low, av: seq<set<Reg>>)
    requires Open(b, av)
    ensures Leads(b, av, b, av)
  {
    LeadsRefl(b, av);
  }

  lemma OneIns(a: Low, av: seq<set<Reg>>, b: Low, i: Inst)
    requires Open(b, av) && Leads(a, av, b, av) && Uses(i) <= Here(b, av) && Def(i) == Some(b.g.nextReg)
    ensures var z := Ins(b, i);
            && Open(z, av) && Leads(a, av, z, av) && Leads(b, av, z, av) && b.g.nextReg in Here(z, av)
            && z.g.nextReg == b.g.nextReg + 1 && z.locals == b.locals && z.g.loops == b.g.loops
  {
    hide Open, Leads, Here, Uses;
    OpenIns(b, av, i);
    LeadsTrans(a, av, b, av, Ins(b, i), av);
  }

  lemma HereStill(a: Low, av: seq<set<Reg>>, b: Low, z: Low, r: Reg)
    requires Leads(b, av, z, av) && r in Here(b, av)
    ensures r in Here(z, av)
  {
  }

  // ---- The end of the procedure --------------------------------------------------------------

  lemma FrameLeads(b: Low, k: Ctx, av: seq<set<Reg>>)
    requires Good(b, k, av)
    ensures var z := FreeFrame(b, k); Leads(b, av, z, av) && Open(z, av) && Good(z, k, av) && z.locals == b.locals
    ensures GrowsLoops(b, FreeFrame(b, k)) && |Blocks(FreeFrame(b, k))| == |Blocks(b)| && FreeFrame(b, k).g.current == b.g.current
  {
    hide Sound, Here, Stored, RuntimeCall;
    LeadsRefl(b, av);
    GrowsRefl(b);
    if k.frame.Some? {
      RuntimeCallLeads(b, av, FREE, [k.frame.value]);
      GrowsRuntimeCall(b, FREE, [k.frame.value]);
    }
  }

  lemma ProtectReturnSound(b: Low, k: Ctx, av: seq<set<Reg>>, result: Option<Reg>)
    requires Good(b, k, av) && (result.Some? ==> result.value in Here(b, av))
    ensures Sound(ProtectReturn(b, k, result), av) && Closed(ProtectReturn(b, k, result))
  {
    hide Good, Leads, Here, Sound, FreeFrame, Ins;
    FrameLeads(b, k, av);
    var z := FreeFrame(b, k);
    if result.Some? {
      HereStill(b, av, b, z, result.value);
      var i := Load(z.g.nextReg, result.value);
      OneIns(b, av, z, i);
      EndsHere(Ins(z, i), av, Terminator.Return(Some(z.g.nextReg)));
    } else {
      EndsHere(z, av, Terminator.Return(None));
    }
  }

  lemma EndsHere(b: Low, av: seq<set<Reg>>, t: Terminator)
    requires Open(b, av) && t.Return? && TermUses(t) <= Here(b, av)
    ensures Sound(LEnd(b, t), av) && Closed(LEnd(b, t))
  {
    hide Sound, Here, Stored;
    SEnd(b, av, t);
  }

  /** The statements of a part of the wrapper, and what they leave. */
  lemma {:induction false} PartCarries(b: Low, k: Ctx, av: seq<set<Reg>>, ss: seq<Stmt>) returns (av1: seq<set<Reg>>)
    requires Good(b, k, av) && StmtMeaning.WfAll(ss, k, b)
    ensures var o := Statements(b, k, ss);
            Carries(b, av, o, av1) && GrowsLoops(b, o) && (!Closed(o) ==> Good(o, k, av1) && Here(b, av) <= Here(o, av1))
  {
    hide Sound, Here, Open, Around, Statements, WfSs, Closed, Grows;
    av1 := StatementsCarry(b, k, av, ss);
    var o := Statements(b, k, ss);
    GrowsStatements(b, k, ss);
    if !Closed(o) {
      SameLocalsAll(b, k, ss, b.locals.Keys, b.g.loops != [], k.retry.Some?);
      GoodCarried(b, k, av, o, av1);
    }
  }

  lemma LastSound(b: Low, k: Ctx, av: seq<set<Reg>>, final: seq<Stmt>, result: Option<Reg>) returns (av1: seq<set<Reg>>)
    requires Good(b, k, av) && StmtMeaning.WfAll(final, k, b) && (result.Some? ==> result.value in Here(b, av))
    ensures Sound(Last(b, k, final, result), av1) && av <= av1
  {
    hide Sound, Here, Good, Statements, StmtMeaning.WfAll, Closed, ProtectReturn;
    av1 := PartCarries(b, k, av, final);
    var o := Statements(b, k, final);
    if !Closed(o) {
      ProtectReturnSound(o, k, av1, result);
    }
  }

  // ---- Raising the exception again -----------------------------------------------------------

  /** Two new blocks, and on in one of them; the other stays reserved. */
  lemma ForkGood(b: Low, k: Ctx, av: seq<set<Reg>>, cond: Reg, first: bool)
    requires Good(b, k, av) && cond in Here(b, av)
    ensures var n := |Blocks(b)|;
            var a := Here(b, av);
            var t := if first then CondBr(cond, n + 1, n) else CondBr(cond, n, n + 1);
            var (id, other) := if first then (n, n + 1) else (n + 1, n);
            var z := LSwitch(LEnd(LBlock(LBlock(b)), t), id);
            && |av| == n && Good(z, k, av + [a] + [a]) && Here(z, av + [a] + [a]) == a && z.locals == b.locals && z.g.loops == b.g.loops
            && Reserved(z, other, other + 1)
  {
    hide Covered, DefinedOnce, Here, Stored, Closed;
    var n := |Blocks(b)|;
    var a := Here(b, av);
    var t := if first then CondBr(cond, n + 1, n) else CondBr(cond, n, n + 1);
    var id := if first then n else n + 1;
    var av1 := av + [a] + [a];
    ForkLeads(b, av, t);
    GFork(b, t);
    var f := LEnd(LBlock(LBlock(b)), t);
    assert av1[id] == a;
    SSwitch(f, av1, id);
    GoodAt(b, k, av, LSwitch(f, id), av1);
  }

  /** On in a reserved block that offers what `b` had. */
  lemma TakeGood(b: Low, k: Ctx, av: seq<set<Reg>>, o: Low, av1: seq<set<Reg>>, id: BlockId)
    requires Good(b, k, av) && Sound(o, av1) && av <= av1 && Reserved(o, id, id + 1) && id < |av1| && av1[id] == Here(b, av)
    requires o.locals == b.locals && o.g.loops == b.g.loops
    ensures Good(LSwitch(o, id), k, av1) && Here(LSwitch(o, id), av1) == Here(b, av)
  {
    hide Covered, DefinedOnce, Here, Stored, Closed;
    SSwitch(o, av1, id);
    GoodAt(b, k, av, LSwitch(o, id), av1);
  }

  lemma ReraiseSound(b: Low, k: Ctx, av: seq<set<Reg>>, ok: Reg) returns (av1: seq<set<Reg>>)
    requires Good(b, k, av) && ok in Here(b, av)
    ensures Good(ReraiseFork(b, k, ok), k, av1) && av <= av1 && Here(ReraiseFork(b, k, ok), av1) == Here(b, av)
  {
    hide Sound, Here, Good, FreeFrame, RuntimeCall, Reserved;
    var n := |Blocks(b)|;
    var a := Here(b, av);
    av1 := av + [a] + [a];
    ForkGood(b, k, av, ok, false);
    var z := LSwitch(LEnd(LBlock(LBlock(b)), CondBr(ok, n, n + 1)), n + 1);
    FrameLeads(z, k, av1);
    var y := FreeFrame(z, k);
    RuntimeCallLeads(y, av1, RERAISE, []);
    GrowsRuntimeCall(y, RERAISE, []);
    var x := RuntimeCall(y, RERAISE, []);
    Unended(x, av1);
    ReservedGrows(z, y, n, n + 1);
    ReservedGrows(y, x, n, n + 1);
    OpenIsSound(x, av1);
    assert av1[n] == a;
    TakeGood(b, k, av, x, av1, n);
  }

  lemma OpenIsSound(b: Low, av: seq<set<Reg>>)
    requires Open(b, av)
    ensures Sound(b, av)
  {
  }

  lemma FinalizedSound(b: Low, k: Ctx, av: seq<set<Reg>>, p: Protected, ok: Reg, result: Option<Reg>) returns (av1: seq<set<Reg>>)
    requires Good(b, k, av) && StmtMeaning.WfAll(p.final, k, b) && ok in Here(b, av) && (result.Some? ==> result.value in Here(b, av))
    ensures Sound(Finalized(b, k, p, ok, result), av1) && av <= av1
  {
    hide Sound, Here, Good, Statements, StmtMeaning.WfAll, Closed, ProtectReturn, ReraiseFork;
    av1 := PartCarries(b, k, av, p.final);
    var o := Statements(b, k, p.final);
    if !Closed(o) {
      av1 := ReraiseSound(o, k, av1, ok);
      ProtectReturnSound(ReraiseFork(o, k, ok), k, av1, result);
    }
  }

  // ---- The handler ---------------------------------------------------------------------------------

  lemma HandledJoin(o: Low, k: Ctx, av: seq<set<Reg>>, join: BlockId)
    requires Good(o, k, av) && join < |av| && av[join] <= Here(o, av)
    ensures Sound(LEnd(RuntimeCall(o, HANDLED, []), Goto(join)), av)
  {
    hide Sound, Here, Stored, RuntimeCall;
    RuntimeCallLeads(o, av, HANDLED, []);
    SEnd(RuntimeCall(o, HANDLED, []), av, Goto(join));
  }

  lemma GoodRetry(b: Low, k: Ctx, av: seq<set<Reg>>, header: BlockId)
    requires Good(b, k, av) && header < |av| && av[header] <= Here(b, av)
    ensures Good(b, k.(retry := Some(header)), av)
  {
    hide Open, Here;
  }

  lemma HandledSound(b: Low, k: Ctx, av: seq<set<Reg>>, p: Protected, ok: Reg, header: BlockId, result: Option<Reg>) returns (av1: seq<set<Reg>>)
    requires p.handler.Some? && Good(b, k, av) && header < |av| && av[header] <= Here(b, av) && b.g.loops == []
    requires StmtMeaning.WfAll(p.final, k, b) && StmtMeaning.WfAll(p.handler.value, k.(retry := Some(header)), b)
    requires ok in Here(b, av) && (result.Some? ==> result.value in Here(b, av))
    ensures Sound(Handled(b, k, p, ok, header, result), av1) && av <= av1
  {
    hide Sound, Here, Good, Statements, WfSs, Closed, ProtectReturn, RuntimeCall, Last, Reserved, Grows;
    var n := |Blocks(b)|;
    var a := Here(b, av);
    var aa := av + [a] + [a];
    var k1 := k.(retry := Some(header));
    ForkGood(b, k, av, ok, true);
    var h := HandlerIn(b, ok);
    assert aa[header] == av[header];
    GoodRetry(h, k, aa, header);
    av1 := PartCarries(h, k1, aa, p.handler.value);
    var o := Statements(h, k1, p.handler.value);
    assert av1[n + 1] == aa[n + 1] == a;
    ReservedGrows(h, o, n + 1, n + 2);
    SameLocalsAll(h, k1, p.handler.value, b.locals.Keys, false, true);
    JoinGood(b, k, av, k1, o, av1, n + 1);
    av1 := LastSound(HandlerOut(o, n + 1), k, av1, p.final, result);
  }

  lemma JoinGood(b: Low, k: Ctx, av: seq<set<Reg>>, k1: Ctx, o: Low, av1: seq<set<Reg>>, join: BlockId)
    requires Good(b, k, av) && Sound(o, av1) && av <= av1 && Reserved(o, join, join + 1) && join < |av1| && av1[join] == Here(b, av)
    requires o.locals == b.locals && o.g.loops == b.g.loops
    requires !Closed(o) ==> Good(o, k1, av1) && Here(b, av) <= Here(o, av1)
    ensures Good(HandlerOut(o, join), k, av1) && Here(HandlerOut(o, join), av1) == Here(b, av)
    ensures HandlerOut(o, join).locals == b.locals && HandlerOut(o, join).g.loops == b.g.loops
  {
    hide Sound, Here, Good, RuntimeCall, Reserved, Grows;
    if Closed(o) {
      TakeGood(b, k, av, o, av1, join);
    } else {
      HandledJoin(o, k1, av1, join);
      GrowsRuntimeCall(o, HANDLED, []);
      var x := RuntimeCall(o, HANDLED, []);
      ReservedGrows(o, x, join, join + 1);
      ReservedEnd(x, Goto(join), join, join + 1);
      TakeGood(b, k, av, LEnd(x, Goto(join)), av1, join);
    }
  }

  // ---- The wrapper ---------------------------------------------------------------------------------

  /** The function that sets up the frame is sound where the wrapper starts, and has at
      hand what the wrapper uses. */
  ghost predicate SetUp(b: Low, k: Ctx, av: seq<set<Reg>>, state: Reg, result: Option<Reg>) {
    Good(b, k, av) && k.retry.None? && b.g.loops == [] && state in Here(b, av) && (result.Some? ==> result.value in Here(b, av))
  }

  lemma WrapperSound(b: Low, k: Ctx, av: seq<set<Reg>>, p: Protected, state: Reg, result: Option<Reg>) returns (av1: seq<set<Reg>>)
    requires SetUp(b, k, av, state, result)
    requires WfSs(p.final, b.locals.Keys, false, false) && (p.handler.Some? ==> WfSs(p.handler.value, b.locals.Keys, false, true))
    ensures Sound(Wrapper(b, k, p, state, result), av1) && av <= av1
  {
    hide Sound, Here, Open, Around, WfSs, ProtectRun, ProtectHead, Handled, Finalized, Leads;
    HeadGood(b, k, av);
    var h := ProtectHead(b);
    var aa := av + Rep(Here(b, av), 1);
    RunMakes(h, aa, p.name, state);
    var (b1, ok) := ProtectRun(h, p.name, state);
    GoodRun(h, k, aa, b1);
    assert aa[|Blocks(b)|] == Here(b, av);
    if result.Some? {
      HereStill(h, aa, h, b1, result.value);
    }
    if p.handler.Some? {
      av1 := HandledSound(b1, k, aa, p, ok, |Blocks(b)|, result);
    } else {
      av1 := FinalizedSound(b1, k, aa, p, ok, result);
    }
  }

  lemma GoodRun(b: Low, k: Ctx, av: seq<set<Reg>>, b1: Low)
    requires Good(b, k, av) && Leads(b, av, b1, av) && Open(b1, av) && b1.g.loops == b.g.loops
    ensures Good(b1, k, av) && Here(b, av) <= Here(b1, av)
  {
    hide Open, Here, Sound;
  }

  /** In a function that ends in the wrapper of a protected procedure, jumps go to blocks
      that exist, no register is defined twice, and definitions come first. */
  lemma WrapperGraphIsSound(b: Low, k: Ctx, av: seq<set<Reg>>, p: Protected, state: Reg, result: Option<Reg>, f: seq<Block>, proper: bool)
    requires SetUp(b, k, av, state, result) && |av| >= 1 && av[ENTRY] == {}
    requires WfSs(p.final, b.locals.Keys, false, false) && (p.handler.Some? ==> WfSs(p.handler.value, b.locals.Keys, false, true))
    requires IsSealing(Blocks(Wrapper(b, k, p, state, result)), f, proper)
    ensures JumpsInside(f) && StaticSingleAssignment(f) && DefinitionsFirst(f)
  {
    hide Sound, WfSs, Wrapper, IsSealing, SetUp, JumpsInside, StaticSingleAssignment, DefinitionsFirst;
    var av1 := WrapperSound(b, k, av, p, state, result);
    SealedGraph(Wrapper(b, k, p, state, result), av1, f, proper);
  }
}
