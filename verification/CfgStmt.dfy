/** The code of statements keeps a function's control-flow graph sound. */
module CfgStmt {
  import opened Ir
  import opened Machine
  import opened Source
  import opened Builder
  import opened LowerSpec
  import opened LowerGrow
  import opened LowerLocals
  import opened Landing
  import opened LoopShape
  import opened CfgSound
  import opened CfgExpr
  import StmtMeaning

  /** With the registers `a` at hand, every way out of the statements can be taken. */
  ghost predicate Around(b: Low, k: Ctx, av: seq<set<Reg>>, a: set<Reg>) {
    && (k.frame.Some? ==> k.frame.value in a)
    && (k.resultSlot.Some? ==> k.resultSlot.value in a)
    && (k.retry.Some? ==> k.retry.value < |av| && av[k.retry.value] <= a)
    && (forall fr :: fr in b.g.loops ==> fr.exitBlock < |av| && av[fr.exitBlock] <= a)
  }

  ghost predicate Good(b: Low, k: Ctx, av: seq<set<Reg>>) {
    Open(b, av) && Around(b, k, av, Here(b, av))
  }

  /** Behind a statement: sound, and if it can be left at its end, nothing that was
      available is lost. */
  ghost predicate Carries(b: Low, av: seq<set<Reg>>, b1: Low, av1: seq<set<Reg>>) {
    Sound(b1, av1) && av <= av1 && (!Closed(b1) ==> Here(b, av) <= Here(b1, av1))
  }

  lemma LeadsCarries(b: Low, av: seq<set<Reg>>, b1: Low, av1: seq<set<Reg>>)
    requires Leads(b, av, b1, av1)
    ensures Carries(b, av, b1, av1)
  {
  }

  lemma GoodFlows(b: Low, k: Ctx, av: seq<set<Reg>>, b1: Low, av1: seq<set<Reg>>)
    requires Good(b, k, av) && Leads(b, av, b1, av1) && Flows(b, b1)
    ensures Good(b1, k, av1)
  {
    OpenFlows(b, av, b1, av1);
  }

  lemma GoodCarried(b: Low, k: Ctx, av: seq<set<Reg>>, b1: Low, av1: seq<set<Reg>>)
    requires Good(b, k, av) && Carries(b, av, b1, av1) && !Closed(b1) && b1.locals == b.locals && b1.g.loops == b.g.loops
    ensures Good(b1, k, av1)
  {
  }

  lemma CarriesTrans(a: Low, av: seq<set<Reg>>, b: Low, av1: seq<set<Reg>>, c: Low, av2: seq<set<Reg>>)
    requires Carries(a, av, b, av1) && !Closed(b) && Carries(b, av1, c, av2)
    ensures Carries(a, av, c, av2)
  {
  }

  /** On in an empty block where at least what `b` had is available. */
  lemma GoodAt(b: Low, k: Ctx, av: seq<set<Reg>>, z: Low, av1: seq<set<Reg>>)
    requires Good(b, k, av) && Sound(z, av1) && av <= av1 && z.g.current < |av1| && Blocks(z)[z.g.current] == EMPTY_BLOCK
    requires Here(b, av) <= av1[z.g.current] && z.locals == b.locals
    requires forall fr :: fr in z.g.loops ==> fr in b.g.loops || (fr.exitBlock < |av1| && av1[fr.exitBlock] <= av1[z.g.current])
    ensures Good(z, k, av1) && Here(z, av1) == av1[z.g.current] && Leads(b, av, z, av1)
  {
  }

  /** Soundness is about the blocks only. */
  lemma SoundSame(b: Low, z: Low, av: seq<set<Reg>>)
    requires Sound(b, av) && Blocks(z) == Blocks(b) && b.g.nextReg <= z.g.nextReg
    ensures Sound(z, av)
  {
  }

  /** Jumping on to `target`, unless the block has an end already. */
  lemma FallSound(o: Low, av: seq<set<Reg>>, target: BlockId)
    requires Sound(o, av) && target < |av| && (!Closed(o) ==> av[target] <= Here(o, av))
    ensures Sound(JumpTo(o, target), av)
  {
    if !Closed(o) {
      SEnd(o, av, Goto(target));
    }
  }

  function Rep(a: set<Reg>, n: nat): (s: seq<set<Reg>>)
    ensures |s| == n && forall i :: 0 <= i < n ==> s[i] == a
  {
    seq(n, _ => a)
  }

  lemma {:induction false} BlocksSound(b: Low, av: seq<set<Reg>>, n: nat, a: set<Reg>)
    requires Sound(b, av)
    ensures Sound(AddBlocks(b, n), av + Rep(a, n)) && Here(AddBlocks(b, n), av + Rep(a, n)) == Here(b, av)
    ensures Closed(AddBlocks(b, n)) <==> Closed(b)
    decreases n
  {
    if n == 0 {
      assert av + Rep(a, 0) == av;
    } else {
      SBlock(b, av, a);
      BlocksSound(LBlock(b), av + [a], n - 1, a);
      assert av + [a] + Rep(a, n - 1) == av + Rep(a, n);
    }
  }

  // ---- Simple statements ----------------------------------------------------------------------

  lemma {:induction false} StatementsCarry(b: Low, k: Ctx, av: seq<set<Reg>>, ss: seq<Stmt>) returns (av1: seq<set<Reg>>)
    requires Good(b, k, av) && StmtMeaning.WfAll(ss, k, b)
    ensures Carries(b, av, Statements(b, k, ss), av1)
    decreases ss, 0
  {
    hide Sound, Here, Closed, Statement, WfS;
    if ss == [] {
      av1 := av;
    } else {
      var b1 := Statement(b, k, ss[0]);
      av1 := StatementCarries(b, k, av, ss[0]);
      if !Closed(b1) {
        SameLocals(b, k, ss[0], b.locals.Keys, b.g.loops != [], k.retry.Some?);
        GrowsStatement(b, k, ss[0]);
        GoodCarried(b, k, av, b1, av1);
        var aa := av1;
        av1 := StatementsCarry(b1, k, aa, ss[1..]);
        CarriesTrans(b, av, b1, aa, Statements(b1, k, ss[1..]), av1);
      }
    }
  }

  lemma {:induction false} StatementCarries(b: Low, k: Ctx, av: seq<set<Reg>>, s: Stmt) returns (av1: seq<set<Reg>>)
    requires Good(b, k, av) && StmtMeaning.Wf(s, k, b)
    ensures Carries(b, av, Statement(b, k, s), av1)
    decreases s, 4
  {
    hide Good, Carries, WfS, IfStatement, WhileStatement, RepeatStatement, ForStatement, LoopStatement, CaseStatement;
    match s
    case If(_, _) => av1 := IfCarries(b, k, av, s);
    case While(_, _) => av1 := WhileCarries(b, k, av, s);
    case Repeat(_, _) => av1 := RepeatCarries(b, k, av, s);
    case For(_, _, _, _, _) => av1 := ForCarries(b, k, av, s);
    case Loop(_) => av1 := LoopCarries(b, k, av, s);
    case Case(_, _, _, _) => av1 := CaseCarries(b, k, av, s);
    case _ => av1 := PlainCarries(b, k, av, s);
  }

  lemma PlainCarries(b: Low, k: Ctx, av: seq<set<Reg>>, s: Stmt) returns (av1: seq<set<Reg>>)
    requires !s.If? && !s.While? && !s.Repeat? && !s.For? && !s.Loop? && !s.Case?
    requires Good(b, k, av) && StmtMeaning.Wf(s, k, b)
    ensures Carries(b, av, Statement(b, k, s), av1)
  {
    hide Sound, Here, Closed, Stored, Assignment, Increment, Assertion, HaltStatement, ReturnStatement, Expression, RuntimeCall, WfE, WfD;
    av1 := av;
    match s
    case Empty =>
    case Assign(t, e) => av1 := AssignmentCarries(b, av, t, e);
    case CallS(fn, args) =>
      assert WfE(CallE(fn, args)) by { CallWf(fn, args); }
      av1 := ExpressionLeads(b, av, CallE(fn, args));
    case IncDec(t, amount, up) => av1 := IncrementCarries(b, av, t, amount, up);
    case Assert(e) => av1 := AssertionCarries(b, av, e);
    case Halt(code) => av1 := HaltCarries(b, av, code);
    case Exit => ExitCarries(b, k, av);
    case Return(val) => av1 := ReturnCarries(b, k, av, val);
    case Retry => RetryCarries(b, k, av);
  }

  lemma CallWf(fn: string, args: seq<Arg>)
    requires forall a :: a in args ==> WfA(a)
    ensures WfE(CallE(fn, args))
  {
  }

  lemma AssignmentCarries(b: Low, av: seq<set<Reg>>, d: Designator, e: Expr) returns (av1: seq<set<Reg>>)
    requires Open(b, av) && WfD(d) && WfE(e)
    ensures Leads(b, av, Assignment(b, d, e), av1)
  {
    hide Sound, Here, Closed, Stored, Expression, Address, WfE, WfD;
    var (b1, v) := Expression(b, e);
    var aa := ExpressionLeads(b, av, e);
    GrowsExpression(b, e);
    OpenFlows(b, av, b1, aa);
    var (b2, p) := Address(b1, d);
    av1 := AddressLeads(b1, aa, d);
    GrowsAddress(b1, d);
    OpenFlows(b1, aa, b2, av1);
    StillHere(b1, aa, b2, av1, v);
    OpenStore(b2, av1, p, v);
    LeadsTrans(b, av, b1, aa, b2, av1);
    LeadsTrans(b, av, b2, av1, LPush(b2, Store(p, v)), av1);
  }

  lemma IncrementCarries(b: Low, av: seq<set<Reg>>, d: Designator, amount: Option<Expr>, up: bool) returns (av1: seq<set<Reg>>)
    requires Open(b, av) && WfD(d) && (amount.Some? ==> WfE(amount.value))
    ensures Leads(b, av, Increment(b, d, amount, up), av1)
  {
    hide Sound, Here, Closed, Stored, ExpressionOr, Address, WfE, WfD, Ins;
    var (b1, p) := Address(b, d);
    var aa := AddressLeads(b, av, d);
    GrowsAddress(b, d);
    var cur := b1.g.nextReg;
    var i := Load(cur, p);
    ThenMakes(b, av, b1, aa, i, p, p);
    var b1' := Ins(b1, i);
    var (b2, delta) := ExpressionOr(b1', amount, 1);
    av1 := ExpressionOrLeads(b1', aa, amount, 1);
    GrowsExpressionOr(b1', amount, 1);
    OpenFlows(b1', aa, b2, av1);
    StillHere(b1', aa, b2, av1, cur);
    OpenFlows(b, av, b1, aa);
    OpenIns(b1, aa, i);
    StillHere(b1, aa, b1', aa, p);
    StillHere(b1', aa, b2, av1, p);
    var j := Binary(b2.g.nextReg, if up then Add else Sub, cur, delta);
    OpenIns(b2, av1, j);
    StillHere(b2, av1, Ins(b2, j), av1, p);
    OpenStore(Ins(b2, j), av1, p, b2.g.nextReg);
    LeadsTrans(b, av, b1', aa, b2, av1);
    LeadsTrans(b, av, b2, av1, Ins(b2, j), av1);
    LeadsTrans(b, av, Ins(b2, j), av1, LPush(Ins(b2, j), Store(p, b2.g.nextReg)), av1);
  }

  lemma AssertionCarries(b: Low, av: seq<set<Reg>>, e: Expr) returns (av1: seq<set<Reg>>)
    requires Open(b, av) && WfE(e)
    ensures Leads(b, av, Assertion(b, e), av1)
  {
    hide Sound, Here, Closed, Stored, Expression, WfE, AssertFailure, Ext;
    var (b1, v) := Expression(b, e);
    var aa := ExpressionLeads(b, av, e);
    GrowsExpression(b, e);
    OpenFlows(b, av, b1, aa);
    var n := |Blocks(b1)|;
    var t := CondBr(v, n + 1, n);
    ForkLeads(b1, aa, t);
    var a := Here(b1, aa);
    av1 := aa + [a] + [a];
    var f := LEnd(LBlock(LBlock(b1)), t);
    OpenSwitch(f, av1, n, b1, aa);
    var g := LSwitch(f, n);
    FailureSound(g, av1);
    GrowsAssertFailure(g);
    Untouched(g, AssertFailure(g), n + 1);
    GrowsAssertion(b, e);
    SSwitch(AssertFailure(g), av1, n + 1);
  }

  lemma FailureSound(b: Low, av: seq<set<Reg>>)
    requires Open(b, av)
    ensures Sound(AssertFailure(b), av)
  {
    hide Sound, Here, Closed, Stored, Ins, RuntimeCall;
    var msg := b.g.nextReg;
    var i := Const(msg, StrC(""));
    var j := Const(msg + 1, IntC(0));
    OpenIns(b, av, i);
    OpenIns(Ins(b, i), av, j);
    var b1 := Ins(Ins(b, i), j);
    StillHere(Ins(b, i), av, b1, av, msg);
    RuntimeCallLeads(b1, av, ASSERT_FAILED, [msg, msg + 1]);
    Unended(RuntimeCall(b1, ASSERT_FAILED, [msg, msg + 1]), av);
  }

  lemma HaltCarries(b: Low, av: seq<set<Reg>>, code: Option<Expr>) returns (av1: seq<set<Reg>>)
    requires Open(b, av) && (code.Some? ==> WfE(code.value))
    ensures Leads(b, av, HaltStatement(b, code), av1)
  {
    hide Closed, Stored, ExpressionOr, WfE, RuntimeCall, Covered, DefinedOnce;
    var (b1, c) := ExpressionOr(b, code, 1);
    var aa := ExpressionOrLeads(b, av, code, 1);
    GrowsExpressionOr(b, code, 1);
    OpenFlows(b, av, b1, aa);
    RuntimeCallLeads(b1, aa, HALT, [c]);
    var b2 := RuntimeCall(b1, HALT, [c]);
    Unended(b2, aa);
    var a := Here(b, av);
    SBlock(b2, aa, a);
    CoveredLength(Blocks(b2), aa);
    av1 := aa + [a];
    SSwitch(LBlock(b2), av1, |Blocks(b2)|);
    LeadsTrans(b, av, b1, aa, b2, aa);
  }

  lemma ExitCarries(b: Low, k: Ctx, av: seq<set<Reg>>)
    requires Good(b, k, av) && b.g.loops != []
    ensures Carries(b, av, LEnd(b, Goto(b.g.loops[|b.g.loops| - 1].exitBlock)), av)
  {
    var fr := b.g.loops[|b.g.loops| - 1];
    assert fr in b.g.loops;
    SEnd(b, av, Goto(fr.exitBlock));
  }

  lemma RetryCarries(b: Low, k: Ctx, av: seq<set<Reg>>)
    requires Good(b, k, av) && k.retry.Some?
    ensures Carries(b, av, LEnd(RuntimeCall(b, HANDLED, []), Goto(k.retry.value)), av)
  {
    hide Sound, Here, Stored, RuntimeCall;
    RuntimeCallLeads(b, av, HANDLED, []);
    var b1 := RuntimeCall(b, HANDLED, []);
    SEnd(b1, av, Goto(k.retry.value));
  }

  lemma ReturnCarries(b: Low, k: Ctx, av: seq<set<Reg>>, val: Option<Expr>) returns (av1: seq<set<Reg>>)
    requires Good(b, k, av) && (val.Some? ==> WfE(val.value))
    ensures Carries(b, av, ReturnStatement(b, k, val), av1)
  {
    hide Sound, Here, Closed, Stored, Expression, Leave, WfE;
    av1 := av;
    if val.None? {
      LeaveSound(b, k, av, None);
    } else {
      var (b1, v) := Expression(b, val.value);
      av1 := ExpressionLeads(b, av, val.value);
      GrowsExpression(b, val.value);
      GoodFlows(b, k, av, b1, av1);
      LeaveSound(b1, k, av1, Some(v));
    }
  }

  lemma LeaveSound(b: Low, k: Ctx, av: seq<set<Reg>>, v: Option<Reg>)
    requires Good(b, k, av) && (v.Some? ==> v.value in Here(b, av))
    ensures Sound(Leave(b, k, v), av) && Closed(Leave(b, k, v))
  {
    hide Sound, Here, Stored, RuntimeCall;
    LeadsRefl(b, av);
    var b1 := FreeFrame(b, k);
    if k.frame.Some? {
      RuntimeCallLeads(b, av, FREE, [k.frame.value]);
    }
    if k.resultSlot.None? {
      if v.Some? {
        StillHere(b, av, b1, av, v.value);
      }
      SEnd(b1, av, Terminator.Return(v));
    } else if v.None? {
      SEnd(b1, av, Terminator.Return(None));
    } else {
      StillHere(b, av, b1, av, v.value);
      StillHere(b, av, b1, av, k.resultSlot.value);
      OpenStore(b1, av, k.resultSlot.value, v.value);
      SEnd(LPush(b1, Store(k.resultSlot.value, v.value)), av, Terminator.Return(None));
    }
  }

  // ---- Loops -------------------------------------------------------------------------------------

  /** New blocks for a loop, and the jump to the first of them. */
  lemma StartSound(b: Low, k: Ctx, av: seq<set<Reg>>, m: nat, h: Low)
    requires Good(b, k, av) && m >= 1 && Blocks(h) == Blocks(LEnd(AddBlocks(b, m), Goto(|Blocks(b)|)))
    requires h.g.current == |Blocks(b)| < |Blocks(h)| && Blocks(h)[|Blocks(b)|] == EMPTY_BLOCK && h.locals == b.locals && h.g.nextReg == b.g.nextReg
    requires forall fr :: fr in h.g.loops ==> fr in b.g.loops || |Blocks(b)| <= fr.exitBlock < |Blocks(b)| + m
    ensures var a := Here(b, av); var av1 := av + Rep(a, m);
            |av| == |Blocks(b)| && Good(h, k, av1) && Here(h, av1) == a
  {
    hide Covered, DefinedOnce, Here, Closed, Stored, AddBlocks;
    var n := |Blocks(b)|;
    var a := Here(b, av);
    var av1 := av + Rep(a, m);
    CoveredLength(Blocks(b), av);
    BlocksSound(b, av, m, a);
    GrowsAddBlocks(b, m);
    SEnd(AddBlocks(b, m), av1, Goto(n));
    SoundSame(LEnd(AddBlocks(b, m), Goto(n)), h, av1);
    GoodAt(b, k, av, h, av1);
  }

  /** Into a loop body behind the loop's test `t`. */
  lemma BodySound(h: Low, k: Ctx, av: seq<set<Reg>>, b1: Low, av1: seq<set<Reg>>, t: Terminator, i: Low)
    requires Good(h, k, av) && Leads(h, av, b1, av1) && TermOk(av1, Here(b1, av1), t) && Blocks(i) == Blocks(LEnd(b1, t))
    requires i.g.current < |av| && Blocks(i)[i.g.current] == EMPTY_BLOCK && i.locals == h.locals && i.g.nextReg == b1.g.nextReg
    requires Here(h, av) <= av[i.g.current]
    requires forall fr :: fr in i.g.loops ==> fr in h.g.loops || (fr.exitBlock < |av| && av[fr.exitBlock] <= av[i.g.current])
    ensures Good(i, k, av1) && Here(i, av1) == av[i.g.current]
  {
    hide Covered, DefinedOnce, Here, Stored;
    SEnd(b1, av1, t);
    SoundSame(LEnd(b1, t), i, av1);
    GoodAt(h, k, av, i, av1);
  }

  lemma {:induction false} WhileCarries(b: Low, k: Ctx, av: seq<set<Reg>>, s: Stmt) returns (av1: seq<set<Reg>>)
    requires s.While? && Good(b, k, av) && StmtMeaning.Wf(s, k, b)
    ensures Carries(b, av, WhileStatement(b, k, s), av1)
    decreases s, 3
  {
    hide Sound, Here, Closed, Open, Around, Statements, Expression, WhileHead, WhileIn, LoopEnd, WfE, WfSs, Ext;
    var n := |Blocks(b)|;
    var a := Here(b, av);
    WhileShape(b, s.cond);
    var h := WhileHead(b);
    Three(b);
    assert Here(b, av) == a;
    StartSound(b, k, av, 3, h);
    var aa := av + Rep(a, 3);
    var (t, c) := Expression(h, s.cond);
    assert Open(h, aa);
    var ab := ExpressionLeads(h, aa, s.cond);
    var i := WhileIn(b, s.cond);
    assert aa[n] == a && aa[n + 1] == a && aa[n + 2] == a;
    TestOk(h, aa, t, ab, c, n + 1, n + 2);
    BodySound(h, k, aa, t, ab, CondBr(c, n + 1, n + 2), i);
    av1 := StatementsCarry(i, k, ab, s.body);
    var o := Statements(i, k, s.body);
    GrowsStatements(i, k, s.body);
    ReservedGrows(i, o, n + 2, n + 3);
    EndCarries(b, k, av, aa, i, ab, o, av1, n, n + 2);
  }

  lemma Three(b: Low)
    ensures AddBlocks(b, 2) == LBlock(LBlock(b))
    ensures AddBlocks(b, 3) == LBlock(LBlock(LBlock(b)))
    ensures AddBlocks(b, 4) == LBlock(LBlock(LBlock(LBlock(b))))
  {
    assert AddBlocks(LBlock(LBlock(b)), 0) == LBlock(LBlock(b));
    assert AddBlocks(LBlock(LBlock(LBlock(b))), 0) == LBlock(LBlock(LBlock(b)));
    assert AddBlocks(LBlock(LBlock(b)), 2) == LBlock(LBlock(LBlock(LBlock(b))));
  }

  /** A test whose two ways out need no more than what was there before it. */
  lemma TestOk(h: Low, av: seq<set<Reg>>, t: Low, av1: seq<set<Reg>>, c: Reg, x: BlockId, y: BlockId)
    requires Makes(h, av, t, av1, c) && x < |av| && y < |av| && av[x] <= Here(h, av) && av[y] <= Here(h, av)
    ensures TermOk(av1, Here(t, av1), CondBr(c, x, y))
  {
  }

  /** The end of a loop: back to `back`, on in `exit`. */
  lemma EndCarries(b: Low, k: Ctx, av: seq<set<Reg>>, aa: seq<set<Reg>>, i: Low, ab: seq<set<Reg>>, o: Low, av1: seq<set<Reg>>, back: BlockId, exit: BlockId)
    requires av <= aa <= ab && Carries(i, ab, o, av1) && Here(i, ab) == Here(b, av) && Reserved(o, exit, exit + 1)
    requires back < |aa| && exit < |aa| && aa[back] == Here(b, av) && aa[exit] == Here(b, av)
    ensures Carries(b, av, LoopEnd(o, back, exit), av1)
    ensures Sound(LoopEnd(o, back, exit), av1) && LoopEnd(o, back, exit).g.current == exit && Here(LoopEnd(o, back, exit), av1) == Here(b, av)
    ensures Blocks(LoopEnd(o, back, exit))[exit] == EMPTY_BLOCK && !Closed(LoopEnd(o, back, exit))
  {
    hide Covered, DefinedOnce, Avail;
    LoopEndShape(o, back, exit);
    SoundSame(o, LLeave(o), av1);
    FallSound(LLeave(o), av1, back);
    SSwitch(JumpTo(LLeave(o), back), av1, exit);
  }

  lemma {:induction false} LoopCarries(b: Low, k: Ctx, av: seq<set<Reg>>, s: Stmt) returns (av1: seq<set<Reg>>)
    requires s.Loop? && Good(b, k, av) && StmtMeaning.Wf(s, k, b)
    ensures Carries(b, av, LoopStatement(b, k, s), av1)
    decreases s, 3
  {
    hide Sound, Here, Closed, Open, Around, Statements, LoopTop, LoopEnd, WfSs, Ext;
    var n := |Blocks(b)|;
    var a := Here(b, av);
    TopShape(b);
    var i := LoopTop(b);
    Three(b);
    StartSound(b, k, av, 2, i);
    var aa := av + Rep(a, 2);
    av1 := StatementsCarry(i, k, aa, s.body);
    var o := Statements(i, k, s.body);
    GrowsStatements(i, k, s.body);
    ReservedGrows(i, o, n + 1, n + 2);
    EndCarries(b, k, av, aa, i, aa, o, av1, n, n + 1);
  }

  lemma {:induction false} RepeatCarries(b: Low, k: Ctx, av: seq<set<Reg>>, s: Stmt) returns (av1: seq<set<Reg>>)
    requires s.Repeat? && Good(b, k, av) && StmtMeaning.Wf(s, k, b)
    ensures Carries(b, av, RepeatStatement(b, k, s), av1)
    decreases s, 3
  {
    hide Sound, Here, Open, Around, Statements, LoopTop, UntilTest, WfE, WfSs, Ext;
    var n := |Blocks(b)|;
    var a := Here(b, av);
    TopShape(b);
    var i := LoopTop(b);
    Three(b);
    StartSound(b, k, av, 2, i);
    var aa := av + Rep(a, 2);
    var ab := StatementsCarry(i, k, aa, s.body);
    var o := Statements(i, k, s.body);
    GrowsStatements(i, k, s.body);
    SameLocalsAll(i, k, s.body, b.locals.Keys, true, k.retry.Some?);
    ReservedGrows(i, o, n + 1, n + 2);
    ReservedEnd(o, Unreachable, n + 1, n + 2);
    av1 := UntilCarries(b, av, aa, i, o, ab, s.cond, n);
  }

  lemma UntilCarries(b: Low, av: seq<set<Reg>>, aa: seq<set<Reg>>, i: Low, o: Low, ab: seq<set<Reg>>, cond: Expr, n: BlockId) returns (av1: seq<set<Reg>>)
    requires av <= aa && Open(i, aa) && Carries(i, aa, o, ab) && Here(i, aa) == Here(b, av) && WfE(cond) && o.locals == i.locals
    requires n + 1 < |aa| && aa[n] == Here(b, av) && aa[n + 1] == Here(b, av) && Reserved(LLeave(o), n + 1, n + 2)
    ensures Carries(b, av, UntilTest(LLeave(o), cond, n), av1)
  {
    hide Covered, DefinedOnce, Avail, Expression, Ext, WfE;
    var p := LLeave(o);
    SoundSame(o, p, ab);
    av1 := ab;
    if Closed(p) {
      ReservedTake(p, n + 1, n + 1, n + 2);
      SSwitch(p, ab, n + 1);
    } else {
      var (t, c) := Expression(p, cond);
      av1 := ExpressionLeads(p, ab, cond);
      GrowsExpression(p, cond);
      TestOk(p, ab, t, av1, c, n + 1, n);
      SEnd(t, av1, CondBr(c, n + 1, n));
      ReservedGrows(p, t, n + 1, n + 2);
      ReservedEnd(t, CondBr(c, n + 1, n), n + 1, n + 2);
      ReservedTake(LEnd(t, CondBr(c, n + 1, n)), n + 1, n + 1, n + 2);
      SSwitch(LEnd(t, CondBr(c, n + 1, n)), av1, n + 1);
    }
  }

  // ---- FOR ------------------------------------------------------------------------------------------

  ghost predicate RegsHere(r: ForRegs, a: set<Reg>) {
    r.ptr in a && r.last in a && r.stride in a && r.zero in a && r.nonneg in a
  }

  lemma SetupLeads(b: Low, av: seq<set<Reg>>, s: Stmt) returns (av1: seq<set<Reg>>)
    requires s.For? && s.x in b.locals && WfE(s.from) && WfE(s.to) && (s.step.Some? ==> WfE(s.step.value)) && Open(b, av)
    ensures Leads(b, av, ForSetup(b, s).0, av1) && RegsHere(ForSetup(b, s).1, Here(ForSetup(b, s).0, av1))
  {
    hide Sound, Here, Closed, Stored, Expression, ExpressionOr, NamePtr, Ins, WfE;
    var (b1, ptr) := NamePtr(b, s.x);
    NameLeads(b, av, s.x);
    GrowsName(b, s.x);
    OpenFlows(b, av, b1, av);
    var (b2, v) := Expression(b1, s.from);
    var aa := ExpressionLeads(b1, av, s.from);
    GrowsExpression(b1, s.from);
    OpenFlows(b1, av, b2, aa);
    StillHere(b1, av, b2, aa, ptr);
    OpenStore(b2, aa, ptr, v);
    var b2' := LPush(b2, Store(ptr, v));
    StillHere(b2, aa, b2', aa, ptr);
    var (b3, last) := Expression(b2', s.to);
    var ab := ExpressionLeads(b2', aa, s.to);
    GrowsExpression(b2', s.to);
    OpenFlows(b2', aa, b3, ab);
    StillHere(b2', aa, b3, ab, ptr);
    var (b4, stride) := ExpressionOr(b3, s.step, 1);
    av1 := ExpressionOrLeads(b3, ab, s.step, 1);
    GrowsExpressionOr(b3, s.step, 1);
    OpenFlows(b3, ab, b4, av1);
    StillHere(b3, ab, b4, av1, ptr);
    StillHere(b3, ab, b4, av1, last);
    LeadsTrans(b, av, b1, av, b2, aa);
    LeadsTrans(b, av, b2, aa, b2', aa);
    LeadsTrans(b, av, b2', aa, b3, ab);
    LeadsTrans(b, av, b3, ab, b4, av1);
    SignLeads(b4, av1, ptr, last, stride);
    var zero := b4.g.nextReg;
    LeadsTrans(b, av, b4, av1, Ins(Ins(b4, Const(zero, IntC(0))), Binary(zero + 1, Ge, stride, zero)), av1);
  }

  lemma SignLeads(b: Low, av: seq<set<Reg>>, ptr: Reg, last: Reg, stride: Reg)
    requires Open(b, av) && ptr in Here(b, av) && last in Here(b, av) && stride in Here(b, av)
    ensures var zero := b.g.nextReg;
            var z := Ins(Ins(b, Const(zero, IntC(0))), Binary(zero + 1, Ge, stride, zero));
            Leads(b, av, z, av) && RegsHere(ForRegs(ptr, last, stride, zero, zero + 1), Here(z, av))
  {
    hide Sound, Here, Closed, Stored, Ins;
    var zero := b.g.nextReg;
    var i := Const(zero, IntC(0));
    var j := Binary(zero + 1, Ge, stride, zero);
    OpenIns(b, av, i);
    OpenIns(Ins(b, i), av, j);
    LeadsTrans(b, av, Ins(b, i), av, Ins(Ins(b, i), j), av);
  }

  /** One more operation on registers that are there. */
  lemma OneMore(b: Low, av: seq<set<Reg>>, z: Low, i: Inst, r: ForRegs)
    requires Open(b, av) && Leads(b, av, z, av) && Open(z, av) && RegsHere(r, Here(z, av)) && Uses(i) <= Here(z, av) && Def(i) == Some(z.g.nextReg)
    ensures var y := Ins(z, i); Leads(b, av, y, av) && Open(y, av) && RegsHere(r, Here(y, av)) && z.g.nextReg in Here(y, av)
    ensures Here(z, av) <= Here(Ins(z, i), av) && Ins(z, i).g.nextReg == z.g.nextReg + 1
  {
    hide Sound, Here, Closed, Stored, Ins;
    OpenIns(z, av, i);
    LeadsTrans(b, av, z, av, Ins(z, i), av);
  }

  lemma HeaderLeads(b: Low, av: seq<set<Reg>>, r: ForRegs)
    requires Open(b, av) && RegsHere(r, Here(b, av))
    ensures Makes(b, av, ForHeader(b, r).0, av, ForHeader(b, r).1)
  {
    hide Sound, Here, Closed, Open, Ins, RegsHere, Leads;
    RegsThere(r, Here(b, av));
    LeadsOpen(b, av);
    var n := b.g.nextReg;
    var b1 := Ins(b, Load(n, r.ptr));
    var b2 := Ins(b1, Binary(n + 1, Le, n, r.last));
    var b3 := Ins(b2, Binary(n + 2, Ge, n, r.last));
    var b4 := Ins(b3, Unary(n + 3, UnaryOp.Not, r.nonneg));
    var b5 := Ins(b4, Binary(n + 4, And, r.nonneg, n + 1));
    var b6 := Ins(b5, Binary(n + 5, And, n + 3, n + 2));
    OneMore(b, av, b, Load(n, r.ptr), r);
    OneMore(b, av, b1, Binary(n + 1, Le, n, r.last), r);
    OneMore(b, av, b2, Binary(n + 2, Ge, n, r.last), r);
    OneMore(b, av, b3, Unary(n + 3, UnaryOp.Not, r.nonneg), r);
    OneMore(b, av, b4, Binary(n + 4, And, r.nonneg, n + 1), r);
    OneMore(b, av, b5, Binary(n + 5, And, n + 3, n + 2), r);
    OneMore(b, av, b6, Binary(n + 6, Or, n + 4, n + 5), r);
  }

  lemma RegsThere(r: ForRegs, a: set<Reg>)
    requires RegsHere(r, a)
    ensures r.ptr in a && r.last in a && r.stride in a && r.zero in a && r.nonneg in a
  {
  }

  lemma LeadsOpen(b: Low, av: seq<set<Reg>>)
    requires Open(b, av)
    ensures Leads(b, av, b, av)
  {
  }

  lemma RoomLeads(b: Low, av: seq<set<Reg>>, r: ForRegs)
    requires Open(b, av) && RegsHere(r, Here(b, av))
    ensures var (z, cur, fits) := ForRoom(b, r); Leads(b, av, z, av) && RegsHere(r, Here(z, av)) && cur in Here(z, av) && fits in Here(z, av) && Open(z, av)
  {
    hide Sound, Here, Closed, Open, Ins, RegsHere, Leads;
    RegsThere(r, Here(b, av));
    LeadsOpen(b, av);
    var n := b.g.nextReg;
    var b1 := Ins(b, Load(n, r.ptr));
    var b2 := Ins(b1, Binary(n + 1, Sub, r.last, n));
    var b3 := Ins(b2, Binary(n + 2, Sub, n, r.last));
    var b4 := Ins(b3, Binary(n + 3, Sub, r.zero, r.stride));
    var b5 := Ins(b4, Unary(n + 4, UnaryOp.Not, r.nonneg));
    var b6 := Ins(b5, Binary(n + 5, Ge, n + 1, r.stride));
    var b7 := Ins(b6, Binary(n + 6, And, r.nonneg, n + 5));
    var b8 := Ins(b7, Binary(n + 7, Ge, n + 2, n + 3));
    var b9 := Ins(b8, Binary(n + 8, And, n + 4, n + 7));
    OneMore(b, av, b, Load(n, r.ptr), r);
    OneMore(b, av, b1, Binary(n + 1, Sub, r.last, n), r);
    OneMore(b, av, b2, Binary(n + 2, Sub, n, r.last), r);
    OneMore(b, av, b3, Binary(n + 3, Sub, r.zero, r.stride), r);
    OneMore(b, av, b4, Unary(n + 4, UnaryOp.Not, r.nonneg), r);
    OneMore(b, av, b5, Binary(n + 5, Ge, n + 1, r.stride), r);
    OneMore(b, av, b6, Binary(n + 6, And, r.nonneg, n + 5), r);
    OneMore(b, av, b7, Binary(n + 7, Ge, n + 2, n + 3), r);
    OneMore(b, av, b8, Binary(n + 8, And, n + 4, n + 7), r);
    OneMore(b, av, b9, Binary(n + 9, Or, n + 6, n + 8), r);
  }

  lemma {:induction false} ForCarries(b: Low, k: Ctx, av: seq<set<Reg>>, s: Stmt) returns (av1: seq<set<Reg>>)
    requires s.For? && Good(b, k, av) && StmtMeaning.Wf(s, k, b)
    ensures Carries(b, av, ForStatement(b, k, s), av1)
    decreases s, 3
  {
    hide Sound, Here, Closed, Stored, Statements, ForSetup, ForIn, ForTail, Around, WfE, WfSs, Ext;
    var (b1, r) := ForSetup(b, s);
    var aa := SetupLeads(b, av, s);
    SameLocalsSetup(b, s);
    GrowsForSetup(b, s);
    LeadsCarries(b, av, b1, aa);
    GoodCarried(b, k, av, b1, aa);
    av1 := ForLoopCarries(b1, k, aa, s, r);
    CarriesTrans(b, av, b1, aa, ForTail(Statements(ForIn(b1, r), k, s.body), r, |Blocks(b1)|), av1);
  }

  lemma {:induction false} ForLoopCarries(b: Low, k: Ctx, av: seq<set<Reg>>, s: Stmt, r: ForRegs) returns (av1: seq<set<Reg>>)
    requires s.For? && Good(b, k, av) && StmtMeaning.Wf(s, k, b) && RegsHere(r, Here(b, av))
    ensures Carries(b, av, ForTail(Statements(ForIn(b, r), k, s.body), r, |Blocks(b)|), av1)
    decreases s, 2
  {
    hide Sound, Here, Closed, Open, Around, Statements, ForIn, ForTail, ForHead, ForHeader, RegsHere, WfE, WfSs, Ext;
    var n := |Blocks(b)|;
    var a := Here(b, av);
    ForShape(b, r);
    var h := ForHead(b);
    Three(b);
    StartSound(b, k, av, 4, h);
    var aa := av + Rep(a, 4);
    var (t, c) := ForHeader(h, r);
    HeaderLeads(h, aa, r);
    var i := ForIn(b, r);
    assert aa[n] == a && aa[n + 1] == a && aa[n + 2] == a && aa[n + 3] == a;
    TestOk(h, aa, t, aa, c, n + 1, n + 3);
    BodySound(h, k, aa, t, aa, CondBr(c, n + 1, n + 3), i);
    av1 := StatementsCarry(i, k, aa, s.body);
    var o := Statements(i, k, s.body);
    GrowsStatements(i, k, s.body);
    SameLocalsAll(i, k, s.body, b.locals.Keys, true, k.retry.Some?);
    ReservedGrows(i, o, n + 2, n + 4);
    av1 := TailCarries(b, k, av, aa, i, o, av1, r, n);
  }

  /** Room test, advance, exit. */
  lemma TailCarries(b: Low, k: Ctx, av: seq<set<Reg>>, aa: seq<set<Reg>>, i: Low, o: Low, ab: seq<set<Reg>>, r: ForRegs, n: BlockId) returns (av1: seq<set<Reg>>)
    requires Good(b, k, av) && av <= aa && Carries(i, aa, o, ab) && Here(i, aa) == Here(b, av) && RegsHere(r, Here(b, av)) && Reserved(o, n + 2, n + 4)
    requires n + 3 < |aa| && aa[n] == Here(b, av) && aa[n + 2] == Here(b, av) && aa[n + 3] == Here(b, av)
    requires o.locals == b.locals
    ensures Carries(b, av, ForTail(o, r, n), av1)
  {
    hide Sound, Here, Stored, Closed, ForRoom, ForAdvance, LoopEnd, RegsHere, Ext, Around;
    ExtRefl(Blocks(ForTail(o, r, n)));
    ForTailShape(o, r, n, Blocks(ForTail(o, r, n)));
    ReservedPart(o, n + 2, n + 4, n + 2, n + 3);
    EndCarries(b, k, av, aa, i, aa, o, ab, n + 2, n + 2);
    var p := LoopEnd(o, n + 2, n + 2);
    PlainEnd(o, n + 2, n + 2);
    OpenAgain(b, av, p, ab);
    RoomLeads(p, ab, r);
    var (t, cur, fits) := ForRoom(p, r);
    av1 := ForkAdvance(p, ab, t, r, cur, fits, n);
    var a := ForFork(t, fits, n);
    var z := ForAdvance(a, r, cur, n);
    SSwitch(z, av1, n + 3);
  }

  lemma PlainEnd(o: Low, back: BlockId, exit: BlockId)
    ensures LoopEnd(o, back, exit).locals == o.locals
  {
  }

  lemma OpenAgain(b: Low, av: seq<set<Reg>>, p: Low, ab: seq<set<Reg>>)
    requires Open(b, av) && Sound(p, ab) && !Closed(p) && Here(p, ab) == Here(b, av) && p.locals == b.locals
    ensures Open(p, ab)
  {
  }

  lemma ForkAdvance(p: Low, av: seq<set<Reg>>, t: Low, r: ForRegs, cur: Reg, fits: Reg, n: BlockId) returns (av1: seq<set<Reg>>)
    requires Open(p, av) && Leads(p, av, t, av) && Open(t, av) && RegsHere(r, Here(t, av)) && cur in Here(t, av) && fits in Here(t, av)
    requires n + 3 < |av| && av[n] <= Here(p, av) && av[n + 3] <= Here(p, av)
    ensures Sound(ForAdvance(ForFork(t, fits, n), r, cur, n), av1) && av <= av1
  {
    hide Covered, DefinedOnce, Avail, Closed, Stored, Ins;
    var here := Here(t, av);
    CoveredLength(Blocks(t), av);
    SBlock(t, av, here);
    av1 := av + [here];
    var x := CondBr(fits, |Blocks(t)|, n + 3);
    SEnd(LBlock(t), av1, x);
    ForkBlock(t, x);
    OpenSwitch(LEnd(LBlock(t), x), av1, |Blocks(t)|, t, av);
    var a := ForFork(t, fits, n);
    var next := a.g.nextReg;
    var i := Binary(next, Add, cur, r.stride);
    OpenIns(a, av1, i);
    OpenStore(Ins(a, i), av1, r.ptr, next);
    var y := LPush(Ins(a, i), Store(r.ptr, next));
    SEnd(y, av1, Goto(n));
  }

  lemma ForkBlock(t: Low, x: Terminator)
    ensures var f := LEnd(LBlock(t), x); |Blocks(f)| == |Blocks(t)| + 1 && Blocks(f)[|Blocks(t)|] == EMPTY_BLOCK && f.locals == t.locals
  {
  }

  // ---- IF ---------------------------------------------------------------------------------------------

  lemma {:induction false} IfCarries(b: Low, k: Ctx, av: seq<set<Reg>>, s: Stmt) returns (av1: seq<set<Reg>>)
    requires s.If? && Good(b, k, av) && StmtMeaning.Wf(s, k, b)
    ensures Carries(b, av, IfStatement(b, k, s), av1)
    decreases s, 3
  {
    hide Sound, Here, Closed, Open, Around, IfArms, Statements, WfE, WfSs, Ext;
    var join := |Blocks(b)|;
    var a := Here(b, av);
    var b0 := LBlock(b);
    var aa := av + [a];
    NewJoin(b, k, av);
    av1 := ArmsCarry(b0, k, aa, s.arms, s.els.ElseDo?, join);
    var b1 := IfArms(b0, k, s.arms, s.els.ElseDo?, join);
    ExtRefl(Blocks(IfStatement(b, k, s)));
    StmtMeaning.IfShape(b, k, s, Blocks(IfStatement(b, k, s)));
    if s.els.ElseDo? {
      var ab := av1;
      SameLocalsArms(b0, k, s.arms, true, join, b.locals.Keys, b.g.loops != [], k.retry.Some?);
      GoodAgain(b0, k, aa, b1, ab);
      av1 := StatementsCarry(b1, k, ab, s.els.ss);
      var o := Statements(b1, k, s.els.ss);
      AfterArm(b, av, aa, b1, ab, o, av1, join, join, IfStatement(b, k, s));
    }
  }

  lemma NewJoin(b: Low, k: Ctx, av: seq<set<Reg>>)
    requires Good(b, k, av)
    ensures var a := Here(b, av); |av| == |Blocks(b)| && Good(LBlock(b), k, av + [a]) && Here(LBlock(b), av + [a]) == a && Reserved(LBlock(b), |av|, |av| + 1)
  {
    hide Covered, DefinedOnce;
    CoveredLength(Blocks(b), av);
    SBlock(b, av, Here(b, av));
  }

  lemma GoodAgain(b: Low, k: Ctx, av: seq<set<Reg>>, b1: Low, av1: seq<set<Reg>>)
    requires Good(b, k, av) && Sound(b1, av1) && av <= av1 && !Closed(b1) && Here(b1, av1) == Here(b, av) && b1.locals == b.locals && b1.g.loops == b.g.loops
    ensures Good(b1, k, av1)
  {
  }

  /** A body is done: jump to the join, go on in the reserved block `next`. */
  lemma AfterArm(b: Low, av: seq<set<Reg>>, aa: seq<set<Reg>>, b1: Low, ab: seq<set<Reg>>, o: Low, av1: seq<set<Reg>>, join: BlockId, next: BlockId, z: Low)
    requires av <= aa <= ab && Carries(b1, ab, o, av1) && Here(b1, ab) == Here(b, av)
    requires join < |aa| && aa[join] == Here(b, av) && next < |aa| && aa[next] == Here(b, av)
    requires z == LSwitch(JumpTo(o, join), next) && z.g.current == next && Blocks(z)[next] == EMPTY_BLOCK
    ensures Sound(z, av1) && av <= av1 && !Closed(z) && Here(z, av1) == Here(b, av) && Carries(b, av, z, av1)
  {
    hide Covered, DefinedOnce, Avail;
    FallSound(o, av1, join);
    SSwitch(JumpTo(o, join), av1, next);
  }

  lemma {:induction false} ArmsCarry(b: Low, k: Ctx, av: seq<set<Reg>>, arms: seq<IfArm>, hasElse: bool, join: BlockId) returns (av1: seq<set<Reg>>)
    requires Good(b, k, av) && (forall a :: a in arms ==> WfE(a.cond) && StmtMeaning.WfAll(a.body, k, b))
    requires Reserved(b, join, join + 1) && join < |av| && av[join] == Here(b, av)
    ensures var z := IfArms(b, k, arms, hasElse, join);
            Sound(z, av1) && av <= av1 && !Closed(z) && Here(z, av1) == Here(b, av) && z.g.loops == b.g.loops
    decreases arms, 1
  {
    hide Sound, Here, Closed, OneIfArm, Statements, WfE, WfSs, Ext, Stored, Around;
    av1 := av;
    if arms != [] {
      var more := 1 < |arms| || hasElse;
      var b1 := OneIfArm(b, k, arms[0], more, join);
      var aa := ArmCarries(b, k, av, arms[0], more, join);
      StmtMeaning.OneArmShape(b, k, arms[0], more, join);
      SameLocalsArm(b, k, arms[0], more, join, b.locals.Keys, b.g.loops != [], k.retry.Some?);
      av1 := aa;
      if more {
        GoodAgain(b, k, av, b1, aa);
        av1 := ArmsCarry(b1, k, aa, arms[1..], hasElse, join);
      }
    }
  }

  lemma {:induction false} ArmCarries(b: Low, k: Ctx, av: seq<set<Reg>>, arm: IfArm, more: bool, join: BlockId) returns (av1: seq<set<Reg>>)
    requires Good(b, k, av) && WfE(arm.cond) && StmtMeaning.WfAll(arm.body, k, b)
    requires Reserved(b, join, join + 1) && join < |av| && av[join] == Here(b, av)
    ensures var z := OneIfArm(b, k, arm, more, join);
            Sound(z, av1) && av <= av1 && !Closed(z) && Here(z, av1) == Here(b, av) && z.g.loops == b.g.loops
    decreases arm, 1
  {
    hide Sound, Here, Closed, Expression, Statements, WfE, WfSs, Ext, Stored, Around, Reserved;
    var n := |Blocks(b)|;
    var a := Here(b, av);
    var target := if more then n + 1 else join;
    var m := if more then 2 else 1;
    var b1 := if more then LBlock(LBlock(b)) else LBlock(b);
    var aa := av + Rep(a, m);
    ArmBlocksGood(b, k, av, m);
    StmtMeaning.ArmBlocks(b, more, join);
    var (b2, c) := Expression(b1, arm.cond);
    var ab := ExpressionLeads(b1, aa, arm.cond);
    GrowsExpression(b1, arm.cond);
    assert aa[n] == a && aa[target] == a;
    TestOk(b1, aa, b2, ab, c, n, target);
    var t := CondBr(c, n, target);
    ReservedGrows(b1, b2, n, |Blocks(b1)|);
    ReservedEnd(b2, t, n, |Blocks(b1)|);
    ReservedTake(LEnd(b2, t), n, n, |Blocks(b1)|);
    var b3 := LSwitch(LEnd(b2, t), n);
    BodySound(b1, k, aa, b2, ab, t, b3);
    av1 := StatementsCarry(b3, k, ab, arm.body);
    var o := Statements(b3, k, arm.body);
    GrowsStatements(b3, k, arm.body);
    StmtMeaning.OneArmShape(b, k, arm, more, join);
    AfterArm(b, av, aa, b3, ab, o, av1, join, target, OneIfArm(b, k, arm, more, join));
  }

  lemma ArmBlocksGood(b: Low, k: Ctx, av: seq<set<Reg>>, m: nat)
    requires Good(b, k, av) && 1 <= m <= 2
    ensures var a := Here(b, av);
            var b1 := if m == 2 then LBlock(LBlock(b)) else LBlock(b);
            |av| == |Blocks(b)| && Good(b1, k, av + Rep(a, m)) && Here(b1, av + Rep(a, m)) == a
  {
    hide Covered, DefinedOnce, Avail;
    var a := Here(b, av);
    CoveredLength(Blocks(b), av);
    Three(b);
    assert AddBlocks(b, 1) == AddBlocks(LBlock(b), 0) == LBlock(b);
    BlocksSound(b, av, m, a);
  }

  // ---- CASE --------------------------------------------------------------------------------------------

  /** Every label's target is the block of one of the arms. */
  lemma {:induction false} TargetsInside(arms: seq<CaseArm>, first: BlockId)
    ensures forall s :: s in Singles(arms, first) ==> first <= s.1 < first + |arms|
    ensures forall r :: r in Ranges(arms, first) ==> first <= r.2 < first + |arms|
    decreases |arms|
  {
    if arms != [] {
      TargetsInside(arms[1..], first + 1);
      LabelTargets(arms[0].labels, first);
    }
  }

  lemma {:induction false} LabelTargets(labels: seq<Label>, target: BlockId)
    ensures forall s :: s in LabelSingles(labels, target) ==> s.1 == target
    ensures forall r :: r in LabelRanges(labels, target) ==> r.2 == target
    decreases |labels|
  {
    if labels != [] {
      LabelTargets(labels[1..], target);
    }
  }

  lemma RangeTestSound(b: Low, av: seq<set<Reg>>, v: Reg, lo: int, hi: int, target: BlockId) returns (av1: seq<set<Reg>>)
    requires Open(b, av) && v in Here(b, av) && target < |av| && av[target] <= Here(b, av)
    ensures var z := RangeTest(b, v, lo, hi, target); Open(z, av1) && av <= av1 && Here(z, av1) == Here(b, av)
  {
    hide Covered, DefinedOnce, Avail, Closed, Ins;
    var here := Here(b, av);
    var next := |Blocks(b)|;
    CoveredLength(Blocks(b), av);
    SBlock(b, av, here);
    av1 := av + [here];
    var b0 := LBlock(b);
    var c := b0.g.nextReg;
    var z := RangeCode(b0, v, lo, hi);
    RangeCodeLeads(b0, av1, v, lo, hi);
    SEnd(z, av1, CondBr(c + 4, target, next));
    RangeShape(b, v, lo, hi, target);
    OpenSwitch(LEnd(z, CondBr(c + 4, target, next)), av1, next, b, av);
  }

  function RangeCode(b: Low, v: Reg, lo: int, hi: int): Low {
    var c := b.g.nextReg;
    var b1 := Ins(b, Const(c, IntC(lo)));
    var b2 := Ins(b1, Const(c + 1, IntC(hi)));
    var b3 := Ins(b2, Binary(c + 2, Ge, v, c));
    var b4 := Ins(b3, Binary(c + 3, Le, v, c + 1));
    Ins(b4, Binary(c + 4, And, c + 2, c + 3))
  }

  lemma RangeShape(b: Low, v: Reg, lo: int, hi: int, target: BlockId)
    ensures var n := |Blocks(b)|;
            var e := LEnd(RangeCode(LBlock(b), v, lo, hi), CondBr(b.g.nextReg + 4, target, n));
            RangeTest(b, v, lo, hi, target) == LSwitch(e, n) && n < |Blocks(e)| && Blocks(e)[n] == EMPTY_BLOCK && e.locals == b.locals
  {
  }

  lemma RangeCodeLeads(b: Low, av: seq<set<Reg>>, v: Reg, lo: int, hi: int)
    requires Open(b, av) && v in Here(b, av)
    ensures Makes(b, av, RangeCode(b, v, lo, hi), av, b.g.nextReg + 4)
  {
    hide Sound, Here, Closed, Open, Ins, Leads, RegsHere;
    var c := b.g.nextReg;
    var r := ForRegs(v, v, v, v, v);
    RegsAre(v, Here(b, av));
    LeadsOpen(b, av);
    var b1 := Ins(b, Const(c, IntC(lo)));
    var b2 := Ins(b1, Const(c + 1, IntC(hi)));
    var b3 := Ins(b2, Binary(c + 2, Ge, v, c));
    var b4 := Ins(b3, Binary(c + 3, Le, v, c + 1));
    OneMore(b, av, b, Const(c, IntC(lo)), r);
    OneMore(b, av, b1, Const(c + 1, IntC(hi)), r);
    OneMore(b, av, b2, Binary(c + 2, Ge, v, c), r);
    OneMore(b, av, b3, Binary(c + 3, Le, v, c + 1), r);
    OneMore(b, av, b4, Binary(c + 4, And, c + 2, c + 3), r);
  }

  lemma RegsAre(v: Reg, a: set<Reg>)
    requires v in a
    ensures RegsHere(ForRegs(v, v, v, v, v), a)
  {
  }

  lemma {:induction false} RangeTestsSound(b: Low, av: seq<set<Reg>>, v: Reg, ranges: seq<(int, int, BlockId)>) returns (av1: seq<set<Reg>>)
    requires Open(b, av) && v in Here(b, av) && forall r :: r in ranges ==> r.2 < |av| && av[r.2] <= Here(b, av)
    ensures var z := RangeTests(b, v, ranges); Open(z, av1) && av <= av1 && Here(z, av1) == Here(b, av)
    decreases |ranges|
  {
    hide Open, Here, RangeTest;
    av1 := av;
    if ranges != [] {
      var aa := RangeTestSound(b, av, v, ranges[0].0, ranges[0].1, ranges[0].2);
      av1 := RangeTestsSound(RangeTest(b, v, ranges[0].0, ranges[0].1, ranges[0].2), aa, v, ranges[1..]);
    }
  }

  lemma DispatchSound(b: Low, k: Ctx, av: seq<set<Reg>>, v: Reg, arms: seq<CaseArm>) returns (av1: seq<set<Reg>>)
    requires Good(b, k, av) && v in Here(b, av)
    ensures var a := Here(b, av); var m := 2 + |arms|;
            |av| == |Blocks(b)| && Sound(CaseDispatch(b, v, arms), av1) && av + Rep(a, m) <= av1
  {
    hide Covered, DefinedOnce, Here, Closed, AddBlocks, RangeTests, Singles, Ranges, Around;
    var n := |Blocks(b)|;
    var a := Here(b, av);
    var m := 2 + |arms|;
    var aa := av + Rep(a, m);
    CoveredLength(Blocks(b), av);
    BlocksSound(b, av, m, a);
    GrowsAddBlocks(b, m);
    var b1 := AddBlocks(b, m);
    TargetsInside(arms, n + 2);
    assert Open(b1, aa);
    av1 := RangeTestsSound(b1, aa, v, Ranges(arms, n + 2));
    var b2 := RangeTests(b1, v, Ranges(arms, n + 2));
    var t := Switch(v, Singles(arms, n + 2), n + 1);
    forall s | s in Succs(t)
      ensures s < |av1| && av1[s] <= Here(b2, av1)
    {
      assert n <= s < n + m;
      assert av1[s] == aa[s] == a;
    }
    SEnd(b2, av1, t);
  }

  lemma {:induction false} CaseCarries(b: Low, k: Ctx, av: seq<set<Reg>>, s: Stmt) returns (av1: seq<set<Reg>>)
    requires s.Case? && Good(b, k, av) && StmtMeaning.Wf(s, k, b)
    ensures Carries(b, av, CaseStatement(b, k, s), av1)
    decreases s, 3
  {
    hide Sound, Here, Closed, Stored, Around, Expression, CaseDispatch, CaseArms, CaseElse, WfE, WfSs, Ext, GoodLabels;
    var (b1, v) := Expression(b, s.scrutinee);
    var aa := ExpressionLeads(b, av, s.scrutinee);
    GrowsExpression(b, s.scrutinee);
    GoodFlows(b, k, av, b1, aa);
    var join := |Blocks(b1)|;
    var a := Here(b1, aa);
    var ab := DispatchSound(b1, k, aa, v, s.carms);
    var b2 := CaseDispatch(b1, v, s.carms);
    StmtMeaning.DispatchShape(b1, v, s.carms);
    GrowsCaseDispatch(b1, v, s.carms);
    forall i | join <= i < join + 2 + |s.carms|
      ensures i < |ab| && ab[i] == a
    {
      assert (aa + Rep(a, 2 + |s.carms|))[i] == a;
    }
    ReservedPart(b2, join, join + 2 + |s.carms|, join, join + 1);
    ReservedPart(b2, join, join + 2 + |s.carms|, join + 1, join + 2);
    ReservedPart(b2, join, join + 2 + |s.carms|, join + 2, join + 2 + |s.carms|);
    var ac := CaseArmsSound(b1, k, aa, b2, ab, s.carms, join + 2, join);
    var b3 := CaseArms(b2, k, s.carms, join + 2, join);
    av1 := CaseElseSound(b1, k, aa, b3, ac, s.els, join);
    CaseJoin(b, av, b1, aa, b3, k, s.els, join, av1);
  }

  lemma CaseJoin(b: Low, av: seq<set<Reg>>, b1: Low, aa: seq<set<Reg>>, b3: Low, k: Ctx, els: Else, join: BlockId, av1: seq<set<Reg>>)
    requires Leads(b, av, b1, aa) && aa <= av1
    requires var z := CaseElse(LSwitch(b3, join + 1), k, els, join); Sound(z, av1) && join < |Blocks(z)| && Blocks(z)[join] == EMPTY_BLOCK
    requires join < |av1| && av1[join] == Here(b1, aa)
    ensures Carries(b, av, LSwitch(CaseElse(LSwitch(b3, join + 1), k, els, join), join), av1)
  {
    hide Covered, DefinedOnce, CaseElse, Avail;
    SSwitch(CaseElse(LSwitch(b3, join + 1), k, els, join), av1, join);
  }

  /** The arms' bodies, each in its own reserved block. */
  lemma {:induction false} CaseArmsSound(b: Low, k: Ctx, av: seq<set<Reg>>, b2: Low, ab: seq<set<Reg>>, arms: seq<CaseArm>, first: BlockId, join: BlockId)
    returns (av1: seq<set<Reg>>)
    requires Good(b, k, av) && (forall a :: a in arms ==> StmtMeaning.WfAll(a.body, k, b))
    requires Sound(b2, ab) && av <= ab && b2.locals == b.locals && b2.g.loops == b.g.loops && join + 2 <= first
    requires first + |arms| <= |ab| && (forall i :: first <= i < first + |arms| ==> ab[i] == Here(b, av)) && ab[join] == Here(b, av) && ab[join + 1] == Here(b, av)
    requires Reserved(b2, first, first + |arms|) && Reserved(b2, join, join + 1) && Reserved(b2, join + 1, join + 2)
    ensures var z := CaseArms(b2, k, arms, first, join);
            && Sound(z, av1) && ab <= av1 && Reserved(z, join, join + 1) && Reserved(z, join + 1, join + 2) && z.locals == b.locals && z.g.loops == b.g.loops
    decreases arms, 1
  {
    hide Sound, Here, Closed, Statements, WfSs, Ext, Stored, Around, Reserved;
    av1 := ab;
    if arms != [] {
      ReservedTake(b2, first, first, first + |arms|);
      var b3 := LSwitch(b2, first);
      SoundSame(b2, b3, ab);
      GoodAt(b, k, av, b3, ab);
      var ac := StatementsCarry(b3, k, ab, arms[0].body);
      var o := Statements(b3, k, arms[0].body);
      GrowsStatements(b3, k, arms[0].body);
      SameLocalsAll(b3, k, arms[0].body, b.locals.Keys, b.g.loops != [], k.retry.Some?);
      FallSound(o, ac, join);
      var b4 := JumpTo(o, join);
      ReservedPart(b2, first, first + |arms|, first + 1, first + |arms|);
      ArmReserved(b2, o, first, first + 1, first + |arms|, join);
      ArmReserved(b2, o, first, join, join + 1, join);
      ArmReserved(b2, o, first, join + 1, join + 2, join);
      av1 := CaseArmsSound(b, k, av, b4, ac, arms[1..], first + 1, join);
    }
  }

  lemma ArmReserved(b2: Low, o: Low, first: BlockId, lo: BlockId, hi: BlockId, join: BlockId)
    requires Reserved(b2, lo, hi) && Grows(LSwitch(b2, first), o) && !(lo <= first < hi)
    ensures Reserved(JumpTo(o, join), lo, hi)
  {
    hide Ext;
    ReservedSwitch(b2, first, lo, hi);
    ReservedGrows(LSwitch(b2, first), o, lo, hi);
    ReservedEnd(o, Goto(join), lo, hi);
  }

  lemma {:induction false} CaseElseSound(b: Low, k: Ctx, av: seq<set<Reg>>, b3: Low, ab: seq<set<Reg>>, els: Else, join: BlockId) returns (av1: seq<set<Reg>>)
    requires Good(b, k, av) && (els.ElseDo? ==> StmtMeaning.WfAll(els.ss, k, b))
    requires Sound(b3, ab) && av <= ab && b3.locals == b.locals && b3.g.loops == b.g.loops
    requires join + 1 < |ab| && ab[join] == Here(b, av) && ab[join + 1] == Here(b, av) && Reserved(b3, join, join + 1) && Reserved(b3, join + 1, join + 2)
    ensures var z := CaseElse(LSwitch(b3, join + 1), k, els, join);
            Sound(z, av1) && ab <= av1 && join < |Blocks(z)| && Blocks(z)[join] == EMPTY_BLOCK
    decreases els, 1
  {
    hide Sound, Here, Statements, WfSs, Ext, Stored, Around, RaiseM2, Reserved;
    ReservedTake(b3, join + 1, join + 1, join + 2);
    var b4 := LSwitch(b3, join + 1);
    SoundSame(b3, b4, ab);
    GoodAt(b, k, av, b4, ab);
    ReservedSwitch(b3, join + 1, join, join + 1);
    var o := if els.ElseDo? then Statements(b4, k, els.ss) else RaiseM2(b4, CASE_EXCEPTION);
    av1 := ab;
    if els.ElseDo? {
      av1 := StatementsCarry(b4, k, ab, els.ss);
      GrowsStatements(b4, k, els.ss);
      FallSound(o, av1, join);
    } else {
      RaiseLeads(b4, ab, CASE_EXCEPTION);
      GrowsRaise(b4, CASE_EXCEPTION);
    }
    ReservedGrows(b4, o, join, join + 1);
    ReservedEnd(o, Goto(join), join, join + 1);
    ReservedTake(o, join, join, join + 1);
    ReservedTake(JumpTo(o, join), join, join, join + 1);
  }

  // ---- A whole function -----------------------------------------------------------------------------------

  lemma {:induction false} PrologueLeads(b: Low, av: seq<set<Reg>>, decls: seq<Decl>)
    requires Open(b, av)
    ensures Open(Prologue(b, decls), av) && Prologue(b, decls).g.loops == b.g.loops
    decreases |decls|
  {
    hide Sound, Here, Closed, Ins;
    if decls != [] {
      var d := decls[0];
      var i := Alloca(b.g.nextReg, if d.indirect then None else Some(d.name));
      OpenIns(b, av, i);
      GrowsRefl(b);
      FIns(b, b, i);
      Bound(b, Ins(b, i), av, d);
      PrologueLeads(Declared(b, d), av, decls[1..]);
    }
  }

  lemma Bound(b: Low, b1: Low, av: seq<set<Reg>>, d: Decl)
    requires Open(b1, av) && b1.locals == b.locals && b.g.nextReg in Here(b1, av) && Blocks(b1) == Blocks(Declared(b, d)) && b1.g == Declared(b, d).g
    ensures Open(Declared(b, d), av)
  {
  }
}
