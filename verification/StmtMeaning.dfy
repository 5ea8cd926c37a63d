/** Running the code of a statement does what the statement means: same store, same
    trace, same way out, and as many rounds as the machine takes steps when it does
    not stop. */
module StmtMeaning {
  import opened Arith
  import opened Ir
  import opened Machine
  import opened Source
  import opened Builder
  import opened LowerSpec
  import opened LowerGrow
  import opened LowerLocals
  import opened Running
  import opened ExprMeaning
  import opened Landing
  import opened SimpleMeaning
  import opened CaseMeaning
  import opened ForMeaning
  import opened LoopShape

  /** Everything a statement's code needs to start. */
  ghost predicate Starts(w: World, f: seq<Block>, k: Ctx, b: Low, c: Config) {
    !Closed(b) && At(c, b) && Ready(w, k, b, c)
  }

  ghost predicate Wf(s: Stmt, k: Ctx, b: Low) {
    WfS(s, b.locals.Keys, b.g.loops != [], k.retry.Some?)
  }

  ghost predicate WfAll(ss: seq<Stmt>, k: Ctx, b: Low) {
    WfSs(ss, b.locals.Keys, b.g.loops != [], k.retry.Some?)
  }

  lemma {:induction false} StatementsMeaning(w: World, f: seq<Block>, k: Ctx, b: Low, ss: seq<Stmt>, fuel: nat, c: Config) returns (d: Config)
    requires WfAll(ss, k, b) && Starts(w, f, k, b, c) && Ext(Blocks(Statements(b, k, ss)), f)
    ensures Lands(w, f, k, b, Statements(b, k, ss), c, d, fuel, ExecAll(w, ss, fuel, c.st))
    decreases fuel, ss, 0
  {
    hide Ext, Reach, Statement, Ready, Exec, WfS, Names;
    if ss == [] {
      ArrivesRefl(w, f, b, c);
      d := c;
    } else {
      var b1 := Statement(b, k, ss[0]);
      var b2 := Statements(b1, k, ss[1..]);
      GrowsStatement(b, k, ss[0]);
      GrowsStatements(b1, k, ss[1..]);
      ExtBack(b1, b2, f);
      d := StatementMeaning(w, f, k, b, ss[0], fuel, c);
      var r := Exec(w, ss[0], fuel, c.st);
      if r.o.Normal? {
        var c1 := d;
        SameLocals(b, k, ss[0], b.locals.Keys, b.g.loops != [], k.retry.Some?);
        LongEnough(b, b1);
        ReadyKept(w, k, b, b1, c, c1);
        d := StatementsMeaning(w, f, k, b1, ss[1..], fuel, c1);
        LandsAfter(w, f, k, b, b1, b2, c, c1, d, 0, fuel, fuel, ExecAll(w, ss[1..], fuel, c1.st));
      } else {
        LandsElsewhere(w, f, k, b, b1, b2, c, d, fuel, r);
      }
    }
  }

  lemma {:induction false} StatementMeaning(w: World, f: seq<Block>, k: Ctx, b: Low, s: Stmt, fuel: nat, c: Config) returns (d: Config)
    requires Wf(s, k, b) && Starts(w, f, k, b, c) && Ext(Blocks(Statement(b, k, s)), f)
    ensures Lands(w, f, k, b, Statement(b, k, s), c, d, fuel, Exec(w, s, fuel, c.st))
    decreases fuel, s, 4
  {
    hide Ext, Reach, Lands, Exec, Names, Surrounded, IfStatement, WhileStatement, RepeatStatement, ForStatement, LoopStatement, CaseStatement;
    match s
    case If(_, _) => d := IfMeaning(w, f, k, b, s, fuel, c);
    case While(_, _) => d := WhileMeaning(w, f, k, b, s, fuel, c);
    case Repeat(_, _) => d := RepeatMeaning(w, f, k, b, s, fuel, c);
    case For(_, _, _, _, _) => d := ForStatementMeaning(w, f, k, b, s, fuel, c);
    case Loop(_) => d := LoopMeaning(w, f, k, b, s, fuel, c);
    case Case(_, _, _, _) => d := CaseStatementMeaning(w, f, k, b, s, fuel, c);
    case _ => d := PlainMeaning(w, f, k, b, s, fuel, c);
  }

  lemma PlainMeaning(w: World, f: seq<Block>, k: Ctx, b: Low, s: Stmt, fuel: nat, c: Config) returns (d: Config)
    requires !s.If? && !s.While? && !s.Repeat? && !s.For? && !s.Loop? && !s.Case?
    requires Wf(s, k, b) && Starts(w, f, k, b, c) && Ext(Blocks(Statement(b, k, s)), f)
    ensures Lands(w, f, k, b, Statement(b, k, s), c, d, fuel, Exec(w, s, fuel, c.st))
  {
    hide Ext, Reach, Names, Surrounded, Assignment, Increment, Assertion, HaltStatement, ReturnStatement, Expression, WfE, WfD;
    match s
    case Empty => ArrivesRefl(w, f, b, c); d := c;
    case Assign(t, e) => d := AssignmentMeaning(w, f, k, b, t, e, fuel, c);
    case CallS(fn, args) => d := CallStatementMeaning(w, f, k, b, fn, args, fuel, c);
    case IncDec(t, amount, up) => d := IncrementMeaning(w, f, k, b, t, amount, up, fuel, c);
    case Assert(e) => d := AssertionMeaning(w, f, k, b, e, fuel, c);
    case Halt(code) => d := HaltMeaning(w, f, k, b, code, fuel, c);
    case Exit => d := ExitMeaning(w, f, k, b, fuel, c);
    case Return(val) => d := ReturnMeaning(w, f, k, b, val, fuel, c);
    case Retry => d := RetryMeaning(w, f, k, b, fuel, c);
  }

  // ---- Out of a loop body ------------------------------------------------------------------

  /** A body that does not come to its end: EXIT ends the loop, everything else
      passes through it. */
  lemma LoopLeft(w: World, f: seq<Block>, k: Ctx, b: Low, i: Low, o: Low, z: Low, c: Config, c1: Config, d: Config, fuel: nat, r: Res)
    requires Reach(w, f, 0, Run(c), Run(c1)) && Kept(b.g.nextReg, c, c1) && b.g.nextReg <= i.g.nextReg
    requires Lands(w, f, k, i, o, c1, d, fuel, r) && !r.o.Normal?
    requires i.g.loops != [] && z.g.current == i.g.loops[|i.g.loops| - 1].exitBlock && Blocks(z)[z.g.current] == EMPTY_BLOCK
    ensures Lands(w, f, k, b, z, c, d, fuel, if r.o.Exited? then Res(Normal, r.st) else r)
  {
    hide Reach;
    match r.o
    case Leaves(v) => ReachTrans(w, f, 0, 0, Run(c), Run(c1), Done(Result(v), r.st));
    case Ended => ReachTrans(w, f, 0, 0, Run(c), Run(c1), Done(Aborted, r.st));
    case Timeout => ReachTrans(w, f, 0, fuel, Run(c), Run(c1), Run(d));
    case Exited =>
      ReachTrans(w, f, 0, 0, Run(c), Run(c1), Run(d));
      KeptTrans(b.g.nextReg, i.g.nextReg, c, c1, d);
    case Retried =>
      ReachTrans(w, f, 0, 0, Run(c), Run(c1), Run(d));
      KeptTrans(b.g.nextReg, i.g.nextReg, c, c1, d);
  }

  /** A new round: at least one step, then the loop again with one round less. */
  lemma NextRound(w: World, f: seq<Block>, k: Ctx, b: Low, z: Low, c: Config, c1: Config, d: Config, fuel: nat, r: Res)
    requires fuel > 0 && Reach(w, f, 1, Run(c), Run(c1)) && Kept(b.g.nextReg, c, c1)
    requires Lands(w, f, k, b, z, c1, d, fuel - 1, r)
    ensures Lands(w, f, k, b, z, c, d, fuel, r)
  {
    hide Lands;
    LandsAfter(w, f, k, b, b, z, c, c1, d, 1, fuel - 1, fuel, r);
  }

  /** The jump that starts a loop, from the statement's first block. */
  lemma LoopStarts(w: World, f: seq<Block>, k: Ctx, b: Low, b1: Low, h: Low, target: BlockId, c: Config) returns (d: Config)
    requires Starts(w, f, k, b, c) && Ext(Blocks(h), f)
    requires b1.g.current == b.g.current && Blocks(b1)[b.g.current] == Blocks(b)[b.g.current] && Blocks(h) == Blocks(LEnd(b1, Goto(target)))
    ensures Jumps(w, f, b.g.nextReg, c, d, target, c.st) && Reach(w, f, 0, Run(c), Run(d))
  {
    hide Ext, Names;
    ReachRefl(w, f, Run(c));
    d := GotoStep(w, f, b.g.nextReg, b1, target, c, c);
  }

  // ---- WHILE ---------------------------------------------------------------------------------

  lemma {:induction false} WhileMeaning(w: World, f: seq<Block>, k: Ctx, b: Low, s: Stmt, fuel: nat, c: Config) returns (d: Config)
    requires s.While? && Wf(s, k, b) && Starts(w, f, k, b, c) && Ext(Blocks(WhileStatement(b, k, s)), f)
    ensures Lands(w, f, k, b, WhileStatement(b, k, s), c, d, fuel, Exec(w, s, fuel, c.st))
    decreases fuel, s, 2
  {
    hide Ext, Reach, Names, Exec, Lands, Statements, Expression, WhileHead, WhileIn, Surrounded, WfS;
    var n := |Blocks(b)|;
    WhileExt(b, k, s, f);
    WhileShape(b, s.cond);
    var c1 := LoopStarts(w, f, k, b, LBlock(LBlock(LBlock(b))), WhileHead(b), n, c);
    ReadyKept(w, k, b, b, c, c1);
    d := WhileRounds(w, f, k, b, s, fuel, c1);
    LandsAfter(w, f, k, b, b, WhileStatement(b, k, s), c, c1, d, 0, fuel, fuel, Exec(w, s, fuel, c.st));
  }

  lemma WhileExt(b: Low, k: Ctx, s: Stmt, f: seq<Block>)
    requires s.While? && Ext(Blocks(WhileStatement(b, k, s)), f)
    ensures var n := |Blocks(b)|;
            var o := Statements(WhileIn(b, s.cond), k, s.body);
            && Ext(Blocks(WhileHead(b)), f) && Ext(Blocks(Expression(WhileHead(b), s.cond).0), f) && Ext(Blocks(WhileIn(b, s.cond)), f)
            && Ext(Blocks(o), f) && Ext(Blocks(LEnd(LLeave(o), Goto(n))), f)
            && GrowsLoops(WhileIn(b, s.cond), o)
            && var z := WhileStatement(b, k, s); z.g.current == n + 2 && Blocks(z)[n + 2] == EMPTY_BLOCK && !Closed(z)
  {
    hide Ext, Statements, Expression, WhileHead, WhileIn, LoopEnd;
    var n := |Blocks(b)|;
    var i := WhileIn(b, s.cond);
    var o := Statements(i, k, s.body);
    GrowsStatements(i, k, s.body);
    ExtLoopEnd(o, n, n + 2, f);
    ExtBack(i, o, f);
    WhileShape(b, s.cond);
    var (t, c) := Expression(WhileHead(b), s.cond);
    EndExt(t, CondBr(c, n + 1, n + 2));
    ExtTrans(Blocks(t), Blocks(i), f);
    ExtBack(WhileHead(b), t, f);
    ReservedGrows(i, o, n + 2, n + 3);
    LoopEndShape(o, n, n + 2);
  }

  lemma {:induction false} WhileRounds(w: World, f: seq<Block>, k: Ctx, b: Low, s: Stmt, fuel: nat, c: Config) returns (d: Config)
    requires s.While? && Wf(s, k, b) && Ready(w, k, b, c) && c.blk == |Blocks(b)| && c.idx == 0 && Ext(Blocks(WhileStatement(b, k, s)), f)
    ensures Lands(w, f, k, b, WhileStatement(b, k, s), c, d, fuel, Exec(w, s, fuel, c.st))
    decreases fuel, s, 1
  {
    hide Ext, Reach, Names, ExecAll, Eval, Statements, Expression, WhileHead, WhileIn, WhileStatement, Surrounded, WfE, WfSs;
    var n := |Blocks(b)|;
    var z := WhileStatement(b, k, s);
    ReachRefl(w, f, Run(c));
    d := c;
    if fuel > 0 {
      WhileExt(b, k, s, f);
      WhileShape(b, s.cond);
      var h := WhileHead(b);
      var (t, cr) := Expression(h, s.cond);
      ReadyKept(w, k, b, h, c, c);
      d := ExpressionMeaning(w, f, h, s.cond, c);
      match Eval(w, s.cond, c.st)
      case Escaped(_) =>
      case Val(v, st) =>
        var c2 := BranchStep(w, f, b.g.nextReg, t, cr, n + 1, n + 2, v, c, d);
        d := c2;
        if v != 0 {
          d := WhileBody(w, f, k, b, s, fuel, c, c2);
        }
    }
  }

  lemma {:induction false} WhileBody(w: World, f: seq<Block>, k: Ctx, b: Low, s: Stmt, fuel: nat, c: Config, c2: Config) returns (d: Config)
    requires s.While? && Wf(s, k, b) && Ready(w, k, b, c) && Ext(Blocks(WhileStatement(b, k, s)), f) && fuel > 0
    requires Jumps(w, f, b.g.nextReg, c, c2, |Blocks(b)| + 1, c2.st)
    ensures var r := ExecAll(w, s.body, fuel, c2.st);
            Lands(w, f, k, b, WhileStatement(b, k, s), c, d, fuel,
                  if r.o.Normal? then Exec(w, s, fuel - 1, r.st) else if r.o.Exited? then Res(Normal, r.st) else r)
    decreases fuel, s, 0
  {
    hide Ext, Reach, Names, ExecAll, Exec, Statements, Expression, WhileHead, WhileIn, WhileStatement, Surrounded, WfE, WfSs;
    var n := |Blocks(b)|;
    var z := WhileStatement(b, k, s);
    var i := WhileIn(b, s.cond);
    var o := Statements(i, k, s.body);
    WhileExt(b, k, s, f);
    WhileShape(b, s.cond);
    ReadyKept(w, k, b, i, c, c2);
    d := StatementsMeaning(w, f, k, i, s.body, fuel, c2);
    var r := ExecAll(w, s.body, fuel, c2.st);
    if r.o.Normal? {
      ReachTrans(w, f, 0, 0, Run(c), Run(c2), Run(d));
      KeptTrans(b.g.nextReg, i.g.nextReg, c, c2, d);
      var c3 := GotoStep(w, f, b.g.nextReg, LLeave(o), n, c, d);
      ReadyKept(w, k, b, b, c, c3);
      d := WhileRounds(w, f, k, b, s, fuel - 1, c3);
      NextRound(w, f, k, b, z, c, c3, d, fuel, Exec(w, s, fuel - 1, r.st));
    } else {
      LoopLeft(w, f, k, b, i, o, z, c, c2, d, fuel, r);
    }
  }

  // ---- LOOP ----------------------------------------------------------------------------------

  lemma TopExt(b: Low, k: Ctx, body: seq<Stmt>, f: seq<Block>)
    requires var o := Statements(LoopTop(b), k, body); Ext(Blocks(o), f)
    ensures Ext(Blocks(LoopTop(b)), f) && GrowsLoops(LoopTop(b), Statements(LoopTop(b), k, body))
    ensures Reserved(Statements(LoopTop(b), k, body), |Blocks(b)| + 1, |Blocks(b)| + 2)
  {
    hide Ext, Statements, LoopTop;
    var o := Statements(LoopTop(b), k, body);
    GrowsStatements(LoopTop(b), k, body);
    ExtBack(LoopTop(b), o, f);
    TopShape(b);
    ReservedGrows(LoopTop(b), o, |Blocks(b)| + 1, |Blocks(b)| + 2);
  }

  lemma {:induction false} LoopMeaning(w: World, f: seq<Block>, k: Ctx, b: Low, s: Stmt, fuel: nat, c: Config) returns (d: Config)
    requires s.Loop? && Wf(s, k, b) && Starts(w, f, k, b, c) && Ext(Blocks(LoopStatement(b, k, s)), f)
    ensures Lands(w, f, k, b, LoopStatement(b, k, s), c, d, fuel, Exec(w, s, fuel, c.st))
    decreases fuel, s, 2
  {
    hide Ext, Reach, Names, Exec, Lands, Statements, LoopTop, Surrounded, WfS;
    var n := |Blocks(b)|;
    ExtLoopEnd(Statements(LoopTop(b), k, s.body), n, n + 1, f);
    TopExt(b, k, s.body, f);
    TopShape(b);
    var c1 := LoopStarts(w, f, k, b, LBlock(LBlock(b)), LoopTop(b), n, c);
    ReadyKept(w, k, b, b, c, c1);
    d := LoopRounds(w, f, k, b, s, fuel, c1);
    LandsAfter(w, f, k, b, b, LoopStatement(b, k, s), c, c1, d, 0, fuel, fuel, Exec(w, s, fuel, c.st));
  }

  lemma KeptRefl(n: Reg, c: Config)
    ensures Kept(n, c, c)
  {
  }

  /** One round of a LOOP. */
  lemma LoopUnfolds(w: World, s: Stmt, fuel: nat, st: State)
    requires s.Loop?
    ensures Exec(w, s, fuel, st) ==
            if fuel == 0 then Res(Timeout, st)
            else
              var r := ExecAll(w, s.body, fuel, st);
              if r.o.Normal? then Exec(w, s, fuel - 1, r.st) else if r.o.Exited? then Res(Normal, r.st) else r
  {
    hide ExecAll;
  }

  lemma {:induction false} LoopRounds(w: World, f: seq<Block>, k: Ctx, b: Low, s: Stmt, fuel: nat, c: Config) returns (d: Config)
    requires s.Loop? && Wf(s, k, b) && Ready(w, k, b, c) && c.blk == |Blocks(b)| && c.idx == 0 && Ext(Blocks(LoopStatement(b, k, s)), f)
    ensures Lands(w, f, k, b, LoopStatement(b, k, s), c, d, fuel, Exec(w, s, fuel, c.st))
    decreases fuel, s, 1
  {
    hide Ext, Reach, Names, Exec, ExecAll, LoopStatement, Surrounded, WfS, Kept, Ready;
    var z := LoopStatement(b, k, s);
    LoopUnfolds(w, s, fuel, c.st);
    if fuel == 0 {
      ReachRefl(w, f, Run(c));
      d := c;
    } else {
      d := LoopRound(w, f, k, b, s, fuel, c);
      var r := ExecAll(w, s.body, fuel, c.st);
      if r.o.Normal? {
        var c1 := d;
        d := LoopRounds(w, f, k, b, s, fuel - 1, c1);
        NextRound(w, f, k, b, z, c, c1, d, fuel, Exec(w, s, fuel - 1, r.st));
      }
    }
  }

  /** Once through the body: back at its beginning, or out. */
  lemma {:induction false} LoopRound(w: World, f: seq<Block>, k: Ctx, b: Low, s: Stmt, fuel: nat, c: Config) returns (d: Config)
    requires s.Loop? && Wf(s, k, b) && Ready(w, k, b, c) && c.blk == |Blocks(b)| && c.idx == 0 && Ext(Blocks(LoopStatement(b, k, s)), f)
    ensures var r := ExecAll(w, s.body, fuel, c.st);
            if r.o.Normal? then
              && Reach(w, f, 1, Run(c), Run(d)) && Kept(b.g.nextReg, c, d) && d.st == r.st
              && Ready(w, k, b, d) && d.blk == |Blocks(b)| && d.idx == 0
            else Lands(w, f, k, b, LoopStatement(b, k, s), c, d, fuel, if r.o.Exited? then Res(Normal, r.st) else r)
    decreases fuel, s, 0
  {
    hide Ext, Reach, Names, ExecAll, Statements, LoopTop, LoopEnd, Surrounded, WfSs, Kept;
    var n := |Blocks(b)|;
    var z := LoopStatement(b, k, s);
    var i := LoopTop(b);
    var o := Statements(i, k, s.body);
    ReachRefl(w, f, Run(c));
    KeptRefl(b.g.nextReg, c);
    ExtLoopEnd(o, n, n + 1, f);
    TopExt(b, k, s.body, f);
    TopShape(b);
    LoopEndShape(o, n, n + 1);
    ReadyKept(w, k, b, i, c, c);
    d := StatementsMeaning(w, f, k, i, s.body, fuel, c);
    var r := ExecAll(w, s.body, fuel, c.st);
    if r.o.Normal? {
      d := GotoStep(w, f, b.g.nextReg, LLeave(o), n, c, d);
      ReadyKept(w, k, b, b, c, d);
    } else {
      LoopLeft(w, f, k, b, i, o, z, c, c, d, fuel, r);
    }
  }

  // ---- REPEAT --------------------------------------------------------------------------------

  lemma UntilShape(o: Low, cond: Expr, top: BlockId, f: seq<Block>)
    requires Reserved(o, top + 1, top + 2) && Ext(Blocks(UntilTest(o, cond, top)), f)
    ensures var z := UntilTest(o, cond, top); z.g.current == top + 1 && Blocks(z)[top + 1] == EMPTY_BLOCK && !Closed(z)
    ensures Ext(Blocks(o), f)
    ensures !Closed(o) ==>
              var (t, c) := Expression(o, cond);
              Ext(Blocks(t), f) && Ext(Blocks(LEnd(t, CondBr(c, top + 1, top))), f) && Flows(o, t)
  {
    hide Ext, Expression;
    if Closed(o) {
      ReservedTake(o, top + 1, top + 1, top + 2);
    } else {
      var (t, c) := Expression(o, cond);
      GrowsExpression(o, cond);
      EndExt(t, CondBr(c, top + 1, top));
      ExtBack(t, LEnd(t, CondBr(c, top + 1, top)), f);
      ExtBack(o, t, f);
      ReservedGrows(o, t, top + 1, top + 2);
      ReservedEnd(t, CondBr(c, top + 1, top), top + 1, top + 2);
      ReservedTake(LEnd(t, CondBr(c, top + 1, top)), top + 1, top + 1, top + 2);
    }
  }

  lemma RepeatExt(b: Low, k: Ctx, s: Stmt, f: seq<Block>)
    requires s.Repeat? && Ext(Blocks(RepeatStatement(b, k, s)), f)
    ensures var n := |Blocks(b)|;
            var o := Statements(LoopTop(b), k, s.body);
            && Ext(Blocks(o), f) && Reserved(LLeave(o), n + 1, n + 2) && Ext(Blocks(LoopTop(b)), f) && GrowsLoops(LoopTop(b), o)
  {
    hide Ext, Statements, LoopTop, UntilTest;
    var n := |Blocks(b)|;
    var o := Statements(LoopTop(b), k, s.body);
    GrowsStatements(LoopTop(b), k, s.body);
    TopShape(b);
    ReservedGrows(LoopTop(b), o, n + 1, n + 2);
    ReservedEnd(o, Goto(n), n + 1, n + 2);
    UntilShape(LLeave(o), s.cond, n, f);
    ExtBack(LoopTop(b), o, f);
  }

  lemma {:induction false} RepeatMeaning(w: World, f: seq<Block>, k: Ctx, b: Low, s: Stmt, fuel: nat, c: Config) returns (d: Config)
    requires s.Repeat? && Wf(s, k, b) && Starts(w, f, k, b, c) && Ext(Blocks(RepeatStatement(b, k, s)), f)
    ensures Lands(w, f, k, b, RepeatStatement(b, k, s), c, d, fuel, Exec(w, s, fuel, c.st))
    decreases fuel, s, 3
  {
    hide Ext, Reach, Names, Exec, Lands, Statements, LoopTop, UntilTest, Surrounded, WfS;
    var n := |Blocks(b)|;
    RepeatExt(b, k, s, f);
    TopShape(b);
    var c1 := LoopStarts(w, f, k, b, LBlock(LBlock(b)), LoopTop(b), n, c);
    ReadyKept(w, k, b, b, c, c1);
    d := RepeatRounds(w, f, k, b, s, fuel, c1);
    LandsAfter(w, f, k, b, b, RepeatStatement(b, k, s), c, c1, d, 0, fuel, fuel, Exec(w, s, fuel, c.st));
  }

  lemma {:induction false} RepeatRounds(w: World, f: seq<Block>, k: Ctx, b: Low, s: Stmt, fuel: nat, c: Config) returns (d: Config)
    requires s.Repeat? && Wf(s, k, b) && Ready(w, k, b, c) && c.blk == |Blocks(b)| && c.idx == 0 && Ext(Blocks(RepeatStatement(b, k, s)), f)
    ensures Lands(w, f, k, b, RepeatStatement(b, k, s), c, d, fuel, Exec(w, s, fuel, c.st))
    decreases fuel, s, 2
  {
    hide Ext, Reach, Names, ExecAll, Eval, Statements, LoopTop, UntilTest, Surrounded, WfSs, WfE;
    var n := |Blocks(b)|;
    var z := RepeatStatement(b, k, s);
    ReachRefl(w, f, Run(c));
    d := c;
    if fuel > 0 {
      var i := LoopTop(b);
      var o := Statements(i, k, s.body);
      RepeatExt(b, k, s, f);
      TopShape(b);
      UntilShape(LLeave(o), s.cond, n, f);
      ReadyKept(w, k, b, i, c, c);
      d := StatementsMeaning(w, f, k, i, s.body, fuel, c);
      var r := ExecAll(w, s.body, fuel, c.st);
      if r.o.Normal? {
        SameLocalsAll(i, k, s.body, b.locals.Keys, true, k.retry.Some?);
        d := UntilMeaning(w, f, k, b, s, fuel, c, d, r.st);
      } else {
        LoopLeft(w, f, k, b, i, o, z, c, c, d, fuel, r);
      }
    }
  }

  /** From the end of the body: the test, and another round when it fails. */
  lemma {:induction false} UntilMeaning(w: World, f: seq<Block>, k: Ctx, b: Low, s: Stmt, fuel: nat, c: Config, c1: Config, st: State) returns (d: Config)
    requires s.Repeat? && Wf(s, k, b) && Ready(w, k, b, c) && Ext(Blocks(RepeatStatement(b, k, s)), f) && fuel > 0
    requires var o := Statements(LoopTop(b), k, s.body);
             !Closed(o) && Arrives(w, f, b, o, c, c1, st) && o.locals == b.locals
    ensures Lands(w, f, k, b, RepeatStatement(b, k, s), c, d, fuel,
                  match Eval(w, s.cond, st)
                  case Escaped(st1) => Res(Ended, st1)
                  case Val(v, st1) => if v != 0 then Res(Normal, st1) else Exec(w, s, fuel - 1, st1))
    decreases fuel, s, 1
  {
    hide Ext, Reach, Names, ExecAll, Exec, Eval, Statements, LoopTop, UntilTest, Surrounded, WfE, WfSs, Expression;
    var n := |Blocks(b)|;
    var z := RepeatStatement(b, k, s);
    var o := LLeave(Statements(LoopTop(b), k, s.body));
    RepeatExt(b, k, s, f);
    UntilShape(o, s.cond, n, f);
    TopShape(b);
    LongEnough(LoopTop(b), o);
    var (t, cr) := Expression(o, s.cond);
    ReadyKept(w, k, b, o, c, c1);
    d := ExpressionMeaning(w, f, o, s.cond, c1);
    match Eval(w, s.cond, st)
    case Escaped(st1) => ReachTrans(w, f, 0, 0, Run(c), Run(c1), Done(Aborted, st1));
    case Val(v, st1) =>
      ReachTrans(w, f, 0, 0, Run(c), Run(c1), Run(d));
      KeptTrans(b.g.nextReg, o.g.nextReg, c, c1, d);
      var c3 := BranchStep(w, f, b.g.nextReg, t, cr, n + 1, n, v, c, d);
      d := c3;
      if v == 0 {
        ReadyKept(w, k, b, b, c, c3);
        d := RepeatRounds(w, f, k, b, s, fuel - 1, c3);
        NextRound(w, f, k, b, z, c, c3, d, fuel, Exec(w, s, fuel - 1, st1));
      }
  }

  // ---- FOR -----------------------------------------------------------------------------------

  lemma ForExt(b1: Low, r: ForRegs, k: Ctx, body: seq<Stmt>, f: seq<Block>)
    requires Ext(Blocks(ForTail(Statements(ForIn(b1, r), k, body), r, |Blocks(b1)|)), f)
    ensures var o := Statements(ForIn(b1, r), k, body);
            && Ext(Blocks(ForHead(b1)), f) && Ext(Blocks(ForHeader(ForHead(b1), r).0), f) && Ext(Blocks(ForIn(b1, r)), f) && Ext(Blocks(b1), f)
            && GrowsLoops(ForIn(b1, r), o) && Reserved(o, |Blocks(b1)| + 2, |Blocks(b1)| + 4)
  {
    hide Ext, Statements, ForHeader, ForHead, ForIn, ForTail, ForRoom, LoopEnd, ForAdvance, ForFork;
    var n := |Blocks(b1)|;
    var i := ForIn(b1, r);
    var o := Statements(i, k, body);
    GrowsStatements(i, k, body);
    ForShape(b1, r);
    ReservedGrows(i, o, n + 2, n + 4);
    ForTailShape(o, r, n, f);
    ExtBack(i, o, f);
    var (t, c) := ForHeader(ForHead(b1), r);
    EndExt(t, CondBr(c, n + 1, n + 3));
    ExtTrans(Blocks(t), Blocks(i), f);
    ExtBack(ForHead(b1), t, f);
    GrowsForHead(b1);
    ExtBack(b1, ForHead(b1), f);
  }

  lemma {:induction false} ForStatementMeaning(w: World, f: seq<Block>, k: Ctx, b: Low, s: Stmt, fuel: nat, c: Config) returns (d: Config)
    requires s.For? && Wf(s, k, b) && Starts(w, f, k, b, c) && Ext(Blocks(ForStatement(b, k, s)), f)
    ensures Lands(w, f, k, b, ForStatement(b, k, s), c, d, fuel, Exec(w, s, fuel, c.st))
    decreases fuel, s, 2
  {
    hide Ext, Reach, Names, ExecFor, Eval, EvalOr, Statements, ForSetup, ForIn, ForTail, Surrounded, WfSs, WfE;
    var (b1, r) := ForSetup(b, s);
    ForExt(b1, r, k, s.body, f);
    GrowsForSetup(b, s);
    SameLocalsSetup(b, s);
    d := SetupMeaning(w, f, b, s, c);
    match EvalSetup(w, s, c.st)
    case Escaped(_) =>
    case Val(p, st) =>
      d := ForRun(w, f, k, b, b1, s, r, p.0, p.1, fuel, c, d);
  }

  /** From the end of the setup to the end of the loop. */
  lemma {:induction false} ForRun(w: World, f: seq<Block>, k: Ctx, b: Low, b1: Low, s: Stmt, r: ForRegs, last: I64, step: I64, fuel: nat, c: Config, c1: Config)
    returns (d: Config)
    requires s.For? && Wf(s, k, b) && Ready(w, k, b, c) && b1.locals == b.locals && GrowsLoops(b, b1)
    requires Ext(Blocks(ForTail(Statements(ForIn(b1, r), k, s.body), r, |Blocks(b1)|)), f)
    requires Arrives(w, f, b, b1, c, c1, c1.st) && !Closed(b1) && ForReady(b1, r, c1, Loc(w.env(s.x), 0), last, step)
    ensures Lands(w, f, k, b, ForTail(Statements(ForIn(b1, r), k, s.body), r, |Blocks(b1)|), c, d, fuel, ExecFor(w, s.x, last, step, s.body, fuel, c1.st))
    decreases fuel, s, 1
  {
    hide Ext, Reach, Names, ExecFor, Statements, ForIn, ForTail, ForHead, Surrounded, Lands, ForReady;
    var n := |Blocks(b1)|;
    var z := ForTail(Statements(ForIn(b1, r), k, s.body), r, n);
    ForExt(b1, r, k, s.body, f);
    ForShape(b1, r);
    LongEnough(b, b1);
    ReadyKept(w, k, b, b1, c, c1);
    var c2 := LoopStarts(w, f, k, b1, LBlock(LBlock(LBlock(LBlock(b1)))), ForHead(b1), n, c1);
    ReadyKept(w, k, b1, b1, c1, c2);
    ForReadyKept(b1, b1, r, c1, c2, Loc(w.env(s.x), 0), last, step);
    d := ForRounds(w, f, k, b1, s, r, last, step, fuel, c2);
    LandsAfter(w, f, k, b1, b1, z, c1, c2, d, 0, fuel, fuel, ExecFor(w, s.x, last, step, s.body, fuel, c1.st));
    LandsAfter(w, f, k, b, b1, z, c, c1, d, 0, fuel, fuel, ExecFor(w, s.x, last, step, s.body, fuel, c1.st));
  }

  /** What the rounds of a FOR need to know of its blocks. */
  lemma ForLayout(b: Low, r: ForRegs, k: Ctx, body: seq<Stmt>, f: seq<Block>)
    requires Ext(Blocks(ForTail(Statements(ForIn(b, r), k, body), r, |Blocks(b)|)), f)
    ensures var n := |Blocks(b)|;
            var i := ForIn(b, r);
            var o := Statements(i, k, body);
            var z := ForTail(o, r, n);
            && i.g.current == n + 1 && Blocks(i)[n + 1] == EMPTY_BLOCK && i.g.loops == b.g.loops + [LoopFrame(n + 3, n + 2)]
            && i.locals == b.locals && b.g.nextReg <= i.g.nextReg <= o.g.nextReg
            && Ext(Blocks(o), f) && Ext(Blocks(LEnd(LLeave(o), Goto(n + 2))), f) && Reserved(o, n + 2, n + 4)
            && z.g.current == n + 3 && Blocks(z)[n + 3] == EMPTY_BLOCK && !Closed(z)
  {
    hide Ext, Statements, ForHeader, ForHead, ForIn, ForTail, ForRoom, LoopEnd, ForAdvance, ForFork, Reserved;
    ForExt(b, r, k, body, f);
    ForShape(b, r);
    ForTailShape(Statements(ForIn(b, r), k, body), r, |Blocks(b)|, f);
    LongEnough(ForIn(b, r), Statements(ForIn(b, r), k, body));
  }

  /** The header's test, and the branch it takes. */
  lemma ForEntered(w: World, f: seq<Block>, k: Ctx, b: Low, body: seq<Stmt>, r: ForRegs, l: Loc, last: I64, step: I64, c: Config) returns (d: Config)
    requires c.blk == |Blocks(b)| && c.idx == 0 && ForReady(b, r, c, l, last, step)
    requires Ext(Blocks(ForTail(Statements(ForIn(b, r), k, body), r, |Blocks(b)|)), f)
    ensures Jumps(w, f, b.g.nextReg, c, d, if ForRuns(ReadCell(c.st, l), last, step) then |Blocks(b)| + 1 else |Blocks(b)| + 3, c.st)
  {
    hide Ext, Reach, Statements, ForIn, ForTail, ForHead, ForHeader, ForReady, ForRuns, Reserved;
    var n := |Blocks(b)|;
    ReachRefl(w, f, Run(c));
    ForExt(b, r, k, body, f);
    ForShape(b, r);
    var h := ForHead(b);
    var (t, cr) := ForHeader(h, r);
    ForReadyKept(b, h, r, c, c, l, last, step);
    var c1 := HeaderStep(w, f, h, r, c, l, last, step);
    d := BranchStep(w, f, b.g.nextReg, t, cr, n + 1, n + 3, FromBool(ForRuns(ReadCell(c.st, l), last, step)), c, c1);
  }

  lemma {:induction false} ForRounds(w: World, f: seq<Block>, k: Ctx, b: Low, s: Stmt, r: ForRegs, last: I64, step: I64, fuel: nat, c: Config) returns (d: Config)
    requires s.For? && Wf(s, k, b) && Ready(w, k, b, c) && c.blk == |Blocks(b)| && c.idx == 0
    requires Ext(Blocks(ForTail(Statements(ForIn(b, r), k, s.body), r, |Blocks(b)|)), f) && ForReady(b, r, c, Loc(w.env(s.x), 0), last, step)
    ensures Lands(w, f, k, b, ForTail(Statements(ForIn(b, r), k, s.body), r, |Blocks(b)|), c, d, fuel, ExecFor(w, s.x, last, step, s.body, fuel, c.st))
    decreases fuel, s.body, 3
  {
    hide Ext, Reach, Names, ExecAll, Statements, ForIn, ForTail, ForReady, Ready, WfS, ForRuns, StepFits, Wrap, Reserved, Arrives;
    var l := Loc(w.env(s.x), 0);
    ReachRefl(w, f, Run(c));
    d := c;
    if fuel > 0 {
      var z := ForTail(Statements(ForIn(b, r), k, s.body), r, |Blocks(b)|);
      var c2 := ForEntered(w, f, k, b, s.body, r, l, last, step, c);
      d := c2;
      if ForRuns(ReadCell(c.st, l), last, step) {
        d := ForBody(w, f, k, b, s, r, last, step, fuel, c, c2);
      } else {
        ForLayout(b, r, k, s.body, f);
        JumpArrives(w, f, b, z, c, d, |Blocks(b)| + 3, c.st);
      }
    }
  }

  lemma {:induction false} ForBody(w: World, f: seq<Block>, k: Ctx, b: Low, s: Stmt, r: ForRegs, last: I64, step: I64, fuel: nat, c: Config, c2: Config)
    returns (d: Config)
    requires s.For? && Wf(s, k, b) && Ready(w, k, b, c) && fuel > 0
    requires Ext(Blocks(ForTail(Statements(ForIn(b, r), k, s.body), r, |Blocks(b)|)), f) && ForReady(b, r, c, Loc(w.env(s.x), 0), last, step)
    requires Jumps(w, f, b.g.nextReg, c, c2, |Blocks(b)| + 1, c2.st)
    ensures var res := ExecAll(w, s.body, fuel, c2.st);
            var l := Loc(w.env(s.x), 0);
            var cur := ReadCell(res.st, l);
            Lands(w, f, k, b, ForTail(Statements(ForIn(b, r), k, s.body), r, |Blocks(b)|), c, d, fuel,
                  if res.o.Normal? then
                    (if StepFits(cur, last, step) then ExecFor(w, s.x, last, step, s.body, fuel - 1, WriteCell(res.st, l, Wrap(cur + step)))
                     else Res(Normal, res.st))
                  else if res.o.Exited? then Res(Normal, res.st) else res)
    decreases fuel, s.body, 2
  {
    hide Ext, Reach, Ready, ExecAll, ExecFor, Statements, ForIn, ForTail, ForReady, WfSs, WfE, StepFits, Wrap, Reserved;
    var n := |Blocks(b)|;
    var i := ForIn(b, r);
    var o := Statements(i, k, s.body);
    var z := ForTail(o, r, n);
    ForLayout(b, r, k, s.body, f);
    ReadyKept(w, k, b, i, c, c2);
    d := StatementsMeaning(w, f, k, i, s.body, fuel, c2);
    var res := ExecAll(w, s.body, fuel, c2.st);
    if res.o.Normal? {
      ReachTrans(w, f, 0, 0, Run(c), Run(c2), Run(d));
      KeptTrans(b.g.nextReg, i.g.nextReg, c, c2, d);
      var c3 := GotoStep(w, f, b.g.nextReg, LLeave(o), n + 2, c, d);
      d := ForNext(w, f, k, b, s, r, last, step, fuel, c, c3);
    } else {
      LoopLeft(w, f, k, b, i, o, z, c, c2, d, fuel, res);
    }
  }

  /** From the block behind the body `o`: the room test, and past it. */
  lemma ForTest(w: World, f: seq<Block>, b: Low, o: Low, r: ForRegs, n: BlockId, l: Loc, last: I64, step: I64, c: Config, c3: Config) returns (d: Config)
    requires Reserved(o, n + 2, n + 4) && b.g.nextReg <= o.g.nextReg && Ext(Blocks(ForTail(o, r, n)), f)
    requires ForReady(b, r, c, l, last, step) && Jumps(w, f, b.g.nextReg, c, c3, n + 2, c3.st)
    ensures var x := ReadCell(c3.st, l);
            var (t, cur, fits) := ForRoom(LoopEnd(o, n + 2, n + 2), r);
            && Jumps(w, f, b.g.nextReg, c, d, if StepFits(x, last, step) then |Blocks(t)| else n + 3, c3.st)
            && Holds(ForFork(t, fits, n), d, cur, Num(x))
  {
    hide Ext, Reach, ForTail, ForReady, StepFits, Wrap, LoopEnd, ForRoom, ForFork, ForAdvance, Reserved, Closed, Holds;
    ForTailShape(o, r, n, f);
    var p := LoopEnd(o, n + 2, n + 2);
    var (t, cur, fits) := ForRoom(p, r);
    var a := ForFork(t, fits, n);
    ForReadyKept(b, p, r, c, c3, l, last, step);
    var x := ReadCell(c3.st, l);
    var c4 := RoomStep(w, f, p, r, c3, l, last, step);
    ReachTrans(w, f, 0, 0, Run(c), Run(c3), Run(c4));
    KeptTrans(b.g.nextReg, p.g.nextReg, c, c3, c4);
    d := ForkStepFor(w, f, b.g.nextReg, t, fits, n, FromBool(StepFits(x, last, step)), c, c4);
    HoldsAcross(t, a, c4, d, cur, Num(x));
  }

  /** When another step fits: the advance, and back to the header. */
  lemma ForStepped(w: World, f: seq<Block>, b: Low, o: Low, r: ForRegs, n: BlockId, l: Loc, last: I64, step: I64, c: Config, c3: Config) returns (d: Config)
    requires Reserved(o, n + 2, n + 4) && b.g.nextReg <= o.g.nextReg && Ext(Blocks(ForTail(o, r, n)), f)
    requires ForReady(b, r, c, l, last, step) && Jumps(w, f, b.g.nextReg, c, c3, n + 2, c3.st)
    ensures var x := ReadCell(c3.st, l);
            if StepFits(x, last, step)
            then Jumps(w, f, b.g.nextReg, c, d, n, WriteCell(c3.st, l, Wrap(x + step))) && Reach(w, f, 1, Run(c), Run(d))
            else Jumps(w, f, b.g.nextReg, c, d, n + 3, c3.st)
  {
    hide Ext, Reach, ForTail, ForReady, StepFits, Wrap, LoopEnd, ForRoom, ForFork, ForAdvance, Reserved, Closed, Holds;
    ForTailShape(o, r, n, f);
    var (t, cur, fits) := ForRoom(LoopEnd(o, n + 2, n + 2), r);
    var a := ForFork(t, fits, n);
    var x := ReadCell(c3.st, l);
    d := ForTest(w, f, b, o, r, n, l, last, step, c, c3);
    if StepFits(x, last, step) {
      ForReadyKept(b, a, r, c, d, l, last, step);
      d := AdvanceStep(w, f, b.g.nextReg, a, r, cur, n, x, c, d, l, last, step);
    }
  }

  /** From the block behind the body: out of the loop, or one step on. */
  lemma {:induction false} ForNext(w: World, f: seq<Block>, k: Ctx, b: Low, s: Stmt, r: ForRegs, last: I64, step: I64, fuel: nat, c: Config, c3: Config)
    returns (d: Config)
    requires s.For? && Wf(s, k, b) && Ready(w, k, b, c) && fuel > 0
    requires Ext(Blocks(ForTail(Statements(ForIn(b, r), k, s.body), r, |Blocks(b)|)), f) && ForReady(b, r, c, Loc(w.env(s.x), 0), last, step)
    requires Jumps(w, f, b.g.nextReg, c, c3, |Blocks(b)| + 2, c3.st)
    ensures var l := Loc(w.env(s.x), 0);
            var cur := ReadCell(c3.st, l);
            Lands(w, f, k, b, ForTail(Statements(ForIn(b, r), k, s.body), r, |Blocks(b)|), c, d, fuel,
                  if StepFits(cur, last, step) then ExecFor(w, s.x, last, step, s.body, fuel - 1, WriteCell(c3.st, l, Wrap(cur + step)))
                  else Res(Normal, c3.st))
    decreases fuel, s.body, 1
  {
    hide Ext, Reach, ExecFor, Statements, ForIn, ForTail, ForReady, Ready, WfS, StepFits, Wrap, Reserved;
    var n := |Blocks(b)|;
    var l := Loc(w.env(s.x), 0);
    var o := Statements(ForIn(b, r), k, s.body);
    var z := ForTail(o, r, n);
    ForLayout(b, r, k, s.body, f);
    var x := ReadCell(c3.st, l);
    d := ForStepped(w, f, b, o, r, n, l, last, step, c, c3);
    if StepFits(x, last, step) {
      ReadyKept(w, k, b, b, c, d);
      ForReadyKept(b, b, r, c, d, l, last, step);
      var c6 := d;
      d := ForRounds(w, f, k, b, s, r, last, step, fuel - 1, c6);
      NextRound(w, f, k, b, z, c, c6, d, fuel, ExecFor(w, s.x, last, step, s.body, fuel - 1, c6.st));
    }
  }

  lemma HoldsAcross(t: Low, a: Low, c: Config, d: Config, r: Reg, v: Value)
    requires Holds(t, c, r, v) && d.regs == c.regs && a.g.nextReg == t.g.nextReg
    ensures Holds(a, d, r, v)
  {
  }

  lemma ForkStepFor(w: World, f: seq<Block>, m: Reg, t: Low, fits: Reg, n: BlockId, v: I64, c: Config, d: Config) returns (e: Config)
    requires !Closed(t) && At(d, t) && Ext(Blocks(ForFork(t, fits, n)), f) && Holds(t, d, fits, Num(v))
    requires Reach(w, f, 0, Run(c), Run(d)) && Kept(m, c, d)
    ensures Jumps(w, f, m, c, e, if v != 0 then |Blocks(t)| else n + 3, d.st) && e.regs == d.regs
  {
    hide Ext;
    AtSame(t, LBlock(t), d);
    EndStep(w, f, LBlock(t), CondBr(fits, |Blocks(t)|, n + 3), d);
    e := d.(blk := if v != 0 then |Blocks(t)| else n + 3, idx := 0);
    ReachTrans(w, f, 0, 0, Run(c), Run(d), Run(e));
  }

  // ---- IF ------------------------------------------------------------------------------------

  /** What running arms of an IF leads to: the end of the chosen body, or the
      state in which no condition held. */
  ghost predicate ArmLands(w: World, f: seq<Block>, k: Ctx, b: Low, b1: Low, c: Config, d: Config, fuel: nat, join: BlockId, res: ArmRes) {
    match res
    case Took(r) => if r.o.Normal? then Jumps(w, f, b.g.nextReg, c, d, join, r.st) else Lands(w, f, k, b, b1, c, d, fuel, r)
    case Fell(st) => Arrives(w, f, b, b1, c, d, st) && !Closed(b1)
  }

  lemma {:induction false} IfMeaning(w: World, f: seq<Block>, k: Ctx, b: Low, s: Stmt, fuel: nat, c: Config) returns (d: Config)
    requires s.If? && Wf(s, k, b) && Starts(w, f, k, b, c) && Ext(Blocks(IfStatement(b, k, s)), f)
    ensures Lands(w, f, k, b, IfStatement(b, k, s), c, d, fuel, Exec(w, s, fuel, c.st))
    decreases fuel, s, 2
  {
    hide Ext, Reach, Names, ExecArms, ExecAll, IfArms, Statements, Surrounded, WfE, WfSs;
    var join := |Blocks(b)|;
    var b0 := LBlock(b);
    var b1 := IfArms(b0, k, s.arms, s.els.ElseDo?, join);
    var z := IfStatement(b, k, s);
    IfShape(b, k, s, f);
    NewReserved(b);
    ReadyKept(w, k, b, b0, c, c);
    AtSame(b, b0, c);
    d := ArmsMeaning(w, f, k, b0, s.arms, s.els.ElseDo?, join, fuel, c);
    match ExecArms(w, s.arms, fuel, c.st)
    case Took(r) =>
      SomeArm(w, s.arms, fuel, c.st);
      if r.o.Normal? {
        JumpArrives(w, f, b, z, c, d, join, r.st);
      }
    case Fell(st) =>
      if s.els.ElseDo? {
        SameLocalsArms(b0, k, s.arms, true, join, b.locals.Keys, b.g.loops != [], k.retry.Some?);
        d := ElseMeaning(w, f, k, b, b1, s.els, join, fuel, c, d);
      }
  }

  lemma SomeArm(w: World, arms: seq<IfArm>, fuel: nat, st: State)
    requires ExecArms(w, arms, fuel, st).Took?
    ensures arms != []
  {
  }

  lemma NewReserved(b: Low)
    ensures Reserved(LBlock(b), |Blocks(b)|, |Blocks(b)| + 1) && Grows(b, LBlock(b))
  {
    GrowsRefl(b);
    GBlock(b, b);
  }

  lemma {:induction false} IfShape(b: Low, k: Ctx, s: Stmt, f: seq<Block>)
    requires s.If? && Ext(Blocks(IfStatement(b, k, s)), f)
    ensures var join := |Blocks(b)|;
            var b1 := IfArms(LBlock(b), k, s.arms, s.els.ElseDo?, join);
            var z := IfStatement(b, k, s);
            && Ext(Blocks(b1), f) && b.g.nextReg <= b1.g.nextReg && b1.g.loops == b.g.loops
            && (s.els.ElseDo? ==> z.g.current == join && Blocks(z)[join] == EMPTY_BLOCK && !Closed(z) && Ext(Blocks(Statements(b1, k, s.els.ss)), f)
                                  && Ext(Blocks(JumpTo(Statements(b1, k, s.els.ss), join)), f))
            && (s.els.NoElse? && s.arms != [] ==> z.g.current == join && Blocks(z)[join] == EMPTY_BLOCK && !Closed(z))
  {
    hide Ext, IfArms, Statements;
    var join := |Blocks(b)|;
    NewReserved(b);
    ArmsShape(LBlock(b), k, s.arms, s.els.ElseDo?, join);
    var b1 := IfArms(LBlock(b), k, s.arms, s.els.ElseDo?, join);
    GrowsRefl(b);
    GBlock(b, b);
    GrowsIfArms(b, LBlock(b), k, s.arms, s.els.ElseDo?, join);
    LongEnough(b, b1);
    if s.els.ElseDo? {
      var e := Statements(b1, k, s.els.ss);
      GrowsStatements(b1, k, s.els.ss);
      EndExt(e, Goto(join));
      ExtBack(e, LEnd(e, Goto(join)), f);
      ExtBack(b1, e, f);
      ElseReserved(b1, k, s.els.ss, join);
    }
  }

  lemma ElseReserved(b1: Low, k: Ctx, ss: seq<Stmt>, join: BlockId)
    requires Reserved(b1, join, join + 1)
    ensures var z := LSwitch(JumpTo(Statements(b1, k, ss), join), join);
            z.g.current == join && Blocks(z)[join] == EMPTY_BLOCK && !Closed(z)
  {
    hide Statements, Ext;
    var e := Statements(b1, k, ss);
    GrowsStatements(b1, k, ss);
    ReservedGrows(b1, e, join, join + 1);
    ReservedEnd(e, Goto(join), join, join + 1);
    ReservedTake(JumpTo(e, join), join, join, join + 1);
  }

  /** With an ELSE to come the join stays reserved; otherwise the last false edge is the join. */
  lemma {:induction false} ArmsShape(b: Low, k: Ctx, arms: seq<IfArm>, hasElse: bool, join: BlockId)
    requires Reserved(b, join, join + 1)
    ensures var z := IfArms(b, k, arms, hasElse, join);
            if hasElse || arms == [] then Reserved(z, join, join + 1)
            else z.g.current == join && Blocks(z)[join] == EMPTY_BLOCK && !Closed(z)
    decreases |arms|
  {
    hide OneIfArm, Ext;
    if arms != [] {
      var more := 1 < |arms| || hasElse;
      OneArmShape(b, k, arms[0], more, join);
      if more {
        ArmsShape(OneIfArm(b, k, arms[0], more, join), k, arms[1..], hasElse, join);
      }
    }
  }

  lemma OneArmShape(b: Low, k: Ctx, arm: IfArm, more: bool, join: BlockId)
    requires Reserved(b, join, join + 1)
    ensures var z := OneIfArm(b, k, arm, more, join);
            var target := if more then |Blocks(b)| + 1 else join;
            && z.g.current == target && Blocks(z)[target] == EMPTY_BLOCK && !Closed(z)
            && (more ==> Reserved(z, join, join + 1))
  {
    hide Ext, Expression, Statements, Reserved, Closed;
    var n := |Blocks(b)|;
    var target := if more then n + 1 else join;
    var b1 := if more then LBlock(LBlock(b)) else LBlock(b);
    var (b2, c) := Expression(b1, arm.cond);
    GrowsExpression(b1, arm.cond);
    ArmBlocks(b, more, join);
    ArmKeeps(b1, b2, c, k, arm, n, target, join, join);
    if more {
      ReservedPart(b1, n, n + 2, n + 1, n + 2);
      ArmKeeps(b1, b2, c, k, arm, n, target, join, n + 1);
    }
    var z := JumpTo(Statements(LSwitch(LEnd(b2, CondBr(c, n, target)), n), k, arm.body), join);
    ReservedTake(z, target, target, target + 1);
    if more {
      ReservedSwitch(z, target, join, join + 1);
    }
  }

  /** A block reserved besides the arm's own stays so through the arm. */
  lemma ArmKeeps(b1: Low, b2: Low, c: Reg, k: Ctx, arm: IfArm, n: BlockId, target: BlockId, join: BlockId, kept: BlockId)
    requires Reserved(b1, kept, kept + 1) && Grows(b1, b2) && kept != n
    ensures Reserved(JumpTo(Statements(LSwitch(LEnd(b2, CondBr(c, n, target)), n), k, arm.body), join), kept, kept + 1)
  {
    hide Ext, Statements, Reserved, Closed;
    var b3 := LSwitch(LEnd(b2, CondBr(c, n, target)), n);
    var b4 := Statements(b3, k, arm.body);
    GrowsStatements(b3, k, arm.body);
    ReservedGrows(b1, b2, kept, kept + 1);
    ReservedEnd(b2, CondBr(c, n, target), kept, kept + 1);
    ReservedSwitch(LEnd(b2, CondBr(c, n, target)), n, kept, kept + 1);
    ReservedGrows(b3, b4, kept, kept + 1);
    ReservedEnd(b4, Goto(join), kept, kept + 1);
  }

  lemma ArmBlocks(b: Low, more: bool, join: BlockId)
    requires Reserved(b, join, join + 1)
    ensures var b1 := if more then LBlock(LBlock(b)) else LBlock(b);
            Reserved(b1, join, join + 1) && Reserved(b1, |Blocks(b)|, |Blocks(b1)|) && join < |Blocks(b)|
            && b1.g.current == b.g.current && Blocks(b1)[b.g.current] == Blocks(b)[b.g.current]
            && b1.g.nextReg == b.g.nextReg && b1.locals == b.locals && b1.g.loops == b.g.loops
  {
  }

  lemma {:induction false} ArmsMeaning(w: World, f: seq<Block>, k: Ctx, b: Low, arms: seq<IfArm>, hasElse: bool, join: BlockId, fuel: nat, c: Config)
    returns (d: Config)
    requires (forall a :: a in arms ==> WfE(a.cond) && WfAll(a.body, k, b))
    requires Starts(w, f, k, b, c) && Ext(Blocks(IfArms(b, k, arms, hasElse, join)), f) && Reserved(b, join, join + 1)
    ensures ArmLands(w, f, k, b, IfArms(b, k, arms, hasElse, join), c, d, fuel, join, ExecArms(w, arms, fuel, c.st))
    decreases fuel, arms, 1
  {
    hide Ext, Reach, Names, ExecAll, Eval, OneIfArm, Surrounded, WfE, WfSs;
    if arms == [] {
      ArrivesRefl(w, f, b, c);
      d := c;
    } else {
      var more := 1 < |arms| || hasElse;
      var b1 := OneIfArm(b, k, arms[0], more, join);
      var z := IfArms(b1, k, arms[1..], hasElse, join);
      GrowsRefl(b1);
      GrowsRefl(b);
      GrowsOneIfArm0(b, b1, k, arms, hasElse, join, f);
      OneArmShape(b, k, arms[0], more, join);
      d := OneArmMeaning(w, f, k, b, arms[0], more, join, fuel, c);
      match Eval(w, arms[0].cond, c.st)
      case Escaped(_) =>
      case Val(v, st) =>
        if v == 0 {
          var c1 := d;
          SameLocalsArm(b, k, arms[0], more, join, b.locals.Keys, b.g.loops != [], k.retry.Some?);
          ReadyKept(w, k, b, b1, c, c1);
          if more {
            d := ArmsMeaning(w, f, k, b1, arms[1..], hasElse, join, fuel, c1);
            ArmLandsAfter(w, f, k, b, b1, z, c, c1, d, fuel, join, ExecArms(w, arms[1..], fuel, st));
          }
        }
    }
  }

  lemma ArmLandsAfter(w: World, f: seq<Block>, k: Ctx, b: Low, b1: Low, z: Low, c: Config, c1: Config, d: Config, fuel: nat, join: BlockId, res: ArmRes)
    requires Arrives(w, f, b, b1, c, c1, c1.st) && b.g.nextReg <= b1.g.nextReg && b1.g.loops == b.g.loops
    requires ArmLands(w, f, k, b1, z, c1, d, fuel, join, res)
    ensures ArmLands(w, f, k, b, z, c, d, fuel, join, res)
  {
    hide Reach;
    match res
    case Fell(st) => ArrivesTrans(w, f, b, b1, z, c, c1, d, c1.st, st);
    case Took(r) =>
      if r.o.Normal? {
        ReachTrans(w, f, 0, 0, Run(c), Run(c1), Run(d));
        KeptTrans(b.g.nextReg, b1.g.nextReg, c, c1, d);
      } else {
        LandsAfter(w, f, k, b, b1, z, c, c1, d, 0, fuel, fuel, r);
      }
  }

  lemma GrowsOneIfArm0(b: Low, b1: Low, k: Ctx, arms: seq<IfArm>, hasElse: bool, join: BlockId, f: seq<Block>)
    requires arms != [] && b1 == OneIfArm(b, k, arms[0], 1 < |arms| || hasElse, join) && Reserved(b, join, join + 1)
    requires Ext(Blocks(IfArms(b1, k, arms[1..], hasElse, join)), f)
    ensures Ext(Blocks(b1), f) && b.g.nextReg <= b1.g.nextReg && b1.g.loops == b.g.loops
  {
    hide OneIfArm, IfArms, Ext, Statements, Expression;
    var z := IfArms(b1, k, arms[1..], hasElse, join);
    ExtArms(b1, k, arms[1..], hasElse, join);
    ExtTrans(Blocks(b1), Blocks(z), f);
    OneArmRegs(b, k, arms[0], 1 < |arms| || hasElse, join);
  }

  lemma OneArmRegs(b: Low, k: Ctx, arm: IfArm, more: bool, join: BlockId)
    ensures var z := OneIfArm(b, k, arm, more, join); b.g.nextReg <= z.g.nextReg && z.g.loops == b.g.loops && Ext(Blocks(b), Blocks(z))
  {
    hide Ext, Expression, Statements;
    var n := |Blocks(b)|;
    var target := if more then n + 1 else join;
    var b1 := if more then LBlock(LBlock(b)) else LBlock(b);
    var (b2, c) := Expression(b1, arm.cond);
    GrowsRefl(b);
    GBlock(b, b);
    GBlock(b, LBlock(b));
    GrowsExpression(b1, arm.cond);
    GrowsTrans(b, b1, b2);
    GEnd(b, b2, CondBr(c, n, target));
    var b3 := LSwitch(LEnd(b2, CondBr(c, n, target)), n);
    GSwitch(b, LEnd(b2, CondBr(c, n, target)), n);
    var b4 := Statements(b3, k, arm.body);
    GrowsStatements(b3, k, arm.body);
    GrowsTrans(b, b3, b4);
    GEnd(b, b4, Goto(join));
    LongEnough(b, JumpTo(b4, join));
  }

  lemma {:induction false} ExtArms(b: Low, k: Ctx, arms: seq<IfArm>, hasElse: bool, join: BlockId)
    ensures Ext(Blocks(b), Blocks(IfArms(b, k, arms, hasElse, join)))
    decreases |arms|
  {
    hide Ext, OneIfArm;
    ExtRefl(Blocks(b));
    if arms != [] {
      var b1 := OneIfArm(b, k, arms[0], 1 < |arms| || hasElse, join);
      OneArmRegs(b, k, arms[0], 1 < |arms| || hasElse, join);
      ExtArms(b1, k, arms[1..], hasElse, join);
      ExtTrans(Blocks(b), Blocks(b1), Blocks(IfArms(b1, k, arms[1..], hasElse, join)));
    }
  }

  lemma {:induction false} OneArmMeaning(w: World, f: seq<Block>, k: Ctx, b: Low, arm: IfArm, more: bool, join: BlockId, fuel: nat, c: Config) returns (d: Config)
    requires WfE(arm.cond) && WfAll(arm.body, k, b) && Starts(w, f, k, b, c)
    requires Ext(Blocks(OneIfArm(b, k, arm, more, join)), f) && Reserved(b, join, join + 1)
    ensures ArmLands(w, f, k, b, OneIfArm(b, k, arm, more, join), c, d, fuel, join,
                     match Eval(w, arm.cond, c.st)
                     case Escaped(st1) => Took(Res(Ended, st1))
                     case Val(v, st1) => if v != 0 then Took(ExecAll(w, arm.body, fuel, st1)) else Fell(st1))
    decreases fuel, arm, 1
  {
    hide Ext, Reach, Names, ExecAll, Eval, Expression, Statements, Surrounded, WfE, WfSs;
    var n := |Blocks(b)|;
    var target := if more then n + 1 else join;
    var z := OneIfArm(b, k, arm, more, join);
    var b1 := if more then LBlock(LBlock(b)) else LBlock(b);
    var (b2, cr) := Expression(b1, arm.cond);
    var b3 := LSwitch(LEnd(b2, CondBr(cr, n, target)), n);
    OneArmShape(b, k, arm, more, join);
    ArmBlocks(b, more, join);
    ArmExt(b, k, arm, more, join, f);
    AtSame(b, b1, c);
    ReadyKept(w, k, b, b1, c, c);
    d := ExpressionMeaning(w, f, b1, arm.cond, c);
    match Eval(w, arm.cond, c.st)
    case Escaped(_) =>
    case Val(v, st) =>
      var c2 := BranchStep(w, f, b.g.nextReg, b2, cr, n, target, v, c, d);
      d := c2;
      if v != 0 {
        ReadyKept(w, k, b, b3, c, c2);
        d := StatementsMeaning(w, f, k, b3, arm.body, fuel, c2);
        BodyToJoin(w, f, k, b, b3, Statements(b3, k, arm.body), c, c2, d, join, fuel, ExecAll(w, arm.body, fuel, st));
        d := BodyJump(w, f, k, b, b3, Statements(b3, k, arm.body), z, c, c2, d, join, fuel, ExecAll(w, arm.body, fuel, st));
      }
  }

  lemma BodyToJoin(w: World, f: seq<Block>, k: Ctx, b: Low, b3: Low, o: Low, c: Config, c2: Config, d: Config, join: BlockId, fuel: nat, r: Res)
    requires Reach(w, f, 0, Run(c), Run(c2)) && Kept(b.g.nextReg, c, c2) && b.g.nextReg <= b3.g.nextReg && b3.g.loops == b.g.loops
    requires Lands(w, f, k, b3, o, c2, d, fuel, r)
    ensures Lands(w, f, k, b, o, c, d, fuel, r)
  {
    LandsAfter(w, f, k, b, b3, o, c, c2, d, 0, fuel, fuel, r);
  }

  /** The jump behind a body that came to its end. */
  lemma BodyJump(w: World, f: seq<Block>, k: Ctx, b: Low, b3: Low, o: Low, z: Low, c: Config, c2: Config, d: Config, join: BlockId, fuel: nat, r: Res) returns (e: Config)
    requires Lands(w, f, k, b, o, c, d, fuel, r) && Ext(Blocks(JumpTo(o, join)), f)
    ensures ArmLands(w, f, k, b, z, c, e, fuel, join, Took(r))
  {
    hide Ext, Reach;
    e := d;
    if r.o.Normal? {
      e := GotoStep(w, f, b.g.nextReg, o, join, c, d);
    }
  }

  lemma ArmExt(b: Low, k: Ctx, arm: IfArm, more: bool, join: BlockId, f: seq<Block>)
    requires Ext(Blocks(OneIfArm(b, k, arm, more, join)), f) && Reserved(b, join, join + 1)
    ensures var n := |Blocks(b)|;
            var target := if more then n + 1 else join;
            var b1 := if more then LBlock(LBlock(b)) else LBlock(b);
            var (b2, c) := Expression(b1, arm.cond);
            var b3 := LSwitch(LEnd(b2, CondBr(c, n, target)), n);
            var o := Statements(b3, k, arm.body);
            && Ext(Blocks(b2), f) && Ext(Blocks(LEnd(b2, CondBr(c, n, target))), f) && Ext(Blocks(o), f) && Ext(Blocks(JumpTo(o, join)), f)
            && Flows(b1, b2) && b.g.nextReg <= b2.g.nextReg == b3.g.nextReg
            && b3.g.current == n && Blocks(b3)[n] == EMPTY_BLOCK && !Closed(b3) && b3.locals == b.locals && b3.g.loops == b.g.loops
  {
    hide Ext, Expression, Statements;
    var n := |Blocks(b)|;
    var target := if more then n + 1 else join;
    var b1 := if more then LBlock(LBlock(b)) else LBlock(b);
    var (b2, c) := Expression(b1, arm.cond);
    var t := CondBr(c, n, target);
    var b3 := LSwitch(LEnd(b2, t), n);
    var o := Statements(b3, k, arm.body);
    GrowsExpression(b1, arm.cond);
    LongEnough(b1, b2);
    GrowsStatements(b3, k, arm.body);
    EndExt(o, Goto(join));
    ExtBack(o, JumpTo(o, join), f);
    ExtBack(b3, o, f);
    EndExt(b2, t);
    ExtBack(b2, LEnd(b2, t), f);
    ArmBlocks(b, more, join);
    ReservedGrows(b1, b2, n, |Blocks(b1)|);
    ReservedEnd(b2, t, n, |Blocks(b1)|);
    ReservedTake(LEnd(b2, t), n, n, |Blocks(b1)|);
  }

  lemma {:induction false} ElseMeaning(w: World, f: seq<Block>, k: Ctx, b: Low, b1: Low, els: Else, join: BlockId, fuel: nat, c: Config, c1: Config) returns (d: Config)
    requires els.ElseDo? && WfAll(els.ss, k, b1) && Ready(w, k, b, c) && Arrives(w, f, b, b1, c, c1, c1.st) && !Closed(b1)
    requires b1.locals == b.locals && b.g.nextReg <= b1.g.nextReg && b1.g.loops == b.g.loops
    requires var o := Statements(b1, k, els.ss);
             var z := LSwitch(JumpTo(o, join), join);
             Ext(Blocks(o), f) && Ext(Blocks(JumpTo(o, join)), f) && z.g.current == join && Blocks(z)[join] == EMPTY_BLOCK && !Closed(z)
    ensures Lands(w, f, k, b, LSwitch(JumpTo(Statements(b1, k, els.ss), join), join), c, d, fuel, ExecAll(w, els.ss, fuel, c1.st))
    decreases fuel, els, 1
  {
    hide Ext, Reach, Names, ExecAll, Statements, Surrounded, WfSs;
    var o := Statements(b1, k, els.ss);
    var z := LSwitch(JumpTo(o, join), join);
    var r := ExecAll(w, els.ss, fuel, c1.st);
    ReadyKept(w, k, b, b1, c, c1);
    d := StatementsMeaning(w, f, k, b1, els.ss, fuel, c1);
    BodyToJoin(w, f, k, b, b1, o, c, c1, d, join, fuel, r);
    d := BodyJump(w, f, k, b, b1, o, z, c, c1, d, join, fuel, r);
    if r.o.Normal? {
      JumpArrives(w, f, b, z, c, d, join, r.st);
    }
  }

  // ---- CASE ------------------------------------------------------------------------------------

  lemma CaseExt(b: Low, k: Ctx, s: Stmt, f: seq<Block>)
    requires s.Case? && Ext(Blocks(CaseStatement(b, k, s)), f)
    ensures var (b1, v) := Expression(b, s.scrutinee);
            var join := |Blocks(b1)|;
            var b2 := CaseDispatch(b1, v, s.carms);
            var b3 := CaseArms(b2, k, s.carms, join + 2, join);
            && Ext(Blocks(b1), f) && Ext(Blocks(b2), f) && Ext(Blocks(b3), f) && Ext(Blocks(CaseElse(LSwitch(b3, join + 1), k, s.els, join)), f)
            && Flows(b, b1) && GrowsLoops(b1, b2) && b2.locals == b.locals && b.g.nextReg <= b1.g.nextReg <= b2.g.nextReg <= b3.g.nextReg
            && Reserved(b2, join, join + 2 + |s.carms|) && b3.g.loops == b.g.loops
  {
    hide Ext, Expression, Statements, CaseDispatch, CaseArms, CaseElse;
    var (b1, v) := Expression(b, s.scrutinee);
    var join := |Blocks(b1)|;
    var b2 := CaseDispatch(b1, v, s.carms);
    var b3 := CaseArms(b2, k, s.carms, join + 2, join);
    GrowsExpression(b, s.scrutinee);
    LongEnough(b, b1);
    GrowsCaseDispatch(b1, v, s.carms);
    LongEnough(b1, b2);
    GrowsCaseArms(b1, b2, k, s.carms, join + 2, join);
    ArmsExt(b2, k, s.carms, join + 2, join);
    GrowsCaseElse(LSwitch(b3, join + 1), k, s.els, join);
    ExtTrans(Blocks(b3), Blocks(CaseElse(LSwitch(b3, join + 1), k, s.els, join)), f);
    ExtTrans(Blocks(b2), Blocks(b3), f);
    ExtBack(b1, b2, f);
    DispatchShape(b1, v, s.carms);
  }

  lemma DispatchShape(b: Low, v: Reg, arms: seq<CaseArm>)
    ensures var n := |Blocks(b)|; Reserved(CaseDispatch(b, v, arms), n, n + 2 + |arms|)
    ensures CaseDispatch(b, v, arms).locals == b.locals
  {
    hide Ext, RangeTests, AddBlocks, Ranges, Singles;
    var n := |Blocks(b)|;
    var b1 := AddBlocks(b, 2 + |arms|);
    GrowsAddBlocks(b, 2 + |arms|);
    var b2 := RangeTests(b1, v, Ranges(arms, n + 2));
    GrowsRangeTests(b1, v, Ranges(arms, n + 2));
    ReservedGrows(b1, b2, n, n + 2 + |arms|);
    ReservedEnd(b2, Switch(v, Singles(arms, n + 2), n + 1), n, n + 2 + |arms|);
  }

  lemma {:induction false} ArmsExt(b: Low, k: Ctx, arms: seq<CaseArm>, first: BlockId, join: BlockId)
    ensures Ext(Blocks(b), Blocks(CaseArms(b, k, arms, first, join))) && b.g.nextReg <= CaseArms(b, k, arms, first, join).g.nextReg
    decreases |arms|
  {
    hide Ext, Statements;
    ExtRefl(Blocks(b));
    if arms != [] {
      var b1 := LSwitch(b, first);
      var o := Statements(b1, k, arms[0].body);
      GrowsStatements(b1, k, arms[0].body);
      LongEnough(b1, o);
      EndExt(o, Goto(join));
      ExtTrans(Blocks(b), Blocks(o), Blocks(JumpTo(o, join)));
      ArmsExt(JumpTo(o, join), k, arms[1..], first + 1, join);
      ExtTrans(Blocks(b), Blocks(JumpTo(o, join)), Blocks(CaseArms(b, k, arms, first, join)));
    }
  }

  /** Reserved blocks no arm owns stay reserved. */
  lemma {:induction false} ArmsReserve(b: Low, k: Ctx, arms: seq<CaseArm>, first: BlockId, join: BlockId, lo: BlockId, hi: BlockId)
    requires Reserved(b, lo, hi) && (hi <= first || first + |arms| <= lo)
    ensures Reserved(CaseArms(b, k, arms, first, join), lo, hi)
    decreases |arms|
  {
    hide Ext, Statements;
    if arms != [] {
      var b1 := LSwitch(b, first);
      var o := Statements(b1, k, arms[0].body);
      ReservedSwitch(b, first, lo, hi);
      GrowsStatements(b1, k, arms[0].body);
      ReservedGrows(b1, o, lo, hi);
      ReservedEnd(o, Goto(join), lo, hi);
      ArmsReserve(JumpTo(o, join), k, arms[1..], first + 1, join, lo, hi);
    }
  }

  lemma {:induction false} CaseStatementMeaning(w: World, f: seq<Block>, k: Ctx, b: Low, s: Stmt, fuel: nat, c: Config) returns (d: Config)
    requires s.Case? && Wf(s, k, b) && Starts(w, f, k, b, c) && Ext(Blocks(CaseStatement(b, k, s)), f)
    ensures Lands(w, f, k, b, CaseStatement(b, k, s), c, d, fuel, Exec(w, s, fuel, c.st))
    decreases fuel, s, 2
  {
    hide Ext, Reach, Names, ExecAll, Eval, Pick, Reading, Selected, Expression, CaseDispatch, CaseArms, CaseElse, Surrounded, WfE, WfSs, GoodLabels;
    var (b1, v) := Expression(b, s.scrutinee);
    var join := |Blocks(b1)|;
    var b2 := CaseDispatch(b1, v, s.carms);
    var z := CaseStatement(b, k, s);
    CaseExt(b, k, s, f);
    CaseJoin(b2, k, s, join);
    d := ExpressionMeaning(w, f, b, s.scrutinee, c);
    match Eval(w, s.scrutinee, c.st)
    case Escaped(_) =>
    case Val(x, st) =>
      var c1 := d;
      d := DispatchStep(w, f, b1, v, s.carms, x, c1);
      SelectionAgrees(s.carms, s.cardinal, join + 2, join + 1, x);
      ReachTrans(w, f, 0, 0, Run(c), Run(c1), Run(d));
      KeptTrans(b.g.nextReg, b1.g.nextReg, c, c1, d);
      match Pick(s.carms, Reading(s.cardinal, x))
      case Some(i) => d := CaseArmMeaning(w, f, k, b, b2, s.carms, join + 2, join, i, z, fuel, c, d);
      case None => d := CaseElseMeaning(w, f, k, b, b2, s, join, z, fuel, c, d);
  }

  /** The statement ends in its join, which nothing has touched. */
  lemma CaseJoin(b2: Low, k: Ctx, s: Stmt, join: BlockId)
    requires s.Case? && Reserved(b2, join, join + 2 + |s.carms|)
    ensures var z := CaseBodies(b2, k, s, join);
            z.g.current == join && Blocks(z)[join] == EMPTY_BLOCK && !Closed(z)
    ensures var b4 := LSwitch(CaseArms(b2, k, s.carms, join + 2, join), join + 1);
            b4.g.current == join + 1 && Blocks(b4)[join + 1] == EMPTY_BLOCK && !Closed(b4)
  {
    hide Ext, CaseArms, CaseElse;
    var b3 := CaseArms(b2, k, s.carms, join + 2, join);
    ReservedPart(b2, join, join + 2 + |s.carms|, join, join + 2);
    ArmsReserve(b2, k, s.carms, join + 2, join, join, join + 2);
    ReservedTake(b3, join + 1, join, join + 2);
    var b4 := LSwitch(b3, join + 1);
    ReservedPart(b3, join, join + 2, join, join + 1);
    ReservedSwitch(b3, join + 1, join, join + 1);
    GrowsCaseElse(b4, k, s.els, join);
    ReservedGrows(b4, CaseElse(b4, k, s.els, join), join, join + 1);
    ReservedTake(CaseElse(b4, k, s.els, join), join, join, join + 1);
  }

  lemma {:induction false} CaseElseMeaning(w: World, f: seq<Block>, k: Ctx, b: Low, b2: Low, s: Stmt, join: BlockId, z: Low, fuel: nat, c: Config, c2: Config)
    returns (d: Config)
    requires s.Case? && Wf(s, k, b) && Ready(w, k, b, c) && b2.locals == b.locals && b.g.nextReg <= b2.g.nextReg && b2.g.loops == b.g.loops
    requires Jumps(w, f, b.g.nextReg, c, c2, join + 1, c2.st) && Reserved(b2, join, join + 2 + |s.carms|)
    requires z == CaseBodies(b2, k, s, join) && Ext(Blocks(CaseElse(LSwitch(CaseArms(b2, k, s.carms, join + 2, join), join + 1), k, s.els, join)), f)
    ensures Lands(w, f, k, b, z, c, d, fuel,
                  if s.els.ElseDo? then ExecAll(w, s.els.ss, fuel, c2.st) else Res(Ended, Raise(w, CASE_EXCEPTION, c2.st)))
    decreases fuel, s, 1
  {
    hide Ext, Reach, Names, ExecAll, CaseArms, Surrounded, WfE, WfSs, GoodLabels, RaiseM2, Statements;
    var b4 := LSwitch(CaseArms(b2, k, s.carms, join + 2, join), join + 1);
    CaseJoin(b2, k, s, join);
    ArmsExt(b2, k, s.carms, join + 2, join);
    SameLocalsCaseArms(b2, k, s.carms, join + 2, join, b.locals.Keys, b.g.loops != [], k.retry.Some?);
    ArmsLoops(b2, k, s.carms, join + 2, join);
    if s.els.ElseDo? {
      var o := Statements(b4, k, s.els.ss);
      GrowsStatements(b4, k, s.els.ss);
      EndExt(o, Goto(join));
      ExtBack(o, JumpTo(o, join), f);
      d := ElseMeaning(w, f, k, b, b4, s.els, join, fuel, c, c2);
    } else {
      d := c2;
      RaiseStep(w, f, b4, CASE_EXCEPTION, c2);
      ReachTrans(w, f, 0, 0, Run(c), Run(c2), Done(Aborted, Raise(w, CASE_EXCEPTION, c2.st)));
    }
  }

  lemma {:induction false} ArmsLoops(b: Low, k: Ctx, arms: seq<CaseArm>, first: BlockId, join: BlockId)
    ensures CaseArms(b, k, arms, first, join).g.loops == b.g.loops
    decreases |arms|
  {
    hide Ext, Statements;
    if arms != [] {
      GrowsStatements(LSwitch(b, first), k, arms[0].body);
      ArmsLoops(JumpTo(Statements(LSwitch(b, first), k, arms[0].body), join), k, arms[1..], first + 1, join);
    }
  }

  /** From the start of arm `i`'s block through its body to the join. */
  lemma {:induction false} CaseArmMeaning(w: World, f: seq<Block>, k: Ctx, b: Low, b2: Low, arms: seq<CaseArm>, first: BlockId, join: BlockId,
                                          i: nat, z: Low, fuel: nat, c: Config, c2: Config) returns (d: Config)
    requires i < |arms| && (forall a :: a in arms ==> WfAll(a.body, k, b))
    requires Ready(w, k, b, c) && b2.locals == b.locals && b.g.nextReg <= b2.g.nextReg && b2.g.loops == b.g.loops
    requires Jumps(w, f, b.g.nextReg, c, c2, first + i, c2.st) && Reserved(b2, first, first + |arms|)
    requires Ext(Blocks(CaseArms(b2, k, arms, first, join)), f) && z.g.current == join && Blocks(z)[join] == EMPTY_BLOCK
    ensures Lands(w, f, k, b, z, c, d, fuel, ExecAll(w, arms[i].body, fuel, c2.st))
    decreases fuel, arms, 1
  {
    hide Ext, Reach, Names, ExecAll, Statements, Surrounded, WfSs, WfE, Reserved;
    var b3 := LSwitch(b2, first);
    var o := Statements(b3, k, arms[0].body);
    var b4 := JumpTo(o, join);
    var rest := CaseArms(b4, k, arms[1..], first + 1, join);
    ReservedTake(b2, first, first, first + |arms|);
    GrowsStatements(b3, k, arms[0].body);
    ArmsExt(b4, k, arms[1..], first + 1, join);
    ExtTrans(Blocks(b4), Blocks(rest), f);
    EndExt(o, Goto(join));
    ExtBack(o, b4, f);
    if i == 0 {
      ReadyKept(w, k, b, b3, c, c2);
      d := StatementsMeaning(w, f, k, b3, arms[0].body, fuel, c2);
      var r := ExecAll(w, arms[0].body, fuel, c2.st);
      BodyToJoin(w, f, k, b, b3, o, c, c2, d, join, fuel, r);
      d := BodyJump(w, f, k, b, b3, o, z, c, c2, d, join, fuel, r);
    } else {
      LongEnough(b3, o);
      SameLocalsAll(b3, k, arms[0].body, b.locals.Keys, b.g.loops != [], k.retry.Some?);
      ReservedPart(b2, first, first + |arms|, first + 1, first + |arms|);
      ReservedSwitch(b2, first, first + 1, first + |arms|);
      ReservedGrows(b3, o, first + 1, first + |arms|);
      ReservedEnd(o, Goto(join), first + 1, first + |arms|);
      d := CaseArmMeaning(w, f, k, b, b4, arms[1..], first + 1, join, i - 1, z, fuel, c, c2);
    }
  }
}
