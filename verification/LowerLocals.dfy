/** Statements over variables that have storage of their own bind no new storage. */
module LowerLocals {
  import opened Ir
  import opened Machine
  import opened Source
  import opened LowerSpec
  import opened LowerGrow

  // ---- Statements over their own variables bind no new storage ------------------------

  lemma {:induction false} SameLocalsAll(b: Low, k: Ctx, ss: seq<Stmt>, own: set<string>, l: bool, h: bool)
    requires WfSs(ss, own, l, h) && own <= b.locals.Keys
    ensures Statements(b, k, ss).locals == b.locals
    decreases ss, 0
  {
    if ss != [] && !Closed(b) {
      SameLocals(b, k, ss[0], own, l, h);
      SameLocalsAll(Statement(b, k, ss[0]), k, ss[1..], own, l, h);
    }
  }

  lemma {:induction false} SameLocals(b: Low, k: Ctx, s: Stmt, own: set<string>, l: bool, h: bool)
    requires WfS(s, own, l, h) && own <= b.locals.Keys
    ensures Statement(b, k, s).locals == b.locals
    decreases s, 1
  {
    hide Ext, Grows, IfStatement, WhileStatement, RepeatStatement, ForStatement, LoopStatement, CaseStatement;
    match s
    case If(_, _) => SameLocalsIf(b, k, s, own, l, h);
    case While(_, _) => SameLocalsWhile(b, k, s, own, l, h);
    case Repeat(_, _) => SameLocalsRepeat(b, k, s, own, l, h);
    case For(_, _, _, _, _) => SameLocalsFor(b, k, s, own, l, h);
    case Loop(_) => SameLocalsAll(LoopTop(b), k, s.body, own, true, h); SameLocalsLoop(b, k, s);
    case Case(_, _, _, _) => SameLocalsCase(b, k, s, own, l, h);
    case _ => SameLocalsSimple(b, k, s);
  }

  lemma SameLocalsSimple(b: Low, k: Ctx, s: Stmt)
    requires !s.If? && !s.While? && !s.Repeat? && !s.For? && !s.Loop? && !s.Case?
    ensures Statement(b, k, s).locals == b.locals
  {
    hide Ext, Grows, Expression, Address, ExpressionOr;
    match s
    case Assign(d, e) => GrowsAssignment(b, d, e);
    case CallS(f, args) => GrowsExpression(b, CallE(f, args));
    case IncDec(d, amount, up) => GrowsIncrement(b, d, amount, up);
    case Assert(e) => GrowsExpression(b, e);
    case Halt(code) => GrowsExpressionOr(b, code, 1);
    case Return(val) => if val.Some? { GrowsExpression(b, val.value); }
    case _ =>
  }

  lemma SameLocalsLoop(b: Low, k: Ctx, s: Stmt)
    requires s.Loop? && Statements(LoopTop(b), k, s.body).locals == b.locals
    ensures LoopStatement(b, k, s).locals == b.locals
  {
  }

  lemma {:induction false} SameLocalsIf(b: Low, k: Ctx, s: Stmt, own: set<string>, l: bool, h: bool)
    requires s.If? && WfS(s, own, l, h) && own <= b.locals.Keys
    ensures IfStatement(b, k, s).locals == b.locals
    decreases s, 0
  {
    hide IfArms, Statements;
    var join := |Blocks(b)|;
    SameLocalsArms(LBlock(b), k, s.arms, s.els.ElseDo?, join, own, l, h);
    if s.els.ElseDo? {
      SameLocalsAll(IfArms(LBlock(b), k, s.arms, true, join), k, s.els.ss, own, l, h);
    }
  }

  lemma {:induction false} SameLocalsArms(b: Low, k: Ctx, arms: seq<IfArm>, hasElse: bool, join: BlockId, own: set<string>, l: bool, h: bool)
    requires (forall a :: a in arms ==> WfSs(a.body, own, l, h)) && own <= b.locals.Keys
    ensures IfArms(b, k, arms, hasElse, join).locals == b.locals
    decreases arms, 0
  {
    hide OneIfArm;
    if arms != [] {
      SameLocalsArm(b, k, arms[0], 1 < |arms| || hasElse, join, own, l, h);
      SameLocalsArms(OneIfArm(b, k, arms[0], 1 < |arms| || hasElse, join), k, arms[1..], hasElse, join, own, l, h);
    }
  }

  lemma {:induction false} SameLocalsArm(b: Low, k: Ctx, arm: IfArm, more: bool, join: BlockId, own: set<string>, l: bool, h: bool)
    requires WfSs(arm.body, own, l, h) && own <= b.locals.Keys
    ensures OneIfArm(b, k, arm, more, join).locals == b.locals
    decreases arm, 0
  {
    hide Ext, Grows, Expression, Statements;
    var then_ := |Blocks(b)|;
    var b1 := if more then LBlock(LBlock(b)) else LBlock(b);
    var (b2, c) := Expression(b1, arm.cond);
    GrowsExpression(b1, arm.cond);
    var b3 := LSwitch(LEnd(b2, CondBr(c, then_, if more then then_ + 1 else join)), then_);
    SameLocalsAll(b3, k, arm.body, own, l, h);
  }

  lemma {:induction false} SameLocalsWhile(b: Low, k: Ctx, s: Stmt, own: set<string>, l: bool, h: bool)
    requires s.While? && WfS(s, own, l, h) && own <= b.locals.Keys
    ensures WhileStatement(b, k, s).locals == b.locals
    decreases s, 0
  {
    hide Ext, Grows, Expression, Statements;
    GrowsExpression(WhileHead(b), s.cond);
    SameLocalsAll(WhileIn(b, s.cond), k, s.body, own, true, h);
  }

  lemma {:induction false} SameLocalsRepeat(b: Low, k: Ctx, s: Stmt, own: set<string>, l: bool, h: bool)
    requires s.Repeat? && WfS(s, own, l, h) && own <= b.locals.Keys
    ensures RepeatStatement(b, k, s).locals == b.locals
    decreases s, 0
  {
    hide Ext, Grows, Expression, Statements;
    SameLocalsAll(LoopTop(b), k, s.body, own, true, h);
    GrowsExpression(LLeave(Statements(LoopTop(b), k, s.body)), s.cond);
  }

  lemma {:induction false} SameLocalsFor(b: Low, k: Ctx, s: Stmt, own: set<string>, l: bool, h: bool)
    requires s.For? && WfS(s, own, l, h) && own <= b.locals.Keys
    ensures ForStatement(b, k, s).locals == b.locals
    decreases s, 0
  {
    hide Ext, Grows, ForSetup, Statements;
    var (b1, r) := ForSetup(b, s);
    SameLocalsSetup(b, s);
    SameLocalsAll(ForIn(b1, r), k, s.body, own, true, h);
  }

  lemma SameLocalsSetup(b: Low, s: Stmt)
    requires s.For? && s.x in b.locals
    ensures ForSetup(b, s).0.locals == b.locals
  {
    hide Ext, Grows, Expression, ExpressionOr, ForVariable;
    var (b1, ptr) := ForVariable(b, s.x);
    var (b2, v) := Expression(b1, s.from);
    var (b3, last) := Expression(LPush(b2, Store(ptr, v)), s.to);
    GrowsForVariable(b, s.x);
    GrowsExpression(b1, s.from);
    GrowsExpression(LPush(b2, Store(ptr, v)), s.to);
    GrowsExpressionOr(b3, s.step, 1);
  }

  lemma {:induction false} SameLocalsCase(b: Low, k: Ctx, s: Stmt, own: set<string>, l: bool, h: bool)
    requires s.Case? && WfS(s, own, l, h) && own <= b.locals.Keys
    ensures CaseStatement(b, k, s).locals == b.locals
    decreases s, 0
  {
    hide Ext, Grows, Expression, Statements, CaseArms, RangeTests, AddBlocks, Ranges, Singles;
    var (b1, v) := Expression(b, s.scrutinee);
    var join := |Blocks(b1)|;
    GrowsExpression(b, s.scrutinee);
    GrowsAddBlocks(b1, 2 + |s.carms|);
    GrowsRangeTests(AddBlocks(b1, 2 + |s.carms|), v, Ranges(s.carms, join + 2));
    var b2 := CaseDispatch(b1, v, s.carms);
    SameLocalsCaseArms(b2, k, s.carms, join + 2, join, own, l, h);
    SameLocalsElse(LSwitch(CaseArms(b2, k, s.carms, join + 2, join), join + 1), k, s.els, join, own, l, h);
  }

  lemma {:induction false} SameLocalsElse(b: Low, k: Ctx, els: Else, join: BlockId, own: set<string>, l: bool, h: bool)
    requires (els.ElseDo? ==> WfSs(els.ss, own, l, h)) && own <= b.locals.Keys
    ensures CaseElse(b, k, els, join).locals == b.locals
    decreases els, 0
  {
    hide Statements;
    if els.ElseDo? {
      SameLocalsAll(b, k, els.ss, own, l, h);
    }
  }

  lemma {:induction false} SameLocalsCaseArms(b: Low, k: Ctx, arms: seq<CaseArm>, first: BlockId, join: BlockId, own: set<string>, l: bool, h: bool)
    requires (forall a :: a in arms ==> WfSs(a.body, own, l, h)) && own <= b.locals.Keys
    ensures CaseArms(b, k, arms, first, join).locals == b.locals
    decreases arms, 0
  {
    hide Statements;
    if arms != [] {
      SameLocalsAll(LSwitch(b, first), k, arms[0].body, own, l, h);
      SameLocalsCaseArms(JumpTo(Statements(LSwitch(b, first), k, arms[0].body), join), k, arms[1..], first + 1, join, own, l, h);
    }
  }
}
