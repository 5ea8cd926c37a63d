/** Over whose variables a FOR loop may run: the code is right from every state exactly
    when the control variable has storage of its own in the function. */
module ForOwn {
  import opened Arith
  import opened Ir
  import opened Machine
  import opened Source
  import opened Builder
  import opened LowerSpec
  import opened Preservation

  // ---- Code without the address of a variable ------------------------------------------------

  predicate BlindInst(x: string, i: Inst) {
    match i
    case Const(_, GlobalRef(y)) => y != x
    case Alloca(_, Some(y)) => y != x
    case _ => true
  }

  /** No instruction makes an address of the variable `x`. */
  ghost predicate BlindCode(x: string, f: seq<Block>) {
    forall k, j :: 0 <= k < |f| && 0 <= j < |f[k].insts| ==> BlindInst(x, f[k].insts[j])
  }

  ghost predicate Blind(x: string, b: Low) {
    BlindCode(x, Blocks(b)) && x in b.locals
  }

  /** What the builder does keeps it so, as long as what is appended does. */
  lemma BlindOps(x: string)
    ensures forall b: Low, i: Inst {:trigger LPush(b, i)} :: Blind(x, b) && BlindInst(x, i) ==> Blind(x, LPush(b, i))
    ensures forall b: Low, i: Inst {:trigger Ins(b, i)} :: Blind(x, b) && BlindInst(x, i) ==> Blind(x, Ins(b, i))
    ensures forall b: Low {:trigger LFresh(b)} :: Blind(x, b) ==> Blind(x, LFresh(b))
    ensures forall b: Low {:trigger LBlock(b)} :: Blind(x, b) ==> Blind(x, LBlock(b))
    ensures forall b: Low {:trigger LLeave(b)} :: Blind(x, b) ==> Blind(x, LLeave(b))
    ensures forall b: Low, id: BlockId {:trigger LSwitch(b, id)} :: Blind(x, b) ==> Blind(x, LSwitch(b, id))
    ensures forall b: Low, t: Terminator {:trigger LEnd(b, t)} :: Blind(x, b) ==> Blind(x, LEnd(b, t))
    ensures forall b: Low, fr: LoopFrame {:trigger LEnter(b, fr)} :: Blind(x, b) ==> Blind(x, LEnter(b, fr))
  {
    forall b: Low, i: Inst | Blind(x, b) && BlindInst(x, i)
      ensures Blind(x, LPush(b, i)) && Blind(x, Ins(b, i))
    {
      BlindPush(x, b, i);
      BlindPush(x, LFresh(b), i);
    }
    forall b: Low, t: Terminator | Blind(x, b)
      ensures Blind(x, LEnd(b, t)) && Blind(x, LBlock(b))
    {
      BlindEnd(x, b, t);
    }
  }

  lemma BlindPush(x: string, b: Low, i: Inst)
    requires Blind(x, b) && BlindInst(x, i)
    ensures Blind(x, LPush(b, i))
  {
  }

  lemma BlindEnd(x: string, b: Low, t: Terminator)
    requires Blind(x, b)
    ensures Blind(x, LEnd(b, t)) && Blind(x, LBlock(b))
  {
  }

  // ---- Expressions ---------------------------------------------------------------------------

  lemma BlindTraps(x: string)
    ensures forall b: Low, f: string, args: seq<Reg> {:trigger RuntimeCall(b, f, args)} :: Blind(x, b) ==> Blind(x, RuntimeCall(b, f, args))
    ensures forall b: Low, n: int {:trigger RaiseM2(b, n)} :: Blind(x, b) ==> Blind(x, RaiseM2(b, n))
    ensures forall b: Low, c: Reg, n: int {:trigger Trap(b, c, n)} :: Blind(x, b) ==> Blind(x, Trap(b, c, n))
    ensures forall b: Low, op: BinOp, s: Reg, n: int {:trigger Test(b, op, s, n)} :: Blind(x, b) ==> Blind(x, Test(b, op, s, n))
  {
    hide Blind, LPush, Ins, LBlock, LEnd, LSwitch, LFresh;
    BlindOps(x);
  }

  lemma BlindName(x: string, b: Low, y: string)
    requires Blind(x, b)
    ensures Blind(x, NamePtr(b, y).0)
  {
    hide LPush, Ins;
    BlindOps(x);
  }

  lemma {:induction false} BlindExpression(x: string, b: Low, e: Expr)
    requires Blind(x, b)
    ensures Blind(x, Expression(b, e).0)
    decreases e, 1
  {
    hide Blind, LPush, Ins, LFresh, Address, Arguments, ShortCircuit, DivCheck;
    BlindOps(x);
    match e
    case IntLit(_) =>
    case BoolLit(_) =>
    case Des(d) => BlindAddress(x, b, d);
    case Arith(op, l, r) =>
      BlindExpression(x, b, l);
      BlindExpression(x, Expression(b, l).0, r);
      BlindGuard(x, LFresh(Expression(Expression(b, l).0, r).0), op, Expression(Expression(b, l).0, r).1);
    case AndThen(_, _) => BlindShortCircuit(x, b, e);
    case OrElse(_, _) => BlindShortCircuit(x, b, e);
    case NotE(a) => BlindExpression(x, b, a);
    case NegE(a) => BlindExpression(x, b, a);
    case CallE(f, args) => BlindArguments(x, Ins(b, Const(b.g.nextReg, FuncRef(f))), args);
  }

  lemma BlindGuard(x: string, b: Low, op: ArithOp, y: Reg)
    requires Blind(x, b)
    ensures Blind(x, Guarded(b, op, y))
  {
    hide Blind, Test, Trap;
    BlindTraps(x);
  }

  lemma {:induction false} BlindShortCircuit(x: string, b: Low, e: Expr)
    requires Blind(x, b) && (e.AndThen? || e.OrElse?)
    ensures Blind(x, ShortCircuit(b, e).0)
    decreases e, 0
  {
    hide Blind, LPush, Ins, LBlock, LEnd, LSwitch, Expression;
    BlindOps(x);
    var slot := b.g.nextReg;
    BlindExpression(x, Ins(b, Alloca(slot, None)), e.l);
    var (b1, v) := Expression(Ins(b, Alloca(slot, None)), e.l);
    var b2 := LPush(b1, Store(slot, v));
    BlindExpression(x, ScFork(b2, ScTest(e, v, |Blocks(b2)|)), e.r);
  }

  lemma {:induction false} BlindArguments(x: string, b: Low, args: seq<Arg>)
    requires Blind(x, b)
    ensures Blind(x, Arguments(b, args).0)
    decreases args, 0
  {
    hide Blind, Argument;
    if args != [] {
      BlindArgument(x, b, args[0]);
      BlindArguments(x, Argument(b, args[0]).0, args[1..]);
    }
  }

  lemma {:induction false} BlindArgument(x: string, b: Low, a: Arg)
    requires Blind(x, b)
    ensures Blind(x, Argument(b, a).0)
    decreases a, 0
  {
    hide Blind, Expression, Address;
    match a
    case ByValue(e) => BlindExpression(x, b, e);
    case ByAddress(d) => BlindAddress(x, b, d);
  }

  lemma {:induction false} BlindAddress(x: string, b: Low, d: Designator)
    requires Blind(x, b)
    ensures Blind(x, Address(b, d).0)
    decreases d, 0
  {
    hide Blind, LPush, Ins, NamePtr, Flatten;
    BlindOps(x);
    match d
    case Var(y) => BlindName(x, b, y);
    case Elem(y, dims, ixs) =>
      BlindName(x, b, y);
      BlindFlatten(x, NamePtr(b, y).0, dims, ixs, None);
  }

  lemma {:induction false} BlindFlatten(x: string, b: Low, dims: seq<Dim>, ixs: seq<Expr>, acc: Option<Reg>)
    requires Blind(x, b)
    ensures Blind(x, Flatten(b, dims, ixs, acc).0)
    decreases ixs, 0
  {
    hide Blind, Expression, Dimension, Total;
    if ixs != [] && dims != [] {
      var (b1, raw) := Expression(b, ixs[0]);
      BlindExpression(x, b, ixs[0]);
      BlindDimension(x, b1, raw, dims[0], Total(dims[1..]), acc);
      var (b2, sum) := Dimension(b1, raw, dims[0], Total(dims[1..]), acc);
      BlindFlatten(x, b2, dims[1..], ixs[1..], Some(sum));
    }
  }

  lemma BlindDimension(x: string, b: Low, raw: Reg, dim: Dim, stride: int, acc: Option<Reg>)
    requires Blind(x, b)
    ensures Blind(x, Dimension(b, raw, dim, stride, acc).0)
  {
    hide Blind, LPush, Ins, Test, Trap;
    BlindOps(x);
    BlindTraps(x);
  }

  lemma BlindExpressionOr(x: string, b: Low, e: Option<Expr>, d: int)
    requires Blind(x, b)
    ensures Blind(x, ExpressionOr(b, e, d).0)
  {
    hide Blind, LPush, Ins, Expression;
    BlindOps(x);
    if e.Some? {
      BlindExpression(x, b, e.value);
    }
  }

  // ---- Statements ----------------------------------------------------------------------------

  lemma {:induction false} BlindStatements(x: string, b: Low, k: Ctx, ss: seq<Stmt>)
    requires Blind(x, b)
    ensures Blind(x, Statements(b, k, ss))
    decreases ss, 0
  {
    hide Blind, Statement;
    if ss != [] && !Closed(b) {
      BlindStatement(x, b, k, ss[0]);
      BlindStatements(x, Statement(b, k, ss[0]), k, ss[1..]);
    }
  }

  lemma {:induction false} BlindStatement(x: string, b: Low, k: Ctx, s: Stmt)
    requires Blind(x, b)
    ensures Blind(x, Statement(b, k, s))
    decreases s, 2
  {
    hide Blind, Expression, IfStatement, WhileStatement, RepeatStatement, ForStatement, LoopStatement, CaseStatement, LEnd, Assignment, Increment, Assertion, HaltStatement, ReturnStatement, RuntimeCall;
    BlindOps(x);
    BlindTraps(x);
    match s
    case If(_, _) => BlindIf(x, b, k, s);
    case While(_, _) => BlindWhile(x, b, k, s);
    case Repeat(_, _) => BlindRepeat(x, b, k, s);
    case For(_, _, _, _, _) => BlindFor(x, b, k, s);
    case Loop(_) => BlindLoop(x, b, k, s);
    case Case(_, _, _, _) => BlindCase(x, b, k, s);
    case Assign(d, e) => BlindAssignment(x, b, d, e);
    case CallS(f, args) => BlindExpression(x, b, CallE(f, args));
    case IncDec(d, amount, up) => BlindIncrement(x, b, d, amount, up);
    case Assert(e) => BlindAssertion(x, b, e);
    case Halt(code) => BlindHalt(x, b, code);
    case Return(val) => BlindReturn(x, b, k, val);
    case _ =>
  }

  lemma BlindAssignment(x: string, b: Low, d: Designator, e: Expr)
    requires Blind(x, b)
    ensures Blind(x, Assignment(b, d, e))
  {
    hide Blind, LPush, Expression, Address;
    BlindOps(x);
    BlindExpression(x, b, e);
    BlindAddress(x, Expression(b, e).0, d);
  }

  lemma BlindIncrement(x: string, b: Low, d: Designator, amount: Option<Expr>, up: bool)
    requires Blind(x, b)
    ensures Blind(x, Increment(b, d, amount, up))
  {
    hide Blind, LPush, Ins, ExpressionOr, Address;
    BlindOps(x);
    BlindAddress(x, b, d);
    var (b1, p) := Address(b, d);
    BlindExpressionOr(x, Ins(b1, Load(b1.g.nextReg, p)), amount, 1);
  }

  lemma BlindAssertion(x: string, b: Low, e: Expr)
    requires Blind(x, b)
    ensures Blind(x, Assertion(b, e))
  {
    hide Blind, LPush, Ins, LEnd, LBlock, LSwitch, Expression, RuntimeCall;
    BlindOps(x);
    BlindTraps(x);
    BlindExpression(x, b, e);
  }

  lemma BlindHalt(x: string, b: Low, code: Option<Expr>)
    requires Blind(x, b)
    ensures Blind(x, HaltStatement(b, code))
  {
    hide Blind, LEnd, LBlock, LSwitch, ExpressionOr, RuntimeCall;
    BlindOps(x);
    BlindTraps(x);
    BlindExpressionOr(x, b, code, 1);
  }

  lemma BlindReturn(x: string, b: Low, k: Ctx, val: Option<Expr>)
    requires Blind(x, b)
    ensures Blind(x, ReturnStatement(b, k, val))
  {
    hide Blind, LPush, LEnd, Expression, RuntimeCall;
    BlindOps(x);
    BlindTraps(x);
    if val.Some? {
      BlindExpression(x, b, val.value);
    }
  }

  lemma {:induction false} BlindIf(x: string, b: Low, k: Ctx, s: Stmt)
    requires Blind(x, b) && s.If?
    ensures Blind(x, IfStatement(b, k, s))
    decreases s, 0
  {
    hide Blind, LEnd, LBlock, LSwitch, IfArms, Statements;
    BlindOps(x);
    var join := |Blocks(b)|;
    BlindArms(x, LBlock(b), k, s.arms, s.els.ElseDo?, join);
    if s.els.ElseDo? {
      BlindStatements(x, IfArms(LBlock(b), k, s.arms, true, join), k, s.els.ss);
    }
  }

  lemma {:induction false} BlindArms(x: string, b: Low, k: Ctx, arms: seq<IfArm>, hasElse: bool, join: BlockId)
    requires Blind(x, b)
    ensures Blind(x, IfArms(b, k, arms, hasElse, join))
    decreases arms, 0
  {
    hide Blind, OneIfArm;
    if arms != [] {
      BlindArm(x, b, k, arms[0], 1 < |arms| || hasElse, join);
      BlindArms(x, OneIfArm(b, k, arms[0], 1 < |arms| || hasElse, join), k, arms[1..], hasElse, join);
    }
  }

  lemma {:induction false} BlindArm(x: string, b: Low, k: Ctx, arm: IfArm, more: bool, join: BlockId)
    requires Blind(x, b)
    ensures Blind(x, OneIfArm(b, k, arm, more, join))
    decreases arm, 0
  {
    hide Blind, LEnd, LBlock, LSwitch, Expression, Statements;
    BlindOps(x);
    var then_ := |Blocks(b)|;
    var false_ := if more then then_ + 1 else join;
    var b1 := if more then LBlock(LBlock(b)) else LBlock(b);
    BlindExpression(x, b1, arm.cond);
    var (b2, c) := Expression(b1, arm.cond);
    BlindStatements(x, LSwitch(LEnd(b2, CondBr(c, then_, false_)), then_), k, arm.body);
  }

  lemma {:induction false} BlindWhile(x: string, b: Low, k: Ctx, s: Stmt)
    requires Blind(x, b) && s.While?
    ensures Blind(x, WhileStatement(b, k, s))
    decreases s, 0
  {
    hide Blind, LEnd, LBlock, LSwitch, LEnter, LLeave, Expression, Statements;
    BlindOps(x);
    BlindExpression(x, WhileHead(b), s.cond);
    BlindStatements(x, WhileIn(b, s.cond), k, s.body);
  }

  lemma {:induction false} BlindLoop(x: string, b: Low, k: Ctx, s: Stmt)
    requires Blind(x, b) && s.Loop?
    ensures Blind(x, LoopStatement(b, k, s))
    decreases s, 0
  {
    hide Blind, LEnd, LBlock, LSwitch, LEnter, LLeave, Statements;
    BlindOps(x);
    BlindStatements(x, LoopTop(b), k, s.body);
  }

  lemma {:induction false} BlindRepeat(x: string, b: Low, k: Ctx, s: Stmt)
    requires Blind(x, b) && s.Repeat?
    ensures Blind(x, RepeatStatement(b, k, s))
    decreases s, 0
  {
    hide Blind, LEnd, LBlock, LSwitch, LEnter, LLeave, Expression, Statements;
    BlindOps(x);
    BlindStatements(x, LoopTop(b), k, s.body);
    BlindExpression(x, LLeave(Statements(LoopTop(b), k, s.body)), s.cond);
  }

  lemma {:induction false} BlindFor(x: string, b: Low, k: Ctx, s: Stmt)
    requires Blind(x, b) && s.For?
    ensures Blind(x, ForStatement(b, k, s))
    decreases s, 1
  {
    hide Blind, ForSetup, ForVariable, ForIn, ForTail, Statements;
    BlindVariable(x, b, s.x);
    BlindSetup(x, b, s);
    BlindRounds(x, ForSetup(b, s).0, ForSetup(b, s).1, k, s);
  }

  lemma BlindVariable(x: string, b: Low, y: string)
    requires Blind(x, b)
    ensures Blind(x, ForVariable(b, y).0)
  {
    hide LPush;
    BlindOps(x);
    if y in b.locals {
      BlindName(x, b, y);
    } else {
      assert Blind(x, Ins(b, Alloca(b.g.nextReg, None)));
    }
  }

  /** From the control variable on; the variable itself may be `x`. */
  lemma {:induction false} BlindSetup(x: string, b: Low, s: Stmt)
    requires s.For? && Blind(x, ForVariable(b, s.x).0)
    ensures Blind(x, ForSetup(b, s).0)
  {
    hide Blind, LPush, Ins, ForVariable, Expression, ExpressionOr;
    BlindOps(x);
    var (b1, ptr) := ForVariable(b, s.x);
    BlindExpression(x, b1, s.from);
    var (b2, v) := Expression(b1, s.from);
    BlindExpression(x, LPush(b2, Store(ptr, v)), s.to);
    var (b3, last) := Expression(LPush(b2, Store(ptr, v)), s.to);
    BlindExpressionOr(x, b3, s.step, 1);
  }

  lemma {:induction false} BlindRounds(x: string, b1: Low, r: ForRegs, k: Ctx, s: Stmt)
    requires Blind(x, b1) && s.For?
    ensures Blind(x, ForTail(Statements(ForIn(b1, r), k, s.body), r, |Blocks(b1)|))
    decreases s, 0
  {
    hide Blind, ForIn, ForTail, Statements;
    BlindForIn(x, b1, r);
    BlindStatements(x, ForIn(b1, r), k, s.body);
    BlindForTail(x, Statements(ForIn(b1, r), k, s.body), r, |Blocks(b1)|);
  }

  lemma BlindForIn(x: string, b: Low, r: ForRegs)
    requires Blind(x, b)
    ensures Blind(x, ForIn(b, r))
  {
    hide Blind, LPush, Ins, LEnd, LBlock, LSwitch, LEnter;
    BlindOps(x);
  }

  lemma BlindForTail(x: string, b: Low, r: ForRegs, n: BlockId)
    requires Blind(x, b)
    ensures Blind(x, ForTail(b, r, n))
  {
    hide Blind, LPush, Ins, LEnd, LBlock, LSwitch, LLeave;
    BlindOps(x);
  }

  lemma {:induction false} BlindCase(x: string, b: Low, k: Ctx, s: Stmt)
    requires Blind(x, b) && s.Case?
    ensures Blind(x, CaseStatement(b, k, s))
    decreases s, 1
  {
    hide Blind, Expression, CaseDispatch, CaseBodies;
    BlindExpression(x, b, s.scrutinee);
    var (b1, v) := Expression(b, s.scrutinee);
    BlindDispatch(x, b1, v, s.carms);
    BlindBodies(x, CaseDispatch(b1, v, s.carms), k, s, |Blocks(b1)|);
  }

  lemma BlindDispatch(x: string, b: Low, v: Reg, arms: seq<CaseArm>)
    requires Blind(x, b)
    ensures Blind(x, CaseDispatch(b, v, arms))
  {
    hide Blind, LEnd, AddBlocks, RangeTests, Ranges, Singles;
    BlindOps(x);
    BlindAdd(x, b, 2 + |arms|);
    BlindRanges(x, AddBlocks(b, 2 + |arms|), v, Ranges(arms, |Blocks(b)| + 2));
  }

  lemma {:induction false} BlindAdd(x: string, b: Low, n: nat)
    requires Blind(x, b)
    ensures Blind(x, AddBlocks(b, n))
    decreases n
  {
    hide Blind, LBlock;
    BlindOps(x);
    if n > 0 {
      BlindAdd(x, LBlock(b), n - 1);
    }
  }

  lemma {:induction false} BlindRanges(x: string, b: Low, v: Reg, ranges: seq<(int, int, BlockId)>)
    requires Blind(x, b)
    ensures Blind(x, RangeTests(b, v, ranges))
    decreases |ranges|
  {
    hide Blind, LPush, Ins, LEnd, LBlock, LSwitch;
    BlindOps(x);
    if ranges != [] {
      BlindRanges(x, RangeTest(b, v, ranges[0].0, ranges[0].1, ranges[0].2), v, ranges[1..]);
    }
  }

  lemma {:induction false} BlindBodies(x: string, b: Low, k: Ctx, s: Stmt, join: BlockId)
    requires Blind(x, b) && s.Case?
    ensures Blind(x, CaseBodies(b, k, s, join))
    decreases s, 0
  {
    hide Blind, LEnd, LSwitch, CaseArms, Statements, RaiseM2;
    BlindOps(x);
    BlindTraps(x);
    BlindCaseArms(x, b, k, s.carms, join + 2, join);
    if s.els.ElseDo? {
      BlindStatements(x, LSwitch(CaseArms(b, k, s.carms, join + 2, join), join + 1), k, s.els.ss);
    }
  }

  lemma {:induction false} BlindCaseArms(x: string, b: Low, k: Ctx, arms: seq<CaseArm>, first: BlockId, join: BlockId)
    requires Blind(x, b)
    ensures Blind(x, CaseArms(b, k, arms, first, join))
    decreases arms, 0
  {
    hide Blind, LEnd, LSwitch, Statements;
    BlindOps(x);
    if arms != [] {
      BlindStatements(x, LSwitch(b, first), k, arms[0].body);
      BlindCaseArms(x, JumpTo(Statements(LSwitch(b, first), k, arms[0].body), join), k, arms[1..], first + 1, join);
    }
  }

  // ---- A function that is one FOR ------------------------------------------------------------------

  lemma {:induction false} BlindPrologue(x: string, b: Low, decls: seq<Decl>)
    requires x !in DeclNames(decls) && x !in b.locals && BlindCode(x, Blocks(b)) && !Closed(b)
    ensures BlindCode(x, Blocks(Prologue(b, decls))) && x !in Prologue(b, decls).locals && !Closed(Prologue(b, decls))
    decreases |decls|
  {
    hide Prologue;
    PrologueStep(b, decls);
    if decls != [] {
      BlindDeclared(x, b, decls[0]);
      assert forall d :: d in decls[1..] ==> d in decls;
      BlindPrologue(x, Declared(b, decls[0]), decls[1..]);
    }
  }

  lemma PrologueStep(b: Low, decls: seq<Decl>)
    ensures Prologue(b, decls) == if decls == [] then b else Prologue(Declared(b, decls[0]), decls[1..])
  {
  }

  lemma BlindDeclared(x: string, b: Low, d: Decl)
    requires x != d.name && x !in b.locals && BlindCode(x, Blocks(b)) && !Closed(b)
    ensures BlindCode(x, Blocks(Declared(b, d))) && x !in Declared(b, d).locals && !Closed(Declared(b, d))
  {
  }

  /** Nothing in the function makes an address of the control variable. */
  lemma {:induction false} ForeignIsBlind(decls: seq<Decl>, s: Stmt)
    requires s.For? && s.x !in DeclNames(decls)
    ensures BlindCode(s.x, Blocks(FunctionBody(decls, [s])))
  {
    hide ForSetup, ForIn, ForTail, Prologue, Statement, BlindCode;
    var (b, k) := (Low(Initial(), map[]), Ctx(None, None, None));
    assert BlindCode(s.x, Blocks(b)) by { BlindStart(s.x); }
    BlindPrologue(s.x, b, decls);
    var b0 := Prologue(b, decls);
    BlindNew(s.x, b0);
    BlindSetup(s.x, b0, s);
    BlindRounds(s.x, ForSetup(b0, s).0, ForSetup(b0, s).1, k, s);
    OneStatement(b0, k, s);
  }

  lemma BlindStart(x: string)
    ensures BlindCode(x, Blocks(Low(Initial(), map[])))
  {
  }

  lemma BlindNew(x: string, b: Low)
    requires x !in b.locals && BlindCode(x, Blocks(b))
    ensures Blind(x, ForVariable(b, x).0)
  {
  }

  lemma OneStatement(b: Low, k: Ctx, s: Stmt)
    requires !Closed(b) && s.For?
    ensures Statements(b, k, [s]) == ForStatement(b, k, s)
  {
    hide ForStatement, Statement;
    assert [s][1..] == [];
    assert Statement(b, k, s) == ForStatement(b, k, s) by { StatementIsFor(b, k, s); }
    assert Statements(ForStatement(b, k, s), k, []) == ForStatement(b, k, s);
  }

  lemma StatementIsFor(b: Low, k: Ctx, s: Stmt)
    requires s.For?
    ensures Statement(b, k, s) == ForStatement(b, k, s)
  {
    hide ForStatement;
  }

  // ---- A world in which it shows -----------------------------------------------------------------------

  /** A caller whose variable `x` has a place apart from all others, and whose other code
      changes nothing. */
  function WorldOf(x: string): World {
    var place := (y: string) => if y == x then 1 else 0;
    World((f: string, args: seq<Value>, st: State) => Answer(0, st.cells), place, None, None, place, place)
  }

  /** No other name means the variable's place, and what is called leaves it alone. */
  ghost predicate Secluded(w: World, x: string) {
    && (forall y :: y != x ==> w.env(x) != w.home(y) && w.env(x) != w.global(y))
    && (forall f, args, st :: LeftAlone(w.call(f, args, st), Loc(w.env(x), 0), st))
  }

  predicate LeftAlone(a: Reply, l: Loc, st: State) {
    a.Answer? ==> ReadCell(State(a.cells, st.trace), l) == ReadCell(st, l)
  }

  predicate Elsewhere(base: nat, v: Value) {
    v.CellAddr? ==> v.loc.base != base
  }

  /** No register or slot leads to `base`, and what is stored there is `v`. */
  ghost predicate Away(base: nat, v: I64, c: Config) {
    && (forall r :: r in c.regs ==> Elsewhere(base, c.regs[r]))
    && (forall r :: r in c.slots ==> Elsewhere(base, c.slots[r]))
    && ReadCell(c.st, Loc(base, 0)) == v
  }

  ghost predicate Same(base: nat, v: I64, s: Status) {
    match s
    case Run(c) => Away(base, v, c)
    case Done(_, st) => ReadCell(st, Loc(base, 0)) == v
    case Stuck => true
  }

  lemma InstKeeps(w: World, x: string, i: Inst, v: I64, c: Config)
    requires Secluded(w, x) && BlindInst(x, i) && Away(w.env(x), v, c)
    ensures Same(w.env(x), v, ExecInst(w, i, c))
  {
    hide BinaryOf, UnaryOf;
    match i
    case Call(_, _, _) => CallKeeps(w, x, i, v, c);
    case _ =>
  }

  lemma CallKeeps(w: World, x: string, i: Inst, v: I64, c: Config)
    requires Secluded(w, x) && i.Call? && Away(w.env(x), v, c)
    ensures Same(w.env(x), v, ExecInst(w, i, c))
  {
  }

  lemma TermKeeps(base: nat, v: I64, t: Terminator, c: Config)
    requires Away(base, v, c)
    ensures Same(base, v, ExecTerm(t, c))
  {
    hide SwitchTarget;
  }

  /** Code that makes no address of the variable never changes it. */
  lemma {:induction false} RunKeeps(w: World, x: string, f: seq<Block>, n: nat, v: I64, s: Status)
    requires Secluded(w, x) && BlindCode(x, f) && Same(w.env(x), v, s)
    ensures Same(w.env(x), v, Steps(w, f, n, s))
    decreases n
  {
    hide Away, BlindInst, ExecInst, ExecTerm, Secluded;
    if n > 0 {
      if s.Run? && s.c.blk < |f| {
        if s.c.idx < |f[s.c.blk].insts| {
          InstKeeps(w, x, f[s.c.blk].insts[s.c.idx], v, s.c);
        } else {
          TermKeeps(w.env(x), v, f[s.c.blk].term, s.c);
        }
      }
      RunKeeps(w, x, f, n - 1, v, Step(w, f, s));
    }
  }

  // ---- The theorem ----------------------------------------------------------------------------------------

  function Literal(n: Option<int>): Option<Expr> {
    if n.Some? then Some(IntLit(n.value)) else None
  }

  /** FOR x := n TO m [BY k] DO body END */
  function Counting(x: string, n: int, m: int, k: Option<int>, body: seq<Stmt>): Stmt {
    For(x, IntLit(n), IntLit(m), Literal(k), body)
  }

  /** Entered from `c`, the code does what the statement means in `fuel` rounds. */
  ghost predicate RightFrom(decls: seq<Decl>, s: Stmt, f: seq<Block>, w: World, c: Config, fuel: nat) {
    Plain(w) && Entry(w, decls, c, c.st) ==> Matches(w, f, c, false, fuel, ExecAll(w, [s], fuel, c.st))
  }

  /** From every state a function can be entered in, in every world, for every number of
      rounds, the code does what the statement means. */
  ghost predicate AlwaysRight(decls: seq<Decl>, s: Stmt, f: seq<Block>) {
    forall w: World, c: Config, fuel: nat :: RightFrom(decls, s, f, w, c, fuel)
  }

  function EntryOf(decls: seq<Decl>, x: string, v: I64): Config {
    var slots := map i: nat | i < |decls| :: CellAddr(Loc(WorldOf(x).env(decls[i].name), 0));
    Config(ENTRY, 0, map[], slots, State(map[Loc(1, 0) := v], []))
  }

  lemma EntryIsOne(decls: seq<Decl>, x: string, v: I64)
    requires x !in DeclNames(decls)
    ensures Secluded(WorldOf(x), x) && Plain(WorldOf(x)) && Entry(WorldOf(x), decls, EntryOf(decls, x, v), EntryOf(decls, x, v).st)
    ensures Same(WorldOf(x).env(x), v, Run(EntryOf(decls, x, v)))
  {
    var (w, c) := (WorldOf(x), EntryOf(decls, x, v));
    forall i | 0 <= i < |decls| && decls[i].indirect
      ensures 0 + i in c.slots && c.slots[0 + i] == CellAddr(Loc(w.env(decls[i].name), 0))
    {
      assert decls[i] in decls;
    }
  }

  /** Before the first round the variable has its start value, says the statement. */
  lemma StartIsStored(w: World, x: string, n: int, m: int, k: Option<int>, body: seq<Stmt>, st: State)
    ensures ExecAll(w, [Counting(x, n, m, k, body)], 0, st) == Res(Timeout, WriteCell(st, Loc(w.env(x), 0), Wrap(n)))
  {
    var s := Counting(x, n, m, k, body);
    assert Exec(w, s, 0, st) == Res(Timeout, WriteCell(st, Loc(w.env(x), 0), Wrap(n)));
  }

  lemma ForeignIsWrong(decls: seq<Decl>, x: string, n: int, m: int, k: Option<int>, body: seq<Stmt>, f: seq<Block>)
    requires x !in DeclNames(decls) && Finished(decls, [Counting(x, n, m, k, body)], false, f)
    ensures !AlwaysRight(decls, Counting(x, n, m, k, body), f)
  {
    hide FunctionBody, Steps, Same, ExecAll, Secluded, BlindCode, Entry;
    var s := Counting(x, n, m, k, body);
    var v: I64 := if Wrap(n) == 0 then 1 else 0;
    var (w, c) := (WorldOf(x), EntryOf(decls, x, v));
    EntryIsOne(decls, x, v);
    ForeignIsBlind(decls, s);
    SealedBlind(x, Blocks(FunctionBody(decls, [s])), f);
    StartIsStored(w, x, n, m, k, body, c.st);
    forall d: Config | Reach(w, f, 0, Run(c), Run(d))
      ensures d.st != WriteCell(c.st, Loc(w.env(x), 0), Wrap(n))
    {
      var steps: nat :| Steps(w, f, steps, Run(c)) == Run(d);
      RunKeeps(w, x, f, steps, v, Run(c));
      SameReads(w.env(x), v, d);
    }
    assert !RightFrom(decls, s, f, w, c, 0);
  }

  lemma SameReads(base: nat, v: I64, d: Config)
    requires Same(base, v, Run(d))
    ensures ReadCell(d.st, Loc(base, 0)) == v
  {
  }

  /** Whatever the loop's limits, step and body, and whatever is called, as long as that
      leaves the variable alone: the code never changes it. */
  lemma ForeignIsNeverChanged(w: World, decls: seq<Decl>, s: Stmt, f: seq<Block>, c: Config, v: I64, steps: nat)
    requires s.For? && s.x !in DeclNames(decls) && Finished(decls, [s], false, f)
    requires Secluded(w, s.x) && Away(w.env(s.x), v, c)
    ensures Same(w.env(s.x), v, Steps(w, f, steps, Run(c)))
  {
    hide FunctionBody, Steps, Away, BlindCode, Secluded;
    ForeignIsBlind(decls, s);
    SealedBlind(s.x, Blocks(FunctionBody(decls, [s])), f);
    RunKeeps(w, s.x, f, steps, v, Run(c));
  }

  lemma SealedBlind(x: string, open: seq<Block>, f: seq<Block>)
    requires BlindCode(x, open) && IsSealing(open, f, true)
    ensures BlindCode(x, f)
  {
    forall k, j | 0 <= k < |f| && 0 <= j < |f[k].insts|
      ensures BlindInst(x, f[k].insts[j])
    {
      assert f[k].insts == open[k].insts;
    }
  }

  /** The code of a FOR loop, with any body that is otherwise well formed, is right from
      every state if and only if its variable is one of the function's own. */
  lemma ForIsRightIffOwn(decls: seq<Decl>, x: string, n: int, m: int, k: Option<int>, body: seq<Stmt>, f: seq<Block>)
    requires WfSs(body, DeclNames(decls), true, false) && Finished(decls, [Counting(x, n, m, k, body)], false, f)
    ensures AlwaysRight(decls, Counting(x, n, m, k, body), f) <==> x in DeclNames(decls)
  {
    hide WfSs, Finished, Matches, ExecAll, Entry, DeclNames;
    var s := Counting(x, n, m, k, body);
    if x in DeclNames(decls) {
      CountingIsWf(x, n, m, k, body, DeclNames(decls));
      forall w: World, c: Config, fuel: nat
        ensures RightFrom(decls, s, f, w, c, fuel)
      {
        if Plain(w) && Entry(w, decls, c, c.st) {
          LoweringPreservesMeaning(w, decls, [s], false, f, c, fuel);
        }
      }
    } else {
      ForeignIsWrong(decls, x, n, m, k, body, f);
    }
  }

  lemma CountingIsWf(x: string, n: int, m: int, k: Option<int>, body: seq<Stmt>, own: set<string>)
    requires x in own && WfSs(body, own, true, false)
    ensures WfSs([Counting(x, n, m, k, body)], own, false, false)
  {
    var s := Counting(x, n, m, k, body);
    assert WfS(s, own, false, false);
    assert [s][1..] == [];
  }
}
