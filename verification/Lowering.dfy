/** The lowering itself: an object that drives a `FuncBuilder`, one statement and
    one expression at a time. Every method is proved to leave the builder in the
    state the functions of `LowerSpec` compute. */
module Lowering {
  import opened Arith
  import opened Ir
  import opened Machine
  import opened Source
  import opened Builder
  import opened LowerSpec
  import opened ProtectedSpec

  class FuncLower {
    const builder: FuncBuilder
    var locals: map<string, Binding>
    var retryTarget: Option<BlockId>
    var frameToFree: Option<Reg>
    var resultSlot: Option<Reg>

    ghost predicate Valid()
      reads this, builder
    {
      builder.Valid()
    }

    ghost function Now(): Low
      reads this, builder
      requires Valid()
    {
      Low(builder.State(), locals)
    }

    ghost function Around(): Ctx
      reads this
    {
      Ctx(retryTarget, frameToFree, resultSlot)
    }

    /** A function of its own: a slot for each parameter and local. */
    constructor (decls: seq<Decl>, hasResult: bool)
      ensures Valid() && fresh(builder) && builder.hasResult == hasResult
      ensures Now() == Prologue(Low(Initial(), map[]), decls) && Around() == Ctx(None, None, None)
    {
      builder := new FuncBuilder(hasResult);
      locals := map[];
      retryTarget, frameToFree, resultSlot := None, None, None;
      new;
      var i := 0;
      while i < |decls|
        invariant 0 <= i <= |decls| && Valid() && Around() == Ctx(None, None, None)
        invariant Prologue(Low(Initial(), map[]), decls) == Prologue(Now(), decls[i..])
      {
        var d := decls[i];
        assert decls[i..][0] == d && decls[i..][1..] == decls[i + 1..];
        var r := builder.FreshReg();
        builder.Append(Alloca(r, if d.indirect then None else Some(d.name)));
        locals := locals[d.name := Binding(r, if d.indirect then Indirect else Direct)];
        i := i + 1;
      }
    }

    // ---- One instruction with a fresh result register --------------------------------------

    method EmitConst(k: ConstVal) returns (r: Reg)
      requires Valid()
      modifies builder
      ensures Valid() && r == old(builder.nextReg) && Now() == Ins(old(Now()), Const(r, k))
      ensures builder.nextReg == r + 1 && |builder.blocks| == old(|builder.blocks|)
    {
      hide Push;
      r := builder.FreshReg();
      builder.Append(Const(r, k));
    }

    /** A fresh register for `lhs op rhs`. */
    method Emit(op: BinOp, lhs: Reg, rhs: Reg) returns (r: Reg)
      requires Valid()
      modifies builder
      ensures Valid() && r == old(builder.nextReg) && Now() == Ins(old(Now()), Binary(r, op, lhs, rhs))
      ensures builder.nextReg == r + 1 && |builder.blocks| == old(|builder.blocks|)
    {
      hide Push;
      r := builder.FreshReg();
      builder.Append(Binary(r, op, lhs, rhs));
    }

    method EmitLoad(ptr: Reg) returns (r: Reg)
      requires Valid()
      modifies builder
      ensures Valid() && r == old(builder.nextReg) && Now() == Ins(old(Now()), Load(r, ptr))
      ensures builder.nextReg == r + 1 && |builder.blocks| == old(|builder.blocks|)
    {
      hide Push;
      r := builder.FreshReg();
      builder.Append(Load(r, ptr));
    }

    method EmitNot(src: Reg) returns (r: Reg)
      requires Valid()
      modifies builder
      ensures Valid() && r == old(builder.nextReg) && Now() == Ins(old(Now()), Unary(r, UnaryOp.Not, src))
      ensures builder.nextReg == r + 1 && |builder.blocks| == old(|builder.blocks|)
    {
      hide Push;
      r := builder.FreshReg();
      builder.Append(Unary(r, UnaryOp.Not, src));
    }

    // ---- Runtime calls and traps ------------------------------------------------------

    method CallRuntime(f: string, args: seq<Reg>)
      requires Valid()
      modifies builder
      ensures Valid() && Now() == RuntimeCall(old(Now()), f, args) && |builder.blocks| >= old(|builder.blocks|)
    {
      var callee := EmitConst(FuncRef(f));
      builder.Append(Call(None, callee, args));
    }

    method RaiseException(number: int)
      requires Valid()
      modifies builder
      ensures Valid() && Now() == RaiseM2(old(Now()), number) && |builder.blocks| >= old(|builder.blocks|)
    {
      hide RuntimeCall;
      var n := EmitConst(IntC(number));
      CallRuntime(RAISE_M2, [n]);
      builder.End(Unreachable);
    }

    /** Raise exception `number` when `cond` is nonzero; go on in a new block otherwise. */
    method EmitTrap(cond: Reg, number: int)
      requires Valid()
      modifies builder
      ensures Valid() && Now() == Trap(old(Now()), cond, number) && |builder.blocks| >= old(|builder.blocks|)
    {
      hide RaiseM2, Push, Terminate, SwitchTo, NewBlock, Fresh, PushLoop, PopLoop;
      var fail := builder.AddBlock();
      var cont := builder.AddBlock();
      builder.End(CondBr(cond, fail, cont));
      builder.Activate(fail);
      RaiseException(number);
      builder.Activate(cont);
    }

    method EmitIndexCheck(adj: Reg, count: int)
      requires Valid()
      modifies builder
      ensures Valid() && Now() == BoundsCheck(old(Now()), adj, count) && |builder.blocks| >= old(|builder.blocks|)
    {
      hide Trap;
      var limit := EmitConst(IntC(count));
      var oob := Emit(UGe, adj, limit);
      EmitTrap(oob, INDEX_EXCEPTION);
    }

    method EmitDivCheck(divisor: Reg)
      requires Valid()
      modifies builder
      ensures Valid() && Now() == DivCheck(old(Now()), divisor) && |builder.blocks| >= old(|builder.blocks|)
    {
      hide Trap;
      var zero := EmitConst(IntC(0));
      var isZero := Emit(Eq, divisor, zero);
      EmitTrap(isZero, DIV_EXCEPTION);
    }

    // ---- Expressions -------------------------------------------------------------------

    method EvalExpr(e: Expr) returns (r: Reg)
      requires Valid()
      modifies builder
      ensures Valid() && (Now(), r) == Expression(old(Now()), e) && |builder.blocks| >= old(|builder.blocks|)
      decreases e, 1
    {
      hide ShortCircuit, Arguments, Address, DivCheck, Push, Terminate, SwitchTo, NewBlock, Fresh, PushLoop, PopLoop;
      match e
      case IntLit(n) =>
        r := EmitConst(IntC(n));
      case BoolLit(v) =>
        r := EmitConst(BoolC(v));
      case Des(d) =>
        var p := EvalAddress(d);
        r := EmitLoad(p);
      case Arith(op, x, y) =>
        var a := EvalExpr(x);
        var b := EvalExpr(y);
        r := builder.FreshReg();
        if Divides(op) {
          EmitDivCheck(b);
        }
        builder.Append(Binary(r, IrOp(op), a, b));
      case AndThen(_, _) => r := EvalShortCircuit(e);
      case OrElse(_, _) => r := EvalShortCircuit(e);
      case NotE(x) =>
        var a := EvalExpr(x);
        r := EmitNot(a);
      case NegE(x) =>
        var a := EvalExpr(x);
        r := builder.FreshReg();
        builder.Append(Unary(r, UnaryOp.Neg, a));
      case CallE(f, args) =>
        var callee := EmitConst(FuncRef(f));
        var rs := EvalArguments(args);
        r := builder.FreshReg();
        builder.Append(Call(Some(r), callee, rs));
    }

    method EvalShortCircuit(e: Expr) returns (r: Reg)
      requires Valid() && (e.AndThen? || e.OrElse?)
      modifies builder
      ensures Valid() && (Now(), r) == ShortCircuit(old(Now()), e) && |builder.blocks| >= old(|builder.blocks|)
      decreases e, 0
    {
      hide Expression, Push, Terminate, SwitchTo, NewBlock, Fresh, PushLoop, PopLoop;
      var slot := builder.FreshReg();
      builder.Append(Alloca(slot, None));
      var left := EvalExpr(e.l);
      builder.Append(Store(slot, left));
      var rhs := builder.AddBlock();
      var join := builder.AddBlock();
      builder.End(if e.AndThen? then CondBr(left, rhs, join) else CondBr(left, join, rhs));
      builder.Activate(rhs);
      var right := EvalExpr(e.r);
      builder.Append(Store(slot, right));
      builder.End(Goto(join));
      builder.Activate(join);
      r := EmitLoad(slot);
    }

    method EvalArguments(args: seq<Arg>) returns (rs: seq<Reg>)
      requires Valid()
      modifies builder
      ensures Valid() && (Now(), rs) == Arguments(old(Now()), args) && |builder.blocks| >= old(|builder.blocks|)
      decreases args, 1
    {
      hide Argument;
      rs := [];
      var i := 0;
      assert args[0..] == args;
      while i < |args|
        invariant 0 <= i <= |args| && Valid() && |builder.blocks| >= old(|builder.blocks|)
        invariant Arguments(old(Now()), args).0 == Arguments(Now(), args[i..]).0
        invariant Arguments(old(Now()), args).1 == rs + Arguments(Now(), args[i..]).1
      {
        assert args[i..][0] == args[i] && args[i..][1..] == args[i + 1..];
        var r := EvalArgument(args[i]);
        rs := rs + [r];
        i := i + 1;
      }
      assert args[i..] == [] && rs + [] == rs;
      assert Arguments(old(Now()), args) == (Arguments(old(Now()), args).0, Arguments(old(Now()), args).1);
    }

    method EvalArgument(a: Arg) returns (r: Reg)
      requires Valid()
      modifies builder
      ensures Valid() && (Now(), r) == Argument(old(Now()), a) && |builder.blocks| >= old(|builder.blocks|)
      decreases a, 0
    {
      hide Expression, Address;
      match a
      case ByValue(e) => r := EvalExpr(e);
      case ByAddress(d) => r := EvalAddress(d);
    }

    /** The address of a variable: its storage, or what its storage points to. */
    method LocalPtr(x: string) returns (r: Reg)
      requires Valid()
      modifies builder
      ensures Valid() && (Now(), r) == NamePtr(old(Now()), x) && |builder.blocks| >= old(|builder.blocks|)
    {
      if x in locals {
        var binding := locals[x];
        if binding.kind.Direct? {
          r := binding.storage;
        } else {
          var p := EmitLoad(binding.storage);
          r := builder.FreshReg();
          builder.Append(TypedPtr(r, p));
        }
      } else {
        r := EmitConst(GlobalRef(x));
      }
    }

    method EvalAddress(d: Designator) returns (r: Reg)
      requires Valid()
      modifies builder
      ensures Valid() && (Now(), r) == Address(old(Now()), d) && |builder.blocks| >= old(|builder.blocks|)
      decreases d, 0
    {
      hide NamePtr, Flatten;
      match d
      case Var(x) => r := LocalPtr(x);
      case Elem(x, dims, ixs) =>
        var base := LocalPtr(x);
        var flat := EvalIndices(dims, ixs);
        if flat.None? {
          r := base;
        } else {
          r := builder.FreshReg();
          builder.Append(IndexPtr(r, base, flat.value));
        }
    }

    method EvalIndices(dims: seq<Dim>, ixs: seq<Expr>) returns (flat: Option<Reg>)
      requires Valid()
      modifies builder
      ensures Valid() && (Now(), flat) == Flatten(old(Now()), dims, ixs, None) && |builder.blocks| >= old(|builder.blocks|)
      decreases ixs, 1
    {
      hide Expression, Dimension;
      flat := None;
      var k := 0;
      while k < |ixs| && k < |dims|
        invariant 0 <= k <= |ixs| && k <= |dims| && Valid() && |builder.blocks| >= old(|builder.blocks|)
        invariant Flatten(old(Now()), dims, ixs, None) == Flatten(Now(), dims[k..], ixs[k..], flat)
      {
        assert ixs[k..][0] == ixs[k] && ixs[k..][1..] == ixs[k + 1..] && dims[k..][0] == dims[k] && dims[k..][1..] == dims[k + 1..];
        var raw := EvalExpr(ixs[k]);
        var sum := AddDimension(raw, dims[k], Total(dims[k + 1..]), flat);
        flat := Some(sum);
        k := k + 1;
      }
    }

    /** Subtract the lower bound, check, scale by the stride, add to the sum so far. */
    method AddDimension(raw: Reg, dim: Dim, stride: int, acc: Option<Reg>) returns (sum: Reg)
      requires Valid()
      modifies builder
      ensures Valid() && (Now(), sum) == Dimension(old(Now()), raw, dim, stride, acc) && |builder.blocks| >= old(|builder.blocks|)
    {
      hide BoundsCheck, Push, Terminate, SwitchTo, NewBlock, Fresh, PushLoop, PopLoop;
      var adj := raw;
      if dim.lo != 0 {
        var c := EmitConst(IntC(dim.lo));
        adj := Emit(Sub, raw, c);
      }
      if 0 < dim.count <= MAX64 {
        EmitIndexCheck(adj, dim.count);
      }
      var term := adj;
      if stride != 1 {
        var c := EmitConst(IntC(stride));
        term := Emit(Mul, adj, c);
      }
      sum := term;
      if acc.Some? {
        sum := Emit(Add, acc.value, term);
      }
    }

    method EvalOrConst(e: Option<Expr>, d: int) returns (r: Reg)
      requires Valid()
      modifies builder
      ensures Valid() && (Now(), r) == ExpressionOr(old(Now()), e, d) && |builder.blocks| >= old(|builder.blocks|)
    {
      hide Expression;
      if e.Some? {
        r := EvalExpr(e.value);
      } else {
        r := EmitConst(IntC(d));
      }
    }

    // ---- Statements --------------------------------------------------------------------

    method LowerStmts(ss: seq<Stmt>)
      requires Valid()
      modifies this`locals, builder
      ensures Valid() && Now() == Statements(old(Now()), Around(), ss) && |builder.blocks| >= old(|builder.blocks|)
      decreases ss, 0
    {
      hide Statement;
      var i := 0;
      while i < |ss|
        invariant 0 <= i <= |ss| && Valid() && |builder.blocks| >= old(|builder.blocks|)
        invariant Statements(old(Now()), Around(), ss) == Statements(Now(), Around(), ss[i..])
      {
        assert ss[i..][0] == ss[i] && ss[i..][1..] == ss[i + 1..];
        var dead := builder.IsTerminated();
        if dead {
          break;
        }
        LowerStmt(ss[i]);
        i := i + 1;
      }
    }

    /** Falls into `target` unless the block already has an end. */
    method Fall(target: BlockId)
      requires Valid()
      modifies builder
      ensures Valid() && Now() == JumpTo(old(Now()), target) && |builder.blocks| == old(|builder.blocks|)
    {
      var dead := builder.IsTerminated();
      if !dead {
        builder.End(Goto(target));
      }
    }

    method LowerStmt(s: Stmt)
      requires Valid()
      modifies this`locals, builder
      ensures Valid() && Now() == Statement(old(Now()), Around(), s) && |builder.blocks| >= old(|builder.blocks|)
      decreases s, 2
    {
      hide Expression, Address, ExpressionOr, IfStatement, WhileStatement, RepeatStatement, ForStatement, LoopStatement, CaseStatement, ReturnStatement, RuntimeCall;
      match s
      case Empty =>
      case Assign(d, e) =>
        var v := EvalExpr(e);
        var p := EvalAddress(d);
        builder.Append(Store(p, v));
      case CallS(f, args) => var _ := EvalExpr(CallE(f, args));
      case IncDec(d, amount, up) => LowerIncDec(d, amount, up);
      case Assert(e) => LowerAssert(e);
      case Halt(code) => LowerHalt(code);
      case If(arms, els) => LowerIf(arms, els);
      case While(e, body) => LowerWhile(e, body);
      case Repeat(body, e) => LowerRepeat(body, e);
      case For(x, from, to, step, body) => LowerFor(x, from, to, step, body);
      case Loop(body) => LowerLoop(body);
      case Exit =>
        var frame := builder.CurrentLoop();
        if frame.Some? {
          builder.End(Goto(frame.value.exitBlock));
        }
      case Return(val) => LowerReturn(val);
      case Retry =>
        if retryTarget.Some? {
          CallRuntime(HANDLED, []);
          builder.End(Goto(retryTarget.value));
        }
      case Case(e, cardinal, arms, els) => LowerCase(e, cardinal, arms, els);
    }

    method LowerIncDec(d: Designator, amount: Option<Expr>, up: bool)
      requires Valid()
      modifies builder
      ensures Valid() && Now() == Increment(old(Now()), d, amount, up) && |builder.blocks| >= old(|builder.blocks|)
    {
      hide Address, ExpressionOr, Push, Terminate, SwitchTo, NewBlock, Fresh, PushLoop, PopLoop;
      var ptr := EvalAddress(d);
      var cur := EmitLoad(ptr);
      var delta := EvalOrConst(amount, 1);
      var res := Emit(if up then Add else Sub, cur, delta);
      builder.Append(Store(ptr, res));
    }

    method LowerAssert(e: Expr)
      requires Valid()
      modifies builder
      ensures Valid() && Now() == Assertion(old(Now()), e) && |builder.blocks| >= old(|builder.blocks|)
    {
      hide Expression, RuntimeCall, Push, Terminate, SwitchTo, NewBlock, Fresh, PushLoop, PopLoop;
      var cond := EvalExpr(e);
      var fail := builder.AddBlock();
      var cont := builder.AddBlock();
      builder.End(CondBr(cond, cont, fail));
      builder.Activate(fail);
      var msg := EmitConst(StrC(""));
      var high := EmitConst(IntC(0));
      CallRuntime(ASSERT_FAILED, [msg, high]);
      builder.End(Unreachable);
      builder.Activate(cont);
    }

    method LowerHalt(code: Option<Expr>)
      requires Valid()
      modifies builder
      ensures Valid() && Now() == HaltStatement(old(Now()), code) && |builder.blocks| >= old(|builder.blocks|)
    {
      hide ExpressionOr, RuntimeCall, Push, Terminate, SwitchTo, NewBlock, Fresh, PushLoop, PopLoop;
      var c := EvalOrConst(code, 1);
      CallRuntime(HALT, [c]);
      builder.End(Unreachable);
      var after := builder.AddBlock();
      builder.Activate(after);
    }

    method FreeExceptionFrame()
      requires Valid()
      modifies builder
      ensures Valid() && Now() == FreeFrame(old(Now()), Around()) && |builder.blocks| >= old(|builder.blocks|)
    {
      hide RuntimeCall;
      if frameToFree.Some? {
        CallRuntime(FREE, [frameToFree.value]);
      }
    }

    method LowerReturn(val: Option<Expr>)
      requires Valid()
      modifies builder
      ensures Valid() && Now() == ReturnStatement(old(Now()), Around(), val) && |builder.blocks| >= old(|builder.blocks|)
    {
      hide Expression, FreeFrame;
      var v: Option<Reg> := None;
      if val.Some? {
        var r := EvalExpr(val.value);
        v := Some(r);
      }
      FreeExceptionFrame();
      if resultSlot.None? {
        builder.End(Terminator.Return(v));
      } else if v.Some? {
        builder.Append(Store(resultSlot.value, v.value));
        builder.End(Terminator.Return(None));
      } else {
        builder.End(Terminator.Return(None));
      }
    }

    method LowerIf(arms: seq<IfArm>, els: Else)
      requires Valid()
      modifies this`locals, builder
      ensures Valid() && Now() == IfStatement(old(Now()), Around(), If(arms, els)) && |builder.blocks| >= old(|builder.blocks|)
      decreases If(arms, els), 0
    {
      hide Statements, Expression, JumpTo;
      ghost var b := Now();
      var join := builder.AddBlock();
      var i := 0;
      while i < |arms|
        invariant 0 <= i <= |arms| && Valid() && join < |builder.blocks| && |builder.blocks| >= old(|builder.blocks|)
        invariant IfArms(LBlock(b), Around(), arms, els.ElseDo?, join) == IfArms(Now(), Around(), arms[i..], els.ElseDo?, join)
      {
        assert arms[i..][0] == arms[i] && arms[i..][1..] == arms[i + 1..];
        LowerIfArm(arms[i], i + 1 < |arms| || els.ElseDo?, join);
        i := i + 1;
      }
      if els.ElseDo? {
        LowerStmts(els.ss);
        Fall(join);
        builder.Activate(join);
      }
    }

    /** One arm: test, body, jump to the join; goes on where the test fails to. */
    method LowerIfArm(arm: IfArm, more: bool, join: BlockId)
      requires Valid() && join < |builder.blocks|
      modifies this`locals, builder
      ensures Valid() && Now() == OneIfArm(old(Now()), Around(), arm, more, join) && |builder.blocks| >= old(|builder.blocks|)
      decreases arm, 0
    {
      hide Statements, Expression, JumpTo, Push, Terminate, SwitchTo, NewBlock, Fresh, PushLoop, PopLoop;
      var thenBlock := builder.AddBlock();
      var falseBlock := join;
      if more {
        falseBlock := builder.AddBlock();
      }
      var cond := EvalExpr(arm.cond);
      builder.End(CondBr(cond, thenBlock, falseBlock));
      builder.Activate(thenBlock);
      LowerStmts(arm.body);
      Fall(join);
      builder.Activate(falseBlock);
    }

    /** Leaves the active block with `t` and goes on in `body`, inside a loop. */
    method IntoLoop(t: Terminator, body: BlockId, f: LoopFrame)
      requires Valid() && body < |builder.blocks|
      modifies builder
      ensures Valid() && Now() == LoopIn(old(Now()), t, body, f) && |builder.blocks| == old(|builder.blocks|)
    {
      hide Terminate, SwitchTo, PushLoop;
      builder.End(t);
      builder.Activate(body);
      builder.EnterLoop(f);
    }

    method LowerWhile(cond: Expr, body: seq<Stmt>)
      requires Valid()
      modifies this`locals, builder
      ensures Valid() && Now() == WhileStatement(old(Now()), Around(), While(cond, body)) && |builder.blocks| >= old(|builder.blocks|)
      decreases While(cond, body), 0
    {
      hide Statements, WhileIn, JumpTo, SwitchTo, PopLoop;
      var header := EnterWhile(cond);
      LowerStmts(body);
      builder.LeaveLoop();
      Fall(header);
      builder.Activate(header + 2);
    }

    /** Header, body and exit blocks, the test, and into the body. */
    method EnterWhile(cond: Expr) returns (header: BlockId)
      requires Valid()
      modifies builder
      ensures Valid() && Now() == WhileIn(old(Now()), cond) && header == old(|builder.blocks|) && |builder.blocks| >= header + 3
    {
      hide LoopIn, Expression, Push, Terminate, SwitchTo, NewBlock, Fresh, PushLoop, PopLoop;
      header := builder.AddBlock();
      var bodyBlock := builder.AddBlock();
      var exitBlock := builder.AddBlock();
      builder.End(Goto(header));
      builder.Activate(header);
      var c := EvalExpr(cond);
      IntoLoop(CondBr(c, bodyBlock, exitBlock), bodyBlock, LoopFrame(exitBlock, header));
    }

    method LowerRepeat(body: seq<Stmt>, cond: Expr)
      requires Valid()
      modifies this`locals, builder
      ensures Valid() && Now() == RepeatStatement(old(Now()), Around(), Repeat(body, cond)) && |builder.blocks| >= old(|builder.blocks|)
      decreases Repeat(body, cond), 0
    {
      hide LoopIn, Statements, Expression, Push, Terminate, SwitchTo, NewBlock, Fresh, PushLoop, PopLoop;
      var bodyBlock := builder.AddBlock();
      var exitBlock := builder.AddBlock();
      IntoLoop(Goto(bodyBlock), bodyBlock, LoopFrame(exitBlock, bodyBlock));
      LowerStmts(body);
      builder.LeaveLoop();
      var dead := builder.IsTerminated();
      if !dead {
        var c := EvalExpr(cond);
        builder.End(CondBr(c, exitBlock, bodyBlock));
      }
      builder.Activate(exitBlock);
    }

    method LowerLoop(body: seq<Stmt>)
      requires Valid()
      modifies this`locals, builder
      ensures Valid() && Now() == LoopStatement(old(Now()), Around(), Loop(body)) && |builder.blocks| >= old(|builder.blocks|)
      decreases Loop(body), 0
    {
      hide LoopIn, Statements, JumpTo, Push, Terminate, SwitchTo, NewBlock, Fresh, PushLoop, PopLoop;
      var loopBlock := builder.AddBlock();
      var exitBlock := builder.AddBlock();
      IntoLoop(Goto(loopBlock), loopBlock, LoopFrame(exitBlock, loopBlock));
      LowerStmts(body);
      builder.LeaveLoop();
      Fall(loopBlock);
      builder.Activate(exitBlock);
    }

    // ---- FOR ------------------------------------------------------------------------------

    /** The control variable's address; a name without storage gets a new slot. */
    method ForPtr(x: string) returns (ptr: Reg)
      requires Valid()
      modifies this`locals, builder
      ensures Valid() && (Now(), ptr) == ForVariable(old(Now()), x) && |builder.blocks| >= old(|builder.blocks|)
    {
      if x in locals {
        ptr := LocalPtr(x);
      } else {
        ptr := builder.FreshReg();
        builder.Append(Alloca(ptr, None));
        locals := locals[x := Binding(ptr, Direct)];
      }
    }

    method LowerFor(x: string, from: Expr, to: Expr, step: Option<Expr>, body: seq<Stmt>)
      requires Valid()
      modifies this`locals, builder
      ensures Valid() && Now() == ForStatement(old(Now()), Around(), For(x, from, to, step, body)) && |builder.blocks| >= old(|builder.blocks|)
      decreases For(x, from, to, step, body), 0
    {
      hide Statements, ForSetup, ForIn, ForTail;
      var r := PrepareFor(x, from, to, step, body);
      var header := EnterFor(r);
      LowerStmts(body);
      LeaveFor(r, header);
    }

    /** The loop's blocks, its test, and into the body. */
    method EnterFor(r: ForRegs) returns (header: BlockId)
      requires Valid()
      modifies builder
      ensures Valid() && Now() == ForIn(old(Now()), r) && header == old(|builder.blocks|) && |builder.blocks| >= header + 4
    {
      hide LoopIn, ForHeader, Push, Terminate, SwitchTo, NewBlock, Fresh, PushLoop, PopLoop;
      header := builder.AddBlock();
      var bodyBlock := builder.AddBlock();
      var stepBlock := builder.AddBlock();
      var exitBlock := builder.AddBlock();
      builder.End(Goto(header));
      builder.Activate(header);
      var cond := EmitForTest(r);
      IntoLoop(CondBr(cond, bodyBlock, exitBlock), bodyBlock, LoopFrame(exitBlock, stepBlock));
    }

    /** After the body: the room test, the advance, and out of the loop. */
    method LeaveFor(r: ForRegs, header: BlockId)
      requires Valid() && header + 4 <= |builder.blocks|
      modifies builder
      ensures Valid() && Now() == ForTail(old(Now()), r, header) && |builder.blocks| >= old(|builder.blocks|)
    {
      hide ForRoom, ForAdvance, JumpTo, Push, Terminate, SwitchTo, NewBlock, Fresh, PushLoop, PopLoop;
      builder.LeaveLoop();
      Fall(header + 2);
      builder.Activate(header + 2);
      var cur, fits := EmitRoomTest(r);
      var advance := builder.AddBlock();
      builder.End(CondBr(fits, advance, header + 3));
      builder.Activate(advance);
      EmitAdvance(r, cur, header);
      builder.Activate(header + 3);
    }

    method PrepareFor(x: string, from: Expr, to: Expr, step: Option<Expr>, body: seq<Stmt>) returns (r: ForRegs)
      requires Valid()
      modifies this`locals, builder
      ensures Valid() && (Now(), r) == ForSetup(old(Now()), For(x, from, to, step, body)) && |builder.blocks| >= old(|builder.blocks|)
    {
      hide ForVariable, Expression, ExpressionOr;
      var ptr := ForPtr(x);
      var v := EvalExpr(from);
      builder.Append(Store(ptr, v));
      var last := EvalExpr(to);
      var stride := EvalOrConst(step, 1);
      var zero := EmitConst(IntC(0));
      var nonneg := Emit(Ge, stride, zero);
      r := ForRegs(ptr, last, stride, zero, nonneg);
    }

    method EmitForTest(r: ForRegs) returns (cond: Reg)
      requires Valid()
      modifies builder
      ensures Valid() && (Now(), cond) == ForHeader(old(Now()), r) && |builder.blocks| >= old(|builder.blocks|)
    {
      hide Ins;
      var cur := EmitLoad(r.ptr);
      var le := Emit(Le, cur, r.last);
      var ge := Emit(Ge, cur, r.last);
      var neg := EmitNot(r.nonneg);
      var asc := Emit(And, r.nonneg, le);
      var desc := Emit(And, neg, ge);
      cond := Emit(Or, asc, desc);
    }

    method EmitRoomTest(r: ForRegs) returns (cur: Reg, fits: Reg)
      requires Valid()
      modifies builder
      ensures Valid() && (Now(), cur, fits) == ForRoom(old(Now()), r) && |builder.blocks| >= old(|builder.blocks|)
    {
      hide Ins;
      cur := EmitLoad(r.ptr);
      var up := Emit(Sub, r.last, cur);
      var down := Emit(Sub, cur, r.last);
      var size := Emit(Sub, r.zero, r.stride);
      var neg := EmitNot(r.nonneg);
      var fitsUp := Emit(Ge, up, r.stride);
      var asc := Emit(And, r.nonneg, fitsUp);
      var fitsDown := Emit(Ge, down, size);
      var desc := Emit(And, neg, fitsDown);
      fits := Emit(Or, asc, desc);
    }

    method EmitAdvance(r: ForRegs, cur: Reg, header: BlockId)
      requires Valid()
      modifies builder
      ensures Valid() && Now() == ForAdvance(old(Now()), r, cur, header) && |builder.blocks| >= old(|builder.blocks|)
    {
      hide Push, Terminate, SwitchTo, NewBlock, Fresh, PushLoop, PopLoop;
      var next := Emit(Add, cur, r.stride);
      builder.Append(Store(r.ptr, next));
      builder.End(Goto(header));
    }

    // ---- CASE -----------------------------------------------------------------------------

    method LowerCase(e: Expr, ghost cardinal: bool, arms: seq<CaseArm>, els: Else)
      requires Valid()
      modifies this`locals, builder
      ensures Valid() && Now() == CaseStatement(old(Now()), Around(), Case(e, cardinal, arms, els)) && |builder.blocks| >= old(|builder.blocks|)
      decreases Case(e, cardinal, arms, els), 0
    {
      hide Statements, Expression, CaseDispatch, CaseArms, CaseElse;
      var v := EvalExpr(e);
      var join := |builder.blocks|;
      EmitDispatch(v, arms);
      LowerCaseArms(arms, join + 2, join);
      builder.Activate(join + 1);
      LowerCaseElse(els, join);
      builder.Activate(join);
    }

    /** Join block, else block, one block per arm, range tests, switch. */
    method EmitDispatch(v: Reg, arms: seq<CaseArm>)
      requires Valid()
      modifies builder
      ensures Valid() && Now() == CaseDispatch(old(Now()), v, arms) && |builder.blocks| >= old(|builder.blocks|) + 2 + |arms|
    {
      hide RangeTests, Singles, Ranges;
      ghost var b := Now();
      var join := builder.AddBlock();
      var default := builder.AddBlock();
      var armBlocks: seq<BlockId> := [];
      while |armBlocks| < |arms|
        invariant |armBlocks| <= |arms| && Valid() && |builder.blocks| == join + 2 + |armBlocks|
        invariant forall k :: 0 <= k < |armBlocks| ==> armBlocks[k] == join + 2 + k
        invariant AddBlocks(b, 2 + |arms|) == AddBlocks(Now(), |arms| - |armBlocks|)
      {
        var id := builder.AddBlock();
        armBlocks := armBlocks + [id];
      }
      var singles, ranges := SortLabels(arms, armBlocks, join + 2);
      EmitRangeTests(v, ranges);
      builder.End(Switch(v, singles, default));
    }

    /** Single labels and ranges apart, each in the order of the arms. */
    static method SortLabels(arms: seq<CaseArm>, armBlocks: seq<BlockId>, first: BlockId)
      returns (singles: seq<(int, BlockId)>, ranges: seq<(int, int, BlockId)>)
      requires |armBlocks| == |arms| && forall k :: 0 <= k < |arms| ==> armBlocks[k] == first + k
      ensures singles == Singles(arms, first) && ranges == Ranges(arms, first)
    {
      singles, ranges := [], [];
      var i := 0;
      while i < |arms|
        invariant 0 <= i <= |arms|
        invariant Singles(arms, first) == singles + Singles(arms[i..], first + i)
        invariant Ranges(arms, first) == ranges + Ranges(arms[i..], first + i)
      {
        assert arms[i..][0] == arms[i] && arms[i..][1..] == arms[i + 1..];
        var s, r := SortArm(arms[i].labels, armBlocks[i]);
        singles, ranges := singles + s, ranges + r;
        i := i + 1;
      }
    }

    static method SortArm(labels: seq<Label>, target: BlockId) returns (singles: seq<(int, BlockId)>, ranges: seq<(int, int, BlockId)>)
      ensures singles == LabelSingles(labels, target) && ranges == LabelRanges(labels, target)
    {
      singles, ranges := [], [];
      var j := 0;
      while j < |labels|
        invariant 0 <= j <= |labels|
        invariant LabelSingles(labels, target) == singles + LabelSingles(labels[j..], target)
        invariant LabelRanges(labels, target) == ranges + LabelRanges(labels[j..], target)
      {
        assert labels[j..][0] == labels[j] && labels[j..][1..] == labels[j + 1..];
        match labels[j] {
          case Single(n) => singles := singles + [(n, target)];
          case Range(lo, hi) => ranges := ranges + [(lo, hi, target)];
        }
        j := j + 1;
      }
    }

    method EmitRangeTests(v: Reg, ranges: seq<(int, int, BlockId)>)
      requires Valid()
      modifies builder
      ensures Valid() && Now() == RangeTests(old(Now()), v, ranges) && |builder.blocks| >= old(|builder.blocks|)
    {
      hide RangeTest;
      var i := 0;
      while i < |ranges|
        invariant 0 <= i <= |ranges| && Valid() && |builder.blocks| >= old(|builder.blocks|)
        invariant RangeTests(old(Now()), v, ranges) == RangeTests(Now(), v, ranges[i..])
      {
        assert ranges[i..][0] == ranges[i] && ranges[i..][1..] == ranges[i + 1..];
        EmitRangeTest(v, ranges[i].0, ranges[i].1, ranges[i].2);
        i := i + 1;
      }
    }

    method EmitRangeTest(v: Reg, lo: int, hi: int, target: BlockId)
      requires Valid()
      modifies builder
      ensures Valid() && Now() == RangeTest(old(Now()), v, lo, hi, target) && |builder.blocks| >= old(|builder.blocks|)
    {
      hide Push, Terminate, SwitchTo, NewBlock, Fresh, PushLoop, PopLoop;
      var next := builder.AddBlock();
      var low := EmitConst(IntC(lo));
      var high := EmitConst(IntC(hi));
      var ge := Emit(Ge, v, low);
      var le := Emit(Le, v, high);
      var inside := Emit(And, ge, le);
      builder.End(CondBr(inside, target, next));
      builder.Activate(next);
    }

    method LowerCaseArms(arms: seq<CaseArm>, first: BlockId, join: BlockId)
      requires Valid() && first + |arms| <= |builder.blocks|
      modifies this`locals, builder
      ensures Valid() && Now() == CaseArms(old(Now()), Around(), arms, first, join) && |builder.blocks| >= old(|builder.blocks|)
      decreases arms, 0
    {
      hide Statements, JumpTo;
      var i := 0;
      while i < |arms|
        invariant 0 <= i <= |arms| && Valid() && |builder.blocks| >= old(|builder.blocks|)
        invariant CaseArms(old(Now()), Around(), arms, first, join) == CaseArms(Now(), Around(), arms[i..], first + i, join)
      {
        assert arms[i..][0] == arms[i] && arms[i..][1..] == arms[i + 1..];
        builder.Activate(first + i);
        LowerStmts(arms[i].body);
        Fall(join);
        i := i + 1;
      }
    }

    method LowerCaseElse(els: Else, join: BlockId)
      requires Valid()
      modifies this`locals, builder
      ensures Valid() && Now() == CaseElse(old(Now()), Around(), els, join) && |builder.blocks| >= old(|builder.blocks|)
      decreases els, 0
    {
      hide Statements, JumpTo, RaiseM2;
      if els.ElseDo? {
        LowerStmts(els.ss);
        Fall(join);
      } else {
        var dead := builder.IsTerminated();
        if !dead {
          RaiseException(CASE_EXCEPTION);
        }
      }
    }

    // ---- Protected procedures --------------------------------------------------------------

    /** Around the outlined statements `p.name`: run them protected, dispatch to the
        handler, run the FINALLY part, free the exception frame. */
    method LowerProtectedWrapper(p: Protected, state: Reg, result: Option<Reg>)
      requires Valid()
      modifies this`locals, this`retryTarget, builder
      ensures Valid() && Now() == Wrapper(old(Now()), old(Around()), p, state, result) && Around() == old(Around())
      ensures |builder.blocks| >= old(|builder.blocks|)
    {
      hide ProtectRun, Handled, Finalized, NewBlock, SwitchTo, Terminate;
      var header := builder.AddBlock();
      builder.End(Goto(header));
      builder.Activate(header);
      var ok := EmitProtectedRun(p.name, state);
      if p.handler.Some? {
        LowerHandler(p, ok, header, result);
      } else {
        LowerFinalizer(p, ok, result);
      }
    }

    method EmitProtectedRun(name: string, state: Reg) returns (ok: Reg)
      requires Valid()
      modifies builder
      ensures Valid() && (Now(), ok) == ProtectRun(old(Now()), name, state) && |builder.blocks| >= old(|builder.blocks|)
    {
      hide Push;
      var body := EmitConst(FuncRef(name));
      var callee := EmitConst(FuncRef(RUN_PROTECTED));
      var raised := builder.FreshReg();
      builder.Append(Call(Some(raised), callee, [body, state]));
      var zero := EmitConst(IntC(0));
      ok := Emit(Eq, raised, zero);
    }

    method LowerHandler(p: Protected, ok: Reg, header: BlockId, result: Option<Reg>)
      requires Valid() && p.handler.Some?
      modifies this`locals, this`retryTarget, builder
      ensures Valid() && Now() == Handled(old(Now()), old(Around()), p, ok, header, result) && Around() == old(Around())
      ensures |builder.blocks| >= old(|builder.blocks|)
    {
      hide Statements, RuntimeCall, ProtectReturn, NewBlock, SwitchTo, Terminate, Last;
      var join := EnterHandler(ok);
      var outer := retryTarget;
      retryTarget := Some(header);
      LowerStmts(p.handler.value);
      retryTarget := outer;
      LeaveHandler(join);
      LastStatements(p, result);
    }

    method EnterHandler(ok: Reg) returns (join: BlockId)
      requires Valid()
      modifies builder
      ensures Valid() && Now() == HandlerIn(old(Now()), ok) && join == |old(builder.blocks)| + 1 < |builder.blocks|
    {
      hide NewBlock, SwitchTo, Terminate;
      var handler := builder.AddBlock();
      join := builder.AddBlock();
      builder.End(CondBr(ok, join, handler));
      builder.Activate(handler);
    }

    method LeaveHandler(join: BlockId)
      requires Valid() && join < |builder.blocks|
      modifies builder
      ensures Valid() && Now() == HandlerOut(old(Now()), join) && |builder.blocks| >= old(|builder.blocks|)
    {
      hide RuntimeCall, SwitchTo, Terminate;
      var dead := builder.IsTerminated();
      if !dead {
        CallRuntime(HANDLED, []);
        builder.End(Goto(join));
      }
      builder.Activate(join);
    }

    method LastStatements(p: Protected, result: Option<Reg>)
      requires Valid()
      modifies this`locals, builder
      ensures Valid() && Now() == Last(old(Now()), Around(), p.final, result) && |builder.blocks| >= old(|builder.blocks|)
    {
      hide Statements, ProtectReturn;
      LowerStmts(p.final);
      var dead := builder.IsTerminated();
      if !dead {
        EmitProtectedReturn(result);
      }
    }

    method LowerFinalizer(p: Protected, ok: Reg, result: Option<Reg>)
      requires Valid()
      modifies this`locals, builder
      ensures Valid() && Now() == Finalized(old(Now()), Around(), p, ok, result) && |builder.blocks| >= old(|builder.blocks|)
    {
      hide Statements, RuntimeCall, ProtectReturn, FreeFrame, NewBlock, SwitchTo, Terminate;
      LowerStmts(p.final);
      var dead := builder.IsTerminated();
      if !dead {
        var normal := builder.AddBlock();
        var reraise := builder.AddBlock();
        builder.End(CondBr(ok, normal, reraise));
        builder.Activate(reraise);
        FreeExceptionFrame();
        CallRuntime(RERAISE, []);
        builder.End(Unreachable);
        builder.Activate(normal);
        EmitProtectedReturn(result);
      }
    }

    method EmitProtectedReturn(result: Option<Reg>)
      requires Valid()
      modifies builder
      ensures Valid() && Now() == ProtectReturn(old(Now()), Around(), result) && |builder.blocks| >= old(|builder.blocks|)
    {
      hide FreeFrame, Ins, Terminate;
      FreeExceptionFrame();
      if result.Some? {
        var v := EmitLoad(result.value);
        builder.End(Terminator.Return(Some(v)));
      } else {
        builder.End(Terminator.Return(None));
      }
    }
  }

  /** Lowers a whole function. */
  method LowerFunction(decls: seq<Decl>, body: seq<Stmt>, hasResult: bool) returns (f: seq<Block>)
    ensures IsSealing(Blocks(FunctionBody(decls, body)), f, !hasResult)
  {
    hide Prologue, Statements;
    var fl := new FuncLower(decls, hasResult);
    fl.LowerStmts(body);
    f := fl.builder.Finish();
  }
}
