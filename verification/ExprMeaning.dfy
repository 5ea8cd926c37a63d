/** Running the code of an expression gives the expression's value, its effects on
    the store and the trace, and nothing else the surrounding code can see. */
module ExprMeaning {
  import opened Arith
  import opened Ir
  import opened Machine
  import opened Source
  import opened Builder
  import opened LowerSpec
  import opened LowerGrow
  import opened Running
  import opened Operators

  lemma NameStep(w: World, f: seq<Block>, b: Low, x: string, c: Config) returns (d: Config)
    requires !Closed(b) && At(c, b) && Names(w, b, c) && Ext(Blocks(NamePtr(b, x).0), f)
    ensures Yields(w, f, b, NamePtr(b, x).0, c, d, NamePtr(b, x).1, Val(CellAddr(Loc(w.env(x), 0)), c.st))
  {
    hide Ext, Reach, Arrives, Kept;
    var r := b.g.nextReg;
    var l := CellAddr(Loc(w.env(x), 0));
    ArrivesRefl(w, f, b, c);
    if x !in b.locals {
      d := InsStep(w, f, b, Const(r, GlobalRef(x)), c, l);
    } else if b.locals[x].kind.Direct? {
      d := c;
    } else {
      var s := b.locals[x].storage;
      var b1 := Ins(b, Load(r, s));
      ExtIns(b1, TypedPtr(r + 1, r), f);
      var c1 := InsStep(w, f, b, Load(r, s), c, l);
      d := InsStep(w, f, b1, TypedPtr(r + 1, r), c1, l);
      ArrivesTrans(w, f, b, b1, Ins(b1, TypedPtr(r + 1, r)), c, c1, d, c.st, c.st);
    }
  }

  /** After some code has run, one more instruction defines the result. */
  lemma ThenIns(w: World, f: seq<Block>, a: Low, b: Low, i: Inst, c: Config, d: Config, st: State, v: Value) returns (e: Config)
    requires Arrives(w, f, a, b, c, d, st) && a.g.nextReg <= b.g.nextReg
    requires !Closed(b) && Ext(Blocks(Ins(b, i)), f)
    requires ExecInst(w, i, d) == Run(Set(d, b.g.nextReg, v))
    ensures Arrives(w, f, a, Ins(b, i), c, e, st) && Holds(Ins(b, i), e, b.g.nextReg, v)
    ensures e == Set(d, b.g.nextReg, v)
  {
    e := InsStep(w, f, b, i, d, v);
    ArrivesTrans(w, f, a, b, Ins(b, i), c, d, e, st, st);
  }

  /** The integer operators the lowering itself uses. */
  lemma OpTable(x: I64, y: I64)
    ensures BinaryOf(Add, x, y) == Some(Wrap(x + y)) && BinaryOf(Sub, x, y) == Some(Wrap(x - y))
    ensures BinaryOf(Ge, x, y) == Some(FromBool(x >= y)) && BinaryOf(Le, x, y) == Some(FromBool(x <= y))
    ensures BinaryOf(And, x, y) == Some(FromBool(x != 0 && y != 0)) && BinaryOf(Or, x, y) == Some(FromBool(x != 0 || y != 0))
  {
  }

  /** One more binary instruction after code from `a` to `b`. */
  lemma ThenBinary(w: World, f: seq<Block>, a: Low, b: Low, op: BinOp, l: Reg, r: Reg, x: I64, y: I64, v: I64, c: Config, d: Config, st: State)
    returns (e: Config)
    requires Arrives(w, f, a, b, c, d, st) && a.g.nextReg <= b.g.nextReg && !Closed(b)
    requires Ext(Blocks(Ins(b, Binary(b.g.nextReg, op, l, r))), f)
    requires Holds(b, d, l, Num(x)) && Holds(b, d, r, Num(y)) && BinaryOf(op, x, y) == Some(v)
    ensures var b1 := Ins(b, Binary(b.g.nextReg, op, l, r));
            && Arrives(w, f, a, b1, c, e, st) && Holds(b1, e, b.g.nextReg, Num(v)) && Kept(b.g.nextReg, d, e)
            && !Closed(b1) && b1.locals == b.locals && b1.g.nextReg == b.g.nextReg + 1
  {
    hide BinaryOf, Ext;
    e := InsStep(w, f, b, Binary(b.g.nextReg, op, l, r), d, Num(v));
    ArrivesTrans(w, f, a, b, Ins(b, Binary(b.g.nextReg, op, l, r)), c, d, e, st, st);
  }

  /** An escape in a later part is an escape of the whole. */
  lemma ThenEscape(w: World, f: seq<Block>, a: Low, b: Low, c: Config, d: Config, st: State, st1: State)
    requires Arrives(w, f, a, b, c, d, st) && Reach(w, f, 0, Run(d), Done(Aborted, st1))
    ensures Reach(w, f, 0, Run(c), Done(Aborted, st1))
  {
    ReachTrans(w, f, 0, 0, Run(c), Run(d), Done(Aborted, st1));
  }

  lemma {:induction false} ExpressionMeaning(w: World, f: seq<Block>, b: Low, e: Expr, c: Config) returns (d: Config)
    requires WfE(e) && !Closed(b) && At(c, b) && Names(w, b, c) && Ext(Blocks(Expression(b, e).0), f)
    ensures Yields(w, f, b, Expression(b, e).0, c, d, Expression(b, e).1, AsNum(Eval(w, e, c.st)))
    decreases e, 1
  {
    match e
    case IntLit(n) => d := InsStep(w, f, b, Const(b.g.nextReg, IntC(n)), c, Num(Wrap(n)));
    case BoolLit(v) => d := InsStep(w, f, b, Const(b.g.nextReg, BoolC(v)), c, Num(FromBool(v)));
    case Des(_) => d := LoadMeaning(w, f, b, e, c);
    case Arith(_, _, _) => d := ArithMeaning(w, f, b, e, c);
    case AndThen(_, _) => d := ShortCircuitMeaning(w, f, b, e, c);
    case OrElse(_, _) => d := ShortCircuitMeaning(w, f, b, e, c);
    case NotE(_) => d := UnaryMeaning(w, f, b, e, c);
    case NegE(_) => d := UnaryMeaning(w, f, b, e, c);
    case CallE(_, _) => d := CallMeaning(w, f, b, e, c);
  }

  lemma {:induction false} LoadMeaning(w: World, f: seq<Block>, b: Low, e: Expr, c: Config) returns (d: Config)
    requires e.Des? && WfE(e) && !Closed(b) && At(c, b) && Names(w, b, c) && Ext(Blocks(Expression(b, e).0), f)
    ensures Yields(w, f, b, Expression(b, e).0, c, d, Expression(b, e).1, AsNum(Eval(w, e, c.st)))
    decreases e, 0
  {
    var (b1, p) := Address(b, e.d);
    var i := Load(b1.g.nextReg, p);
    GrowsAddress(b, e.d);
    ExtIns(b1, i, f);
    d := AddressMeaning(w, f, b, e.d, c);
    match Locate(w, e.d, c.st)
    case Escaped(_) =>
    case Val(l, st) => d := ThenIns(w, f, b, b1, i, c, d, st, Num(ReadCell(st, l)));
  }

  lemma {:induction false} UnaryMeaning(w: World, f: seq<Block>, b: Low, e: Expr, c: Config) returns (d: Config)
    requires (e.NotE? || e.NegE?) && WfE(e) && !Closed(b) && At(c, b) && Names(w, b, c) && Ext(Blocks(Expression(b, e).0), f)
    ensures Yields(w, f, b, Expression(b, e).0, c, d, Expression(b, e).1, AsNum(Eval(w, e, c.st)))
    decreases e, 0
  {
    var (b1, x) := Expression(b, e.e);
    var op := if e.NotE? then UnaryOp.Not else UnaryOp.Neg;
    var i := Unary(b1.g.nextReg, op, x);
    GrowsExpression(b, e.e);
    ExtIns(b1, i, f);
    d := ExpressionMeaning(w, f, b, e.e, c);
    match Eval(w, e.e, c.st)
    case Escaped(_) =>
    case Val(v, st) => d := ThenIns(w, f, b, b1, i, c, d, st, Num(UnaryOf(op, v)));
  }

  lemma {:induction false} CallMeaning(w: World, f: seq<Block>, b: Low, e: Expr, c: Config) returns (d: Config)
    requires e.CallE? && WfE(e) && !Closed(b) && At(c, b) && Names(w, b, c) && Ext(Blocks(Expression(b, e).0), f)
    ensures Yields(w, f, b, Expression(b, e).0, c, d, Expression(b, e).1, AsNum(Eval(w, e, c.st)))
    decreases e, 0
  {
    hide Ext, Arguments, EvalArgs, WfA, BinaryOf, Reach, Names, Invoke;
    var callee := b.g.nextReg;
    var b0 := Ins(b, Const(callee, FuncRef(e.f)));
    var (b1, rs) := Arguments(b0, e.args);
    var i := Call(Some(b1.g.nextReg), callee, rs);
    GrowsArguments(b0, e.args);
    ExtIns(b1, i, f);
    ExtBack(b0, b1, f);
    var c0 := InsStep(w, f, b, Const(callee, FuncRef(e.f)), c, Code(e.f));
    NamesKept(w, b, b0, c, c0);
    d := ArgumentsMeaning(w, f, b0, e.args, c0);
    match EvalArgs(w, e.args, c.st)
    case Escaped(st) => ThenEscape(w, f, b, b0, c, c0, c.st, st);
    case Val(vs, st) =>
      ArrivesTrans(w, f, b, b0, b1, c, c0, d, c.st, st);
      HoldsKept(b0, b1, c0, d, callee, Code(e.f));
      assert ValuesOf(d.regs, rs) == vs;
      d := CallStep(w, f, b, b1, callee, rs, e.f, vs, c, d, st);
  }

  /** The call itself: back with its result, or never. */
  lemma {:induction false} CallStep(w: World, f: seq<Block>, b: Low, b1: Low, callee: Reg, rs: seq<Reg>, name: string, vs: seq<Value>, c: Config, c1: Config, st: State) returns (d: Config)
    requires Arrives(w, f, b, b1, c, c1, st) && !Closed(b1) && b.g.nextReg <= b1.g.nextReg && Holds(b1, c1, callee, Code(name))
    requires (forall r :: r in rs ==> r in c1.regs) && ValuesOf(c1.regs, rs) == vs
    requires Ext(Blocks(Ins(b1, Call(Some(b1.g.nextReg), callee, rs))), f)
    ensures var z := Ins(b1, Call(Some(b1.g.nextReg), callee, rs));
            match Invoke(w, name, vs, st)
            case Gone(st1) => Reach(w, f, 0, Run(c), Done(Aborted, st1))
            case Returned(v, st1) => Arrives(w, f, b, z, c, d, st1) && !Closed(z) && Holds(z, d, b1.g.nextReg, Num(v)) && d == Set(c1.(st := st1), b1.g.nextReg, Num(v))
  {
    hide Ext, Invoke, Reach;
    var i := Call(Some(b1.g.nextReg), callee, rs);
    PushStep(w, f, LFresh(b1), i, c1);
    match Invoke(w, name, vs, st)
    case Returned(v, st1) =>
      d := Set(c1.(st := st1), b1.g.nextReg, Num(v));
      ReachTrans(w, f, 0, 0, Run(c), Run(c1), Run(d));
    case Gone(st1) =>
      d := c1;
      ReachTrans(w, f, 0, 0, Run(c), Run(c1), Done(Aborted, st1));
  }

  lemma {:induction false} ArgumentsMeaning(w: World, f: seq<Block>, b: Low, args: seq<Arg>, c: Config) returns (d: Config)
    requires (forall a :: a in args ==> WfA(a)) && !Closed(b) && At(c, b) && Names(w, b, c) && Ext(Blocks(Arguments(b, args).0), f)
    ensures match EvalArgs(w, args, c.st)
            case Escaped(st) => Reach(w, f, 0, Run(c), Done(Aborted, st))
            case Val(vs, st) =>
              var (b1, rs) := Arguments(b, args);
              Arrives(w, f, b, b1, c, d, st) && |rs| == |vs| && forall k :: 0 <= k < |rs| ==> Holds(b1, d, rs[k], vs[k])
    decreases args, 0
  {
    if args == [] {
      d := c;
      ArrivesRefl(w, f, b, c);
    } else {
      var (b1, r) := Argument(b, args[0]);
      var (b2, rs) := Arguments(b1, args[1..]);
      GrowsArgument(b, args[0]);
      GrowsArguments(b1, args[1..]);
      ExtBack(b1, b2, f);
      d := ArgumentMeaning(w, f, b, args[0], c);
      match EvalArg(w, args[0], c.st)
      case Escaped(_) =>
      case Val(v, st) =>
        var c1 := d;
        NamesKept(w, b, b1, c, c1);
        d := ArgumentsMeaning(w, f, b1, args[1..], c1);
        match EvalArgs(w, args[1..], st)
        case Escaped(st1) => ThenEscape(w, f, b, b1, c, c1, st, st1);
        case Val(vs, st1) =>
          ArrivesTrans(w, f, b, b1, b2, c, c1, d, st, st1);
          HoldsKept(b1, b2, c1, d, r, v);
    }
  }

  lemma {:induction false} ArgumentMeaning(w: World, f: seq<Block>, b: Low, a: Arg, c: Config) returns (d: Config)
    requires WfA(a) && !Closed(b) && At(c, b) && Names(w, b, c) && Ext(Blocks(Argument(b, a).0), f)
    ensures Yields(w, f, b, Argument(b, a).0, c, d, Argument(b, a).1, EvalArg(w, a, c.st))
    decreases a, 0
  {
    match a
    case ByValue(e) => d := ExpressionMeaning(w, f, b, e, c);
    case ByAddress(l) => d := AddressMeaning(w, f, b, l, c);
  }

  // ---- Arithmetic, with the zero check ---------------------------------------------------

  lemma TestStep(w: World, f: seq<Block>, b: Low, op: BinOp, subject: Reg, limit: int, x: I64, v: I64, c: Config) returns (d: Config)
    requires !Closed(b) && At(c, b) && Holds(b, c, subject, Num(x)) && Ext(Blocks(Test(b, op, subject, limit)), f)
    requires BinaryOf(op, x, Wrap(limit)) == Some(v)
    ensures Arrives(w, f, b, Test(b, op, subject, limit), c, d, c.st)
    ensures Holds(Test(b, op, subject, limit), d, b.g.nextReg + 1, Num(v))
  {
    var n := b.g.nextReg;
    var i1 := Const(n, IntC(limit));
    var b1 := Ins(b, i1);
    var i2 := Binary(n + 1, op, subject, n);
    ExtIns(b1, i2, f);
    var c1 := InsStep(w, f, b, i1, c, Num(Wrap(limit)));
    d := ThenIns(w, f, b, b1, i2, c, c1, c.st, Num(v));
  }

  /** A test followed by a trap. */
  lemma TestTrapStep(w: World, f: seq<Block>, b: Low, op: BinOp, subject: Reg, limit: int, number: I64, x: I64, v: I64, c: Config) returns (d: Config)
    requires !Closed(b) && At(c, b) && Holds(b, c, subject, Num(x)) && BinaryOf(op, x, Wrap(limit)) == Some(v)
    requires Ext(Blocks(Trap(Test(b, op, subject, limit), b.g.nextReg + 1, number)), f)
    ensures if v != 0 then Reach(w, f, 0, Run(c), Done(Aborted, Raise(w, number, c.st)))
            else Arrives(w, f, b, Trap(Test(b, op, subject, limit), b.g.nextReg + 1, number), c, d, c.st)
  {
    hide BinaryOf, Trap, Ext, Names, Blocks, Test;
    var b1 := Test(b, op, subject, limit);
    var b2 := Trap(b1, b.g.nextReg + 1, number);
    GrowsTest(b, op, subject, limit);
    GrowsTrap(b1, b.g.nextReg + 1, number);
    ExtBack(b1, b2, f);
    var c1 := TestStep(w, f, b, op, subject, limit, x, v, c);
    d := TrapStep(w, f, b1, b.g.nextReg + 1, number, c1);
    if v != 0 {
      ThenEscape(w, f, b, b1, c, c1, c.st, Raise(w, number, c.st));
    } else {
      ArrivesTrans(w, f, b, b1, b2, c, c1, d, c.st, c.st);
    }
  }

  lemma {:induction false} ArithMeaning(w: World, f: seq<Block>, b: Low, e: Expr, c: Config) returns (d: Config)
    requires e.Arith? && WfE(e) && !Closed(b) && At(c, b) && Names(w, b, c) && Ext(Blocks(Expression(b, e).0), f)
    ensures Yields(w, f, b, Expression(b, e).0, c, d, Expression(b, e).1, AsNum(Eval(w, e, c.st)))
    decreases e, 0
  {
    hide Ext, Names, Reach, Closed, At, Kept;
    var (b1, x) := Expression(b, e.l);
    var (b2, y) := Expression(b1, e.r);
    GrowsExpression(b, e.l);
    GrowsExpression(b1, e.r);
    ExtArith(b, e, f);
    d := ExpressionMeaning(w, f, b, e.l, c);
    match Eval(w, e.l, c.st)
    case Escaped(_) =>
    case Val(v, st) =>
      var c1 := d;
      NamesKept(w, b, b1, c, c1);
      d := ExpressionMeaning(w, f, b1, e.r, c1);
      match Eval(w, e.r, st)
      case Escaped(st1) => ThenEscape(w, f, b, b1, c, c1, st, st1);
      case Val(u, st1) =>
        ArrivesTrans(w, f, b, b1, b2, c, c1, d, st, st1);
        HoldsKept(b1, b2, c1, d, x, Num(v));
        d := OperatorMeaning(w, f, b, b2, e, x, y, c, d, v, u, st1);
  }

  lemma ExtArith(b: Low, e: Expr, f: seq<Block>)
    requires e.Arith? && Ext(Blocks(Expression(b, e).0), f)
    ensures var b1 := Expression(b, e.l).0; Ext(Blocks(b1), f) && Ext(Blocks(Expression(b1, e.r).0), f)
  {
    var b1 := Expression(b, e.l).0;
    var (b2, y) := Expression(b1, e.r);
    GrowsExpression(b1, e.r);
    var b3 := LFresh(b2);
    GrowsGuarded(b3, e.op, y);
    ExtPush(Guarded(b3, e.op, y), Binary(b2.g.nextReg, IrOp(e.op), Expression(b, e.l).1, y), f);
    ExtBack(b3, Guarded(b3, e.op, y), f);
    ExtBack(b1, b2, f);
  }

  lemma GuardedStep(w: World, f: seq<Block>, b: Low, op: ArithOp, y: Reg, u: I64, c: Config) returns (d: Config)
    requires !Closed(b) && At(c, b) && Holds(b, c, y, Num(u)) && Ext(Blocks(Guarded(b, op, y)), f)
    ensures if Divides(op) && u == 0 then Reach(w, f, 0, Run(c), Done(Aborted, Raise(w, DIV_EXCEPTION, c.st)))
            else Arrives(w, f, b, Guarded(b, op, y), c, d, c.st)
  {
    hide Ext, Names, Kept, Invoke, Trap, Reach;
    d := c;
    ArrivesRefl(w, f, b, c);
    if Divides(op) {
      d := TestTrapStep(w, f, b, Eq, y, 0, DIV_EXCEPTION, u, FromBool(u == 0), c);
    }
  }

  /** The instruction that defines the register set aside before the check. */
  lemma BinaryStep(w: World, f: seq<Block>, b: Low, b2: Low, b4: Low, i: Inst, c: Config, c2: Config, c3: Config, st: State, r: I64) returns (d: Config)
    requires Arrives(w, f, b, b4, c, c3, st) && Kept(b2.g.nextReg + 1, c2, c3)
    requires b.g.nextReg <= b2.g.nextReg < b4.g.nextReg && !Closed(b4) && Ext(Blocks(LPush(b4, i)), f)
    requires i.Binary? && i.dst == b2.g.nextReg && HasNum(c2, i.lhs) && HasNum(c2, i.rhs) && i.lhs < b2.g.nextReg && i.rhs < b2.g.nextReg
    requires BinaryOf(i.op, c2.regs[i.lhs].n, c2.regs[i.rhs].n) == Some(r)
    ensures Arrives(w, f, b, LPush(b4, i), c, d, st) && Holds(LPush(b4, i), d, i.dst, Num(r))
  {
    hide BinaryOf, Ext;
    PushStep(w, f, b4, i, c3);
    d := Set(c3, i.dst, Num(r));
    ReachTrans(w, f, 0, 0, Run(c), Run(c3), Run(d));
  }

  /** From both operands in registers to the result, or the exception. */
  lemma OperatorMeaning(w: World, f: seq<Block>, b: Low, b2: Low, e: Expr, x: Reg, y: Reg, c: Config, c2: Config, v: I64, u: I64, st: State)
    returns (d: Config)
    requires e.Arith? && !Closed(b2) && b.g.nextReg <= b2.g.nextReg
    requires Arrives(w, f, b, b2, c, c2, st) && Holds(b2, c2, x, Num(v)) && Holds(b2, c2, y, Num(u))
    requires Ext(Blocks(LPush(Guarded(LFresh(b2), e.op, y), Binary(b2.g.nextReg, IrOp(e.op), x, y))), f)
    ensures Yields(w, f, b, LPush(Guarded(LFresh(b2), e.op, y), Binary(b2.g.nextReg, IrOp(e.op), x, y)), c, d, b2.g.nextReg,
                   if Divides(e.op) && u == 0 then Escaped(Raise(w, DIV_EXCEPTION, st)) else Val(Num(Meaning(e.op, v, u)), st))
  {
    hide Ext, Guarded, Meaning, BinaryOf, Raise, IrOp, Reach;
    var b3 := LFresh(b2);
    var b4 := Guarded(b3, e.op, y);
    var dst := b2.g.nextReg;
    var i := Binary(dst, IrOp(e.op), x, y);
    ExtPush(b4, i, f);
    GrowsGuarded(b3, e.op, y);
    d := GuardedStep(w, f, b3, e.op, y, u, c2);
    if Divides(e.op) && u == 0 {
      ThenEscape(w, f, b, b2, c, c2, st, Raise(w, DIV_EXCEPTION, st));
    } else {
      var c3 := d;
      assert Arrives(w, f, b, b3, c, c2, st);
      ArrivesTrans(w, f, b, b3, b4, c, c2, c3, st, st);
      OperatorsAgree(e.op, v, u);
      d := BinaryStep(w, f, b, b2, b4, i, c, c2, c3, st, Meaning(e.op, v, u));
    }
  }

  // ---- Short-circuit AND and OR ------------------------------------------------------------

  /** The state after the left operand, and the block each outcome goes to. */
  lemma {:induction false} LeftOperand(w: World, f: seq<Block>, b: Low, e: Expr, c: Config) returns (d: Config)
    requires (e.AndThen? || e.OrElse?) && WfE(e) && !Closed(b) && At(c, b) && Names(w, b, c)
    requires var b0 := Ins(b, Alloca(b.g.nextReg, None)); var (b1, x) := Expression(b0, e.l);
             Ext(Blocks(LPush(b1, Store(b.g.nextReg, x))), f)
    ensures var slot := b.g.nextReg;
            var (b1, x) := Expression(Ins(b, Alloca(slot, None)), e.l);
            match Eval(w, e.l, c.st)
            case Escaped(st) => Reach(w, f, 0, Run(c), Done(Aborted, st))
            case Val(v, st) =>
              && Arrives(w, f, b, LPush(b1, Store(slot, x)), c, d, st) && Holds(b1, d, x, Num(v))
              && Holds(b1, d, slot, SlotAddr(slot)) && slot in d.slots && d.slots[slot] == Num(v)
    decreases e.l, 2
  {
    hide Ext, Names, Expression, Reach;
    var slot := b.g.nextReg;
    var b0 := Ins(b, Alloca(slot, None));
    var (b1, x) := Expression(b0, e.l);
    GrowsExpression(b0, e.l);
    ExtPush(b1, Store(slot, x), f);
    ExtBack(b0, b1, f);
    var c0 := InsStep(w, f, b, Alloca(slot, None), c, SlotAddr(slot));
    NamesKept(w, b, b0, c, c0);
    var c1 := ExpressionMeaning(w, f, b0, e.l, c0);
    match Eval(w, e.l, c.st)
    case Escaped(st) =>
      d := c1;
      ThenEscape(w, f, b, b0, c, c0, c.st, st);
    case Val(v, st) =>
      ArrivesTrans(w, f, b, b0, b1, c, c0, c1, c.st, st);
      HoldsKept(b0, b1, c0, c1, slot, SlotAddr(slot));
      PushStep(w, f, b1, Store(slot, x), c1);
      d := c1.(slots := c1.slots[slot := Num(v)], idx := c1.idx + 1);
      ReachTrans(w, f, 0, 0, Run(c), Run(c1), Run(d));
  }

  /** Everything the short-circuit code adds is in the finished function. */
  lemma ExtShortCircuit(b: Low, e: Expr, f: seq<Block>)
    requires (e.AndThen? || e.OrElse?) && Ext(Blocks(ShortCircuit(b, e).0), f)
    ensures var slot := b.g.nextReg;
            var (b1, x) := Expression(Ins(b, Alloca(slot, None)), e.l);
            var b2 := LPush(b1, Store(slot, x));
            var b3 := ScFork(b2, ScTest(e, x, |Blocks(b2)|));
            && Ext(Blocks(b2), f) && Ext(Blocks(b3), f) && Ext(Blocks(Expression(b3, e.r).0), f)
  {
    hide Ext, Expression, ScJoin, ScFork, ScTest;
    var slot := b.g.nextReg;
    var (b1, x) := Expression(Ins(b, Alloca(slot, None)), e.l);
    var b2 := LPush(b1, Store(slot, x));
    var n := |Blocks(b2)|;
    var b3 := ScFork(b2, ScTest(e, x, n));
    var (b4, y) := Expression(b3, e.r);
    JoinExt(b4, slot, y, n + 1, f);
    BranchExt(b2, b3, e.r, ScTest(e, x, n), f);
  }

  lemma JoinExt(b: Low, slot: Reg, y: Reg, join: BlockId, f: seq<Block>)
    requires Ext(Blocks(ScJoin(b, slot, y, join).0), f)
    ensures Ext(Blocks(b), f)
  {
    hide Ext, ScJoin;
    GrowsScJoin(b, slot, y, join);
    var b1 := LSwitch(LEnd(LPush(b, Store(slot, y)), Goto(join)), join);
    ExtTrans(Blocks(b1), Blocks(ScJoin(b, slot, y, join).0), f);
    ExtTrans(Blocks(b), Blocks(b1), f);
  }

  lemma BranchExt(b2: Low, b3: Low, e: Expr, t: Terminator, f: seq<Block>)
    requires b3 == ScFork(b2, t) && Ext(Blocks(Expression(b3, e).0), f)
    ensures Ext(Blocks(b2), f) && Ext(Blocks(b3), f)
  {
    hide Ext, Expression, ScFork;
    GrowsScFork(b2, t);
    GrowsExpression(b3, e);
    ExtBack(b3, Expression(b3, e).0, f);
    ExtBack(b2, b3, f);
  }

  /** Storing the right operand and jumping to the join. */
  lemma StoreAndJoin(w: World, f: seq<Block>, a: Low, b: Low, slot: Reg, y: Reg, join: BlockId, c: Config, d: Config, st: State, u: I64)
    returns (e: Config)
    requires Arrives(w, f, a, b, c, d, st) && a.g.nextReg <= slot && !Closed(b)
    requires Holds(b, d, y, Num(u)) && Holds(b, d, slot, SlotAddr(slot))
    requires Ext(Blocks(ScJoin(b, slot, y, join).0), f)
    ensures Reach(w, f, 0, Run(c), Run(e)) && e.blk == join && e.idx == 0 && e.st == st && Kept(a.g.nextReg, c, e)
    ensures Holds(b, e, slot, SlotAddr(slot)) && slot in e.slots && e.slots[slot] == Num(u)
  {
    hide Ext;
    var i := Store(slot, y);
    GrowsScJoin(b, slot, y, join);
    var b1 := LSwitch(LEnd(LPush(b, i), Goto(join)), join);
    ExtTrans(Blocks(b1), Blocks(ScJoin(b, slot, y, join).0), f);
    ExtTrans(Blocks(LPush(b, i)), Blocks(b1), f);
    PushStep(w, f, b, i, d);
    var d1 := d.(slots := d.slots[slot := Num(u)], idx := d.idx + 1);
    EndStep(w, f, LPush(b, i), Goto(join), d1);
    e := d1.(blk := join, idx := 0);
    ReachTrans(w, f, 0, 0, Run(c), Run(d), Run(d1));
    ReachTrans(w, f, 0, 0, Run(c), Run(d1), Run(e));
  }

  /** The join: both paths leave the result in the slot. */
  lemma JoinLoad(w: World, f: seq<Block>, b: Low, b4: Low, slot: Reg, y: Reg, join: BlockId, c: Config, e: Config, v: Value) returns (d: Config)
    requires join < |Blocks(b4)| && Blocks(b4)[join] == EMPTY_BLOCK && b4.g.current != join
    requires Reach(w, f, 0, Run(c), Run(e)) && e.blk == join && e.idx == 0 && Kept(b.g.nextReg, c, e) && b.g.nextReg <= b4.g.nextReg
    requires slot in e.regs && e.regs[slot] == SlotAddr(slot) && slot in e.slots && e.slots[slot] == v
    requires Ext(Blocks(ScJoin(b4, slot, y, join).0), f)
    ensures Yields(w, f, b, ScJoin(b4, slot, y, join).0, c, d, ScJoin(b4, slot, y, join).1, Val(v, e.st))
  {
    var b6 := LSwitch(LEnd(LPush(b4, Store(slot, y)), Goto(join)), join);
    assert Blocks(b6)[join] == EMPTY_BLOCK;
    assert Arrives(w, f, b, b6, c, e, e.st);
    d := ThenIns(w, f, b, b6, Load(b6.g.nextReg, slot), c, e, e.st, v);
  }

  lemma ScShape(b: Low, e: Expr)
    requires (e.AndThen? || e.OrElse?) && !Closed(b)
    ensures var slot := b.g.nextReg;
            var (b1, x) := Expression(Ins(b, Alloca(slot, None)), e.l);
            var b2 := LPush(b1, Store(slot, x));
            var n := |Blocks(b2)|;
            var b3 := ScFork(b2, ScTest(e, x, n));
            var (b4, y) := Expression(b3, e.r);
            && !Closed(b2) && slot < b1.g.nextReg == b2.g.nextReg == b3.g.nextReg <= b4.g.nextReg && b3.locals == b.locals
            && b3.g.current == n && Blocks(b3)[n] == EMPTY_BLOCK && !Closed(b3)
            && n + 1 < |Blocks(b4)| && Blocks(b4)[n + 1] == EMPTY_BLOCK && b4.g.current != n + 1
  {
    hide Ext, Expression, ScFork, ScTest;
    var slot := b.g.nextReg;
    var (b1, x) := Expression(Ins(b, Alloca(slot, None)), e.l);
    var b2 := LPush(b1, Store(slot, x));
    var n := |Blocks(b2)|;
    var b3 := ScFork(b2, ScTest(e, x, n));
    var (b4, y) := Expression(b3, e.r);
    GrowsExpression(Ins(b, Alloca(slot, None)), e.l);
    GrowsScFork(b2, ScTest(e, x, n));
    GrowsExpression(b3, e.r);
    Untouched(b3, b4, n + 1);
  }

  lemma {:induction false} ShortCircuitMeaning(w: World, f: seq<Block>, b: Low, e: Expr, c: Config) returns (d: Config)
    requires (e.AndThen? || e.OrElse?) && WfE(e) && !Closed(b) && At(c, b) && Names(w, b, c) && Ext(Blocks(ShortCircuit(b, e).0), f)
    ensures Yields(w, f, b, ShortCircuit(b, e).0, c, d, ShortCircuit(b, e).1, AsNum(Eval(w, e, c.st)))
    decreases e, 0
  {
    hide Ext, Reach, Names, Expression, ScFork, ScTest, ScJoin, Ins, LPush, Closed, EvalArgs, BinaryOf;
    var slot := b.g.nextReg;
    var (b1, x) := Expression(Ins(b, Alloca(slot, None)), e.l);
    var b2 := LPush(b1, Store(slot, x));
    var n := |Blocks(b2)|;
    var b3 := ScFork(b2, ScTest(e, x, n));
    var (b4, y) := Expression(b3, e.r);
    ExtShortCircuit(b, e, f);
    ScShape(b, e);
    d := LeftOperand(w, f, b, e, c);
    match Eval(w, e.l, c.st)
    case Escaped(_) =>
    case Val(v, st) =>
      var c2 := d;
      var c3 := ForkStep(w, f, b2, e, x, v, c2);
      ReachTrans(w, f, 0, 0, Run(c), Run(c2), Run(c3));
      if (v != 0) == e.AndThen? {
        d := RightOperand(w, f, b, b3, e, c, c3, slot, n + 1);
      } else {
        d := JoinLoad(w, f, b, b4, slot, y, n + 1, c, c3, Num(v));
      }
  }

  lemma ForkStep(w: World, f: seq<Block>, b: Low, e: Expr, x: Reg, v: I64, c: Config) returns (d: Config)
    requires (e.AndThen? || e.OrElse?) && !Closed(b) && At(c, b) && Ext(Blocks(ScFork(b, ScTest(e, x, |Blocks(b)|))), f)
    requires x in c.regs && c.regs[x] == Num(v)
    ensures d == c.(blk := if (v != 0) == e.AndThen? then |Blocks(b)| else |Blocks(b)| + 1, idx := 0)
    ensures Reach(w, f, 0, Run(c), Run(d))
  {
    EndStep(w, f, LBlock(LBlock(b)), ScTest(e, x, |Blocks(b)|), c);
    d := c.(blk := if (v != 0) == e.AndThen? then |Blocks(b)| else |Blocks(b)| + 1, idx := 0);
  }

  lemma {:induction false} RightOperand(w: World, f: seq<Block>, b: Low, b3: Low, e: Expr, c: Config, c3: Config, slot: Reg, join: BlockId) returns (d: Config)
    requires (e.AndThen? || e.OrElse?) && WfE(e.r) && !Closed(b3) && At(c3, b3) && Names(w, b, c)
    requires b.g.nextReg <= slot < b3.g.nextReg && b3.locals == b.locals
    requires Reach(w, f, 0, Run(c), Run(c3)) && Kept(b.g.nextReg, c, c3) && Holds(b3, c3, slot, SlotAddr(slot))
    requires var (b4, y) := Expression(b3, e.r);
             && join < |Blocks(b4)| && Blocks(b4)[join] == EMPTY_BLOCK && b4.g.current != join
             && Ext(Blocks(b4), f) && Ext(Blocks(ScJoin(b4, slot, y, join).0), f)
    ensures var (b4, y) := Expression(b3, e.r);
            Yields(w, f, b, ScJoin(b4, slot, y, join).0, c, d, ScJoin(b4, slot, y, join).1, AsNum(Eval(w, e.r, c3.st)))
    decreases e.r, 2
  {
    hide Ext, Expression, Eval, WfE, ScJoin;
    var (b4, y) := Expression(b3, e.r);
    GrowsExpression(b3, e.r);
    NamesKept(w, b, b3, c, c3);
    d := ExpressionMeaning(w, f, b3, e.r, c3);
    match Eval(w, e.r, c3.st)
    case Escaped(st) => ReachTrans(w, f, 0, 0, Run(c), Run(c3), Done(Aborted, st));
    case Val(u, st) =>
      var c4 := d;
      HoldsKept(b3, b4, c3, c4, slot, SlotAddr(slot));
      ReachTrans(w, f, 0, 0, Run(c), Run(c3), Run(c4));
      KeptTrans(b.g.nextReg, b3.g.nextReg, c, c3, c4);
      var c5 := StoreAndJoin(w, f, b, b4, slot, y, join, c, c4, st, u);
      d := JoinLoad(w, f, b, b4, slot, y, join, c, c5, Num(u));
  }

  // ---- Designators and index flattening ------------------------------------------------------

  lemma {:induction false} TotalPositive(dims: seq<Dim>)
    requires forall d :: d in dims ==> d.count >= 1
    ensures Total(dims) >= 1
  {
    if dims != [] {
      TotalPositive(dims[1..]);
      Product(dims[0].count, Total(dims[1..]));
    }
  }

  lemma Product(a: int, b: int)
    requires a >= 1 && b >= 1
    ensures a * b >= b && a * b >= a
  {
  }

  lemma GoodTail(dims: seq<Dim>)
    requires GoodDims(dims) && dims != []
    ensures GoodDims(dims[1..]) && Total(dims) == dims[0].count * Total(dims[1..]) && Total(dims[1..]) >= 1
  {
    TotalPositive(dims[1..]);
    Product(dims[0].count, Total(dims[1..]));
  }

  /** The unsigned compare of the wrapped difference traps exactly the indices
      outside the dimension. */
  lemma BoundsExact(v: I64, d: Dim)
    requires d.count >= 1 && IsInt64(d.lo) && IsInt64(d.lo + d.count - 1) && d.count <= MAX64
    ensures Unsigned(Wrap(v - d.lo)) >= Unsigned(Wrap(d.count)) <==> !(d.lo <= v < d.lo + d.count)
    ensures d.lo <= v < d.lo + d.count ==> Wrap(v - d.lo) == v - d.lo
  {
    var z := v - d.lo;
    if 0 <= z < TWO64 {
      assert z % TWO64 == z;
    } else {
      assert z % TWO64 == z + TWO64;
    }
  }

  lemma {:induction false} AddressMeaning(w: World, f: seq<Block>, b: Low, d: Designator, c: Config) returns (e: Config)
    requires WfD(d) && !Closed(b) && At(c, b) && Names(w, b, c) && Ext(Blocks(Address(b, d).0), f)
    ensures Yields(w, f, b, Address(b, d).0, c, e, Address(b, d).1, AsAddr(Locate(w, d, c.st)))
    decreases d, 1
  {
    if d.Var? {
      e := NameStep(w, f, b, d.x, c);
    } else {
      e := ElementMeaning(w, f, b, d, c);
    }
  }

  lemma {:induction false} ElementMeaning(w: World, f: seq<Block>, b: Low, d: Designator, c: Config) returns (e: Config)
    requires d.Elem? && WfD(d) && !Closed(b) && At(c, b) && Names(w, b, c) && Ext(Blocks(Address(b, d).0), f)
    ensures Yields(w, f, b, Address(b, d).0, c, e, Address(b, d).1, AsAddr(Locate(w, d, c.st)))
    decreases d, 0
  {
    hide Ext, Names, Reach, Flatten, Rank, NamePtr;
    var (b1, base) := NamePtr(b, d.x);
    var (b2, flat) := Flatten(b1, d.dims, d.ixs, None);
    GrowsName(b, d.x);
    GrowsFlatten(b1, d.dims, d.ixs, None);
    FlattenGives(b1, d.dims, d.ixs, None);
    var i := IndexPtr(b2.g.nextReg, base, flat.value);
    ExtIns(b2, i, f);
    ExtBack(b1, b2, f);
    var c1 := NameStep(w, f, b, d.x, c);
    NamesKept(w, b, b1, c, c1);
    e := FlattenMeaning(w, f, b1, d.dims, d.ixs, None, 0, c1);
    match Rank(w, d.dims, d.ixs, c.st)
    case Escaped(st) => ThenEscape(w, f, b, b1, c, c1, c.st, st);
    case Val(r, st) =>
      var c2 := e;
      HoldsKept(b1, b2, c1, c2, base, CellAddr(Loc(w.env(d.x), 0)));
      ArrivesTrans(w, f, b, b1, b2, c, c1, c2, c.st, st);
      e := ThenIns(w, f, b, b2, i, c, c2, st, CellAddr(Loc(w.env(d.x), r)));
  }

  lemma {:induction false} FlattenGives(b: Low, dims: seq<Dim>, ixs: seq<Expr>, acc: Option<Reg>)
    requires |ixs| <= |dims| && (acc.Some? || ixs != [])
    ensures Flatten(b, dims, ixs, acc).1.Some?
    decreases ixs
  {
    if ixs != [] {
      var (b1, raw) := Expression(b, ixs[0]);
      var (b2, sum) := Dimension(b1, raw, dims[0], Total(dims[1..]), acc);
      FlattenGives(b2, dims[1..], ixs[1..], Some(sum));
    }
  }

  ghost predicate Sums(w: World, f: seq<Block>, b: Low, b1: Low, c: Config, d: Config, r: Option<Reg>, a: int, total: int, res: EvalResult<int>) {
    match res
    case Escaped(st) => Reach(w, f, 0, Run(c), Done(Aborted, st))
    case Val(v, st) => 0 <= v < total && a >= 0 && a + v <= MAX64 && r.Some? && Arrives(w, f, b, b1, c, d, st) && Holds(b1, d, r.value, Num(a + v))
  }

  /** With the earlier dimensions summed up to `a` in `acc`, the remaining ones add
      their rank to it, without any 64-bit operation wrapping. */
  lemma {:induction false} FlattenMeaning(w: World, f: seq<Block>, b: Low, dims: seq<Dim>, ixs: seq<Expr>, acc: Option<Reg>, a: int, c: Config)
    returns (d: Config)
    requires GoodDims(dims) && |ixs| <= |dims| && (forall e :: e in ixs ==> WfE(e)) && (acc.Some? || ixs != [])
    requires !Closed(b) && At(c, b) && Names(w, b, c) && Ext(Blocks(Flatten(b, dims, ixs, acc).0), f)
    requires 0 <= a && a + Total(dims) - 1 <= MAX64
    requires if acc.Some? then a <= MAX64 && Holds(b, c, acc.value, Num(a)) else a == 0
    ensures Sums(w, f, b, Flatten(b, dims, ixs, acc).0, c, d, Flatten(b, dims, ixs, acc).1, a, Total(dims), Rank(w, dims, ixs, c.st))
    decreases ixs, 1
  {
    if ixs == [] {
      TotalPositive(dims);
      ArrivesRefl(w, f, b, c);
      d := c;
    } else {
      d := FlattenOne(w, f, b, dims, ixs, acc, a, c);
    }
  }

  lemma {:induction false} FlattenOne(w: World, f: seq<Block>, b: Low, dims: seq<Dim>, ixs: seq<Expr>, acc: Option<Reg>, a: int, c: Config)
    returns (d: Config)
    requires GoodDims(dims) && 1 <= |ixs| <= |dims| && (forall e :: e in ixs ==> WfE(e))
    requires !Closed(b) && At(c, b) && Names(w, b, c) && Ext(Blocks(Flatten(b, dims, ixs, acc).0), f)
    requires 0 <= a && a + Total(dims) - 1 <= MAX64
    requires if acc.Some? then a <= MAX64 && Holds(b, c, acc.value, Num(a)) else a == 0
    ensures Sums(w, f, b, Flatten(b, dims, ixs, acc).0, c, d, Flatten(b, dims, ixs, acc).1, a, Total(dims), Rank(w, dims, ixs, c.st))
    decreases ixs, 0
  {
    hide Flatten, Rank, Expression, Eval, Dimension, Total, GoodDims, Names, Ext, Kept, WfE, At, Reach, Grows;
    var rest := Total(dims[1..]);
    GoodTail(dims);
    FirstIndexCode(b, dims, ixs, acc);
    FirstIndexRank(w, dims, ixs, c.st);
    var (b1, raw) := Expression(b, ixs[0]);
    var (b2, sum) := Dimension(b1, raw, dims[0], rest, acc);
    var (b3, flat) := Flatten(b2, dims[1..], ixs[1..], Some(sum));
    ExtDimension(b, ixs[0], b1, raw, dims[0], rest, acc, b2, b3, f, dims[1..], ixs[1..], sum);
    d := ExpressionMeaning(w, f, b, ixs[0], c);
    match Eval(w, ixs[0], c.st)
    case Escaped(_) =>
    case Val(v, st) =>
      var c1 := d;
      if acc.Some? {
        HoldsKept(b, b1, c, c1, acc.value, Num(a));
      }
      d := DimensionStep(w, f, b1, raw, dims[0], rest, acc, a, v, c1);
      if dims[0].lo <= v < dims[0].lo + dims[0].count {
        var c2 := d;
        var t := (v - dims[0].lo) * rest;
        RankBound(a, v - dims[0].lo, dims[0].count, rest);
        ArrivesTrans(w, f, b, b1, b2, c, c1, c2, st, st);
        NamesKept(w, b, b2, c, c2);
        d := FlattenMeaning(w, f, b2, dims[1..], ixs[1..], Some(sum), a + t, c2);
        ShiftSum(w, f, b, b2, b3, c, c2, d, flat, a, t, rest, Total(dims), st, Rank(w, dims[1..], ixs[1..], st));
      } else {
        ThenEscape(w, f, b, b1, c, c1, st, Raise(w, INDEX_EXCEPTION, st));
      }
  }

  lemma FirstIndexCode(b: Low, dims: seq<Dim>, ixs: seq<Expr>, acc: Option<Reg>)
    requires 1 <= |ixs| <= |dims|
    ensures var (b1, raw) := Expression(b, ixs[0]);
            var (b2, sum) := Dimension(b1, raw, dims[0], Total(dims[1..]), acc);
            Flatten(b, dims, ixs, acc) == Flatten(b2, dims[1..], ixs[1..], Some(sum))
  {
    hide Expression, Dimension, Total;
  }

  lemma FirstIndexRank(w: World, dims: seq<Dim>, ixs: seq<Expr>, st: State)
    requires GoodDims(dims) && 1 <= |ixs| <= |dims|
    ensures Rank(w, dims, ixs, st) ==
            match Eval(w, ixs[0], st)
            case Escaped(st1) => Escaped(st1)
            case Val(v, st1) =>
              if !(dims[0].lo <= v < dims[0].lo + dims[0].count) then Escaped(Raise(w, INDEX_EXCEPTION, st1))
              else match Rank(w, dims[1..], ixs[1..], st1)
                case Escaped(st2) => Escaped(st2)
                case Val(r, st2) => Val((v - dims[0].lo) * Total(dims[1..]) + r, st2)
    ensures dims[0].count >= 1 && IsInt64(dims[0].lo) && IsInt64(dims[0].lo + dims[0].count - 1) && Total(dims) <= MAX64
  {
    hide Eval, Raise, Total;
  }

  lemma ExtDimension(b: Low, e: Expr, b1: Low, raw: Reg, dim: Dim, rest: int, acc: Option<Reg>, b2: Low, b3: Low, f: seq<Block>, dims: seq<Dim>, ixs: seq<Expr>, sum: Reg)
    requires b1 == Expression(b, e).0 && b2 == Dimension(b1, raw, dim, rest, acc).0 && b3 == Flatten(b2, dims, ixs, Some(sum)).0 && Ext(Blocks(b3), f)
    ensures Ext(Blocks(b2), f) && Ext(Blocks(b1), f) && Flows(b, b1) && Flows(b1, b2) && Flows(b, b2) && Flows(b2, b3)
    ensures b.g.nextReg <= b1.g.nextReg <= b2.g.nextReg
  {
    GrowsExpression(b, e);
    GrowsDimension(b1, raw, dim, rest, acc);
    GrowsFlatten(b2, dims, ixs, Some(sum));
    ExtBack(b2, b3, f);
    ExtBack(b1, b2, f);
    FlowsTrans(b, b1, b2);
  }

  lemma ShiftSum(w: World, f: seq<Block>, b1: Low, b3: Low, b4: Low, c1: Config, c3: Config, d: Config, flat: Option<Reg>,
                 a: int, t: int, rest: int, total: int, st: State, res: EvalResult<int>)
    requires Arrives(w, f, b1, b3, c1, c3, st) && b1.g.nextReg <= b3.g.nextReg
    requires Sums(w, f, b3, b4, c3, d, flat, a + t, rest, res)
    requires 0 <= t && t + rest <= total && a >= 0
    ensures Sums(w, f, b1, b4, c1, d, flat, a, total,
                 match res case Escaped(st2) => Escaped(st2) case Val(r, st2) => Val(t + r, st2))
  {
    match res
    case Escaped(st1) => ThenEscape(w, f, b1, b3, c1, c3, st, st1);
    case Val(_, st1) => ArrivesTrans(w, f, b1, b3, b4, c1, c3, d, st, st1);
  }

  lemma DimensionStep(w: World, f: seq<Block>, b: Low, raw: Reg, dim: Dim, rest: int, acc: Option<Reg>, a: int, v: I64, c: Config)
    returns (d: Config)
    requires dim.count >= 1 && IsInt64(dim.lo) && IsInt64(dim.lo + dim.count - 1) && rest >= 1
    requires 0 <= a && a + dim.count * rest - 1 <= MAX64 && dim.count * rest <= MAX64
    requires !Closed(b) && At(c, b) && Holds(b, c, raw, Num(v)) && Ext(Blocks(Dimension(b, raw, dim, rest, acc).0), f)
    requires if acc.Some? then a <= MAX64 && Holds(b, c, acc.value, Num(a)) else a == 0
    ensures if dim.lo <= v < dim.lo + dim.count
            then IsInt64(a + (v - dim.lo) * rest)
                 && Yields(w, f, b, Dimension(b, raw, dim, rest, acc).0, c, d, Dimension(b, raw, dim, rest, acc).1, Val(Num(a + (v - dim.lo) * rest), c.st))
            else Reach(w, f, 0, Run(c), Done(Aborted, Raise(w, INDEX_EXCEPTION, c.st)))
  {
    hide CheckedIndex, Contribution, Names, Ext, Kept, At, Reach, Raise;
    var (b1, adj) := CheckedIndex(b, raw, dim);
    GrowsDimension(b, raw, dim, rest, acc);
    GrowsCheckedIndex(b, raw, dim);
    var b2 := Dimension(b, raw, dim, rest, acc).0;
    ExtBack(b1, b2, f);
    Product(dim.count, rest);
    d := CheckedIndexStep(w, f, b, raw, dim, v, c);
    if dim.lo <= v < dim.lo + dim.count {
      var z := v - dim.lo;
      RankBound(a, z, dim.count, rest);
      var c1 := d;
      if acc.Some? {
        HoldsKept(b, b1, c, c1, acc.value, Num(a));
      }
      d := ContributionStep(w, f, b1, adj, rest, acc, a, z, c1);
      ArrivesTrans(w, f, b, b1, b2, c, c1, d, c.st, c.st);
    }
  }

  lemma RankBound(a: int, z: int, count: int, rest: int)
    requires 0 <= z < count && rest >= 1 && a >= 0 && a + count * rest - 1 <= MAX64
    ensures 0 <= z * rest && z * rest + rest <= count * rest
    ensures 0 <= a + z * rest && a + z * rest + rest - 1 <= MAX64
  {
    assert (z + 1) * rest <= count * rest;
  }

  lemma UnsignedCompare(a: I64, b: I64)
    ensures BinaryOf(UGe, a, b) == Some(FromBool(Unsigned(a) >= Unsigned(b)))
  {
  }

  lemma CheckedIndexStep(w: World, f: seq<Block>, b: Low, raw: Reg, dim: Dim, v: I64, c: Config) returns (d: Config)
    requires 1 <= dim.count <= MAX64 && IsInt64(dim.lo) && IsInt64(dim.lo + dim.count - 1)
    requires !Closed(b) && At(c, b) && Holds(b, c, raw, Num(v)) && Ext(Blocks(CheckedIndex(b, raw, dim).0), f)
    ensures if dim.lo <= v < dim.lo + dim.count
            then IsInt64(v - dim.lo) && Yields(w, f, b, CheckedIndex(b, raw, dim).0, c, d, CheckedIndex(b, raw, dim).1, Val(Num(v - dim.lo), c.st))
            else Reach(w, f, 0, Run(c), Done(Aborted, Raise(w, INDEX_EXCEPTION, c.st)))
  {
    hide Ext, Names, At, Reach, BinaryOf, Raise, Unsigned, Adjusted, Trap, Test;
    BoundsExact(v, dim);
    UnsignedCompare(Wrap(v - dim.lo), Wrap(dim.count));
    var (b1, adj) := Adjusted(b, raw, dim.lo);
    GrowsCheckedIndex(b, raw, dim);
    GrowsBounds(b1, adj, dim.count);
    ExtBack(b1, BoundsCheck(b1, adj, dim.count), f);
    var z := Wrap(v - dim.lo);
    var c1 := AdjustedStep(w, f, b, raw, dim.lo, v, c);
    var oob := FromBool(Unsigned(z) >= Unsigned(Wrap(dim.count)));
    d := TestTrapStep(w, f, b1, UGe, adj, dim.count, INDEX_EXCEPTION, z, oob, c1);
    if dim.lo <= v < dim.lo + dim.count {
      HoldsKept(b1, BoundsCheck(b1, adj, dim.count), c1, d, adj, Num(z));
      ArrivesTrans(w, f, b, b1, BoundsCheck(b1, adj, dim.count), c, c1, d, c.st, c.st);
    } else {
      ThenEscape(w, f, b, b1, c, c1, c.st, Raise(w, INDEX_EXCEPTION, c.st));
    }
  }

  lemma ContributionStep(w: World, f: seq<Block>, b: Low, adj: Reg, stride: int, acc: Option<Reg>, a: int, z: I64, c: Config) returns (d: Config)
    requires !Closed(b) && At(c, b) && Holds(b, c, adj, Num(z)) && Ext(Blocks(Contribution(b, adj, stride, acc).0), f)
    requires IsInt64(stride) && IsInt64(z * stride) && IsInt64(a) && IsInt64(a + z * stride)
    requires if acc.Some? then Holds(b, c, acc.value, Num(a)) else a == 0
    ensures Yields(w, f, b, Contribution(b, adj, stride, acc).0, c, d, Contribution(b, adj, stride, acc).1, Val(Num(a + z * stride), c.st))
  {
    var (b1, term) := Scaled(b, adj, stride);
    GrowsContribution(b, adj, stride, acc);
    ExtBack(b1, Contribution(b, adj, stride, acc).0, f);
    var c1 := ScaledStep(w, f, b, adj, stride, z, c);
    if acc.Some? {
      HoldsKept(b, b1, c, c1, acc.value, Num(a));
    }
    d := SummedStep(w, f, b1, acc, a, term, z * stride, c1);
    ArrivesTrans(w, f, b, b1, Contribution(b, adj, stride, acc).0, c, c1, d, c.st, c.st);
  }

  lemma AdjustedStep(w: World, f: seq<Block>, b: Low, raw: Reg, lo: int, v: I64, c: Config) returns (d: Config)
    requires !Closed(b) && At(c, b) && Holds(b, c, raw, Num(v)) && Ext(Blocks(Adjusted(b, raw, lo).0), f) && IsInt64(lo)
    ensures Yields(w, f, b, Adjusted(b, raw, lo).0, c, d, Adjusted(b, raw, lo).1, Val(Num(Wrap(v - lo)), c.st))
  {
    ArrivesRefl(w, f, b, c);
    d := c;
    if lo != 0 {
      var r := b.g.nextReg;
      var b1 := Ins(b, Const(r, IntC(lo)));
      ExtIns(b1, Binary(r + 1, Sub, raw, r), f);
      var c1 := InsStep(w, f, b, Const(r, IntC(lo)), c, Num(lo));
      d := ThenIns(w, f, b, b1, Binary(r + 1, Sub, raw, r), c, c1, c.st, Num(Wrap(v - lo)));
    }
  }

  lemma ScaledStep(w: World, f: seq<Block>, b: Low, adj: Reg, stride: int, z: I64, c: Config) returns (d: Config)
    requires !Closed(b) && At(c, b) && Holds(b, c, adj, Num(z)) && Ext(Blocks(Scaled(b, adj, stride).0), f)
    requires IsInt64(stride) && IsInt64(z * stride)
    ensures Yields(w, f, b, Scaled(b, adj, stride).0, c, d, Scaled(b, adj, stride).1, Val(Num(z * stride), c.st))
  {
    ArrivesRefl(w, f, b, c);
    d := c;
    if stride != 1 {
      var r := b.g.nextReg;
      var b1 := Ins(b, Const(r, IntC(stride)));
      ExtIns(b1, Binary(r + 1, Mul, adj, r), f);
      var c1 := InsStep(w, f, b, Const(r, IntC(stride)), c, Num(stride));
      d := ThenIns(w, f, b, b1, Binary(r + 1, Mul, adj, r), c, c1, c.st, Num(z * stride));
    }
  }

  lemma SummedStep(w: World, f: seq<Block>, b: Low, acc: Option<Reg>, a: int, term: Reg, t: int, c: Config) returns (d: Config)
    requires !Closed(b) && At(c, b) && IsInt64(t) && Holds(b, c, term, Num(t)) && Ext(Blocks(Summed(b, acc, term).0), f)
    requires IsInt64(a) && IsInt64(a + t) && (if acc.Some? then Holds(b, c, acc.value, Num(a)) else a == 0)
    ensures Yields(w, f, b, Summed(b, acc, term).0, c, d, Summed(b, acc, term).1, Val(Num(a + t), c.st))
  {
    ArrivesRefl(w, f, b, c);
    d := c;
    if acc.Some? {
      d := InsStep(w, f, b, Binary(b.g.nextReg, Add, acc.value, term), c, Num(a + t));
    }
  }

  lemma ExpressionOrMeaning(w: World, f: seq<Block>, b: Low, e: Option<Expr>, k: I64, c: Config) returns (d: Config)
    requires (e.Some? ==> WfE(e.value)) && !Closed(b) && At(c, b) && Names(w, b, c) && Ext(Blocks(ExpressionOr(b, e, k).0), f)
    ensures Yields(w, f, b, ExpressionOr(b, e, k).0, c, d, ExpressionOr(b, e, k).1, AsNum(EvalOr(w, e, k, c.st)))
  {
    if e.Some? {
      d := ExpressionMeaning(w, f, b, e.value, c);
    } else {
      d := InsStep(w, f, b, Const(b.g.nextReg, IntC(k)), c, Num(k));
    }
  }
}
