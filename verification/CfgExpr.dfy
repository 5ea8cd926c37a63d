/** The code of expressions keeps a function's control-flow graph sound. */
module CfgExpr {
  import opened Arith
  import opened Ir
  import opened Machine
  import opened Source
  import opened Builder
  import opened LowerSpec
  import opened LowerGrow
  import opened CfgSound

  /** Every variable's storage register is available. */
  ghost predicate Stored(b: Low, av: seq<set<Reg>>) {
    forall x :: x in b.locals ==> b.locals[x].storage in Here(b, av)
  }

  ghost predicate Open(b: Low, av: seq<set<Reg>>) {
    Sound(b, av) && !Closed(b) && Stored(b, av)
  }

  /** From `b` to `b1` with a result in `r`. */
  ghost predicate Makes(b: Low, av: seq<set<Reg>>, b1: Low, av1: seq<set<Reg>>, r: Reg) {
    Leads(b, av, b1, av1) && r in Here(b1, av1)
  }

  lemma OpenKept(b: Low, av: seq<set<Reg>>, b1: Low, av1: seq<set<Reg>>)
    requires Open(b, av) && Leads(b, av, b1, av1) && b1.locals == b.locals
    ensures Open(b1, av1)
  {
  }

  lemma OpenFlows(b: Low, av: seq<set<Reg>>, b1: Low, av1: seq<set<Reg>>)
    requires Open(b, av) && Leads(b, av, b1, av1) && Flows(b, b1)
    ensures Open(b1, av1)
  {
    OpenKept(b, av, b1, av1);
  }

  lemma MakesTrans(a: Low, av: seq<set<Reg>>, b: Low, av1: seq<set<Reg>>, c: Low, av2: seq<set<Reg>>, r: Reg)
    requires Leads(a, av, b, av1) && Makes(b, av1, c, av2, r)
    ensures Makes(a, av, c, av2, r)
  {
  }

  lemma OpenIns(b: Low, av: seq<set<Reg>>, i: Inst)
    requires Open(b, av) && Uses(i) <= Here(b, av) && Def(i) == Some(b.g.nextReg)
    ensures Open(Ins(b, i), av) && Makes(b, av, Ins(b, i), av, b.g.nextReg) && Ins(b, i).locals == b.locals
    ensures Ins(b, i).g.nextReg == b.g.nextReg + 1
  {
    hide Sound, Here, Closed;
    SIns(b, av, i);
    GrowsRefl(b);
    FIns(b, b, i);
    OpenKept(b, av, Ins(b, i), av);
  }

  lemma OpenStore(b: Low, av: seq<set<Reg>>, p: Reg, v: Reg)
    requires Open(b, av) && p in Here(b, av) && v in Here(b, av)
    ensures Open(LPush(b, Store(p, v)), av) && Leads(b, av, LPush(b, Store(p, v)), av)
  {
    SPush(b, av, Store(p, v));
    OpenKept(b, av, LPush(b, Store(p, v)), av);
  }

  // ---- Definitions that lowering adds are fresh -----------------------------------------------

  ghost predicate Newer(b: Low, b1: Low) {
    forall r :: r in AllDefs(Blocks(b1)) ==> r in AllDefs(Blocks(b)) || r >= b.g.nextReg
  }

  lemma NewerIns(b: Low, av: seq<set<Reg>>, i: Inst)
    requires Sound(b, av) && !Closed(b) && Uses(i) <= Here(b, av) && Def(i) == Some(b.g.nextReg)
    ensures Newer(b, Ins(b, i))
  {
    SFresh(b, av);
    SPush(LFresh(b), av, i);
  }

  lemma NewerTrans(a: Low, b: Low, c: Low)
    requires Newer(a, b) && Newer(b, c) && a.g.nextReg <= b.g.nextReg
    ensures Newer(a, c)
  {
  }

  // ---- Runtime calls and traps --------------------------------------------------------------------

  lemma RuntimeCallLeads(b: Low, av: seq<set<Reg>>, f: string, args: seq<Reg>)
    requires Open(b, av) && forall r :: r in args ==> r in Here(b, av)
    ensures Leads(b, av, RuntimeCall(b, f, args), av) && Open(RuntimeCall(b, f, args), av) && Newer(b, RuntimeCall(b, f, args))
  {
    hide Sound, Here, Closed, AllDefs;
    var callee := b.g.nextReg;
    var i := Const(callee, FuncRef(f));
    OpenIns(b, av, i);
    NewerIns(b, av, i);
    var b1 := Ins(b, i);
    var c := Call(None, callee, args);
    assert Uses(c) <= Here(b1, av);
    SPush(b1, av, c);
    LeadsTrans(b, av, b1, av, LPush(b1, c), av);
    OpenKept(b1, av, LPush(b1, c), av);
  }

  lemma RaiseLeads(b: Low, av: seq<set<Reg>>, number: int)
    requires Open(b, av)
    ensures Sound(RaiseM2(b, number), av) && Newer(b, RaiseM2(b, number))
  {
    hide Sound, Here, Closed, AllDefs;
    var n := b.g.nextReg;
    var i := Const(n, IntC(number));
    OpenIns(b, av, i);
    NewerIns(b, av, i);
    var b1 := Ins(b, i);
    RuntimeCallLeads(b1, av, RAISE_M2, [n]);
    NewerTrans(b, b1, RuntimeCall(b1, RAISE_M2, [n]));
    Unended(RuntimeCall(b1, RAISE_M2, [n]), av);
  }

  /** Ending a block with `Unreachable` is no end at all. */
  lemma Unended(b: Low, av: seq<set<Reg>>)
    requires Open(b, av)
    ensures LEnd(b, Unreachable) == b
  {
    var k := b.g.current;
    assert Blocks(b)[k].(term := Unreachable) == Blocks(b)[k];
    assert Blocks(b)[k := Blocks(b)[k]] == Blocks(b);
  }

  /** A two-way branch into two new blocks. */
  lemma ForkLeads(b: Low, av: seq<set<Reg>>, t: Terminator)
    requires Open(b, av) && TermUses(t) <= Here(b, av)
    requires Succs(t) <= {|Blocks(b)|, |Blocks(b)| + 1}
    ensures var n := |Blocks(b)|;
            var a := Here(b, av);
            var f := LEnd(LBlock(LBlock(b)), t);
            && Sound(f, av + [a] + [a]) && |av| == n && |Blocks(f)| == n + 2 && Blocks(f)[n] == EMPTY_BLOCK && Blocks(f)[n + 1] == EMPTY_BLOCK
  {
    hide Covered, DefinedOnce;
    var a := Here(b, av);
    CoveredLength(Blocks(b), av);
    SBlock(b, av, a);
    SBlock(LBlock(b), av + [a], a);
    SEnd(LBlock(LBlock(b)), av + [a] + [a], t);
    GFork(b, t);
  }

  lemma OpenSwitch(b: Low, av: seq<set<Reg>>, id: BlockId, a: Low, av0: seq<set<Reg>>)
    requires Sound(b, av) && id < |Blocks(b)| && Blocks(b)[id] == EMPTY_BLOCK && id < |av|
    requires Open(a, av0) && Here(a, av0) <= av[id] && b.locals == a.locals
    ensures Open(LSwitch(b, id), av) && Here(LSwitch(b, id), av) == av[id]
  {
    SSwitch(b, av, id);
  }

  lemma TrapLeads(b: Low, av: seq<set<Reg>>, cond: Reg, number: int) returns (av1: seq<set<Reg>>)
    requires Open(b, av) && cond in Here(b, av)
    ensures Leads(b, av, Trap(b, cond, number), av1) && Newer(b, Trap(b, cond, number))
  {
    hide Sound, Here, Closed, AllDefs, RaiseM2, Ext;
    var n := |Blocks(b)|;
    var a := Here(b, av);
    var t := CondBr(cond, n, n + 1);
    ForkLeads(b, av, t);
    av1 := av + [a] + [a];
    var f := LEnd(LBlock(LBlock(b)), t);
    OpenSwitch(f, av1, n, b, av);
    var g := LSwitch(f, n);
    RaiseLeads(g, av1, number);
    GrowsTrap(b, cond, number);
    var z := RaiseM2(g, number);
    GrowsRaise(g, number);
    LongEnough(g, z);
    Untouched(g, z, n + 1);
    SSwitch(z, av1, n + 1);
    ForkDefs(b, t);
  }

  lemma ForkDefs(b: Low, t: Terminator)
    ensures var f := LEnd(LBlock(LBlock(b)), t); AllDefs(Blocks(f)) == AllDefs(Blocks(b)) && f.g.nextReg == b.g.nextReg
    ensures forall id :: Blocks(LSwitch(b, id)) == Blocks(b)
  {
    var f := LEnd(LBlock(LBlock(b)), t);
    DefsBlock(Blocks(b));
    DefsBlock(Blocks(LBlock(b)));
    DefsSame(Blocks(f), Blocks(LBlock(LBlock(b))));
  }

  lemma TestLeads(b: Low, av: seq<set<Reg>>, op: BinOp, subject: Reg, limit: int)
    requires Open(b, av) && subject in Here(b, av)
    ensures Makes(b, av, Test(b, op, subject, limit), av, b.g.nextReg + 1) && Newer(b, Test(b, op, subject, limit)) && Open(Test(b, op, subject, limit), av)
  {
    hide Sound, Here, Closed, AllDefs, Ins;
    var c := b.g.nextReg;
    var i := Const(c, IntC(limit));
    var b1 := Ins(b, i);
    OpenIns(b, av, i);
    NewerIns(b, av, i);
    var j := Binary(c + 1, op, subject, c);
    OpenIns(b1, av, j);
    NewerIns(b1, av, j);
    NewerTrans(b, b1, Ins(b1, j));
    LeadsTrans(b, av, b1, av, Ins(b1, j), av);
  }

  lemma CheckLeads(b: Low, av: seq<set<Reg>>, op: BinOp, subject: Reg, limit: int, number: int) returns (av1: seq<set<Reg>>)
    requires Open(b, av) && subject in Here(b, av)
    ensures var z := Trap(Test(b, op, subject, limit), b.g.nextReg + 1, number); Leads(b, av, z, av1) && Newer(b, z) && b.g.nextReg <= z.g.nextReg
  {
    hide Sound, Here, Closed, AllDefs, Test, Trap;
    TestLeads(b, av, op, subject, limit);
    var b1 := Test(b, op, subject, limit);
    av1 := TrapLeads(b1, av, b.g.nextReg + 1, number);
    var z := Trap(b1, b.g.nextReg + 1, number);
    GrowsTest(b, op, subject, limit);
    GrowsTrap(b1, b.g.nextReg + 1, number);
    LongEnough(b, b1);
    LongEnough(b1, z);
    NewerTrans(b, b1, z);
    LeadsTrans(b, av, b1, av, z, av1);
  }

  // ---- Expressions ---------------------------------------------------------------------------------

  lemma NameLeads(b: Low, av: seq<set<Reg>>, x: string)
    requires Open(b, av)
    ensures Makes(b, av, NamePtr(b, x).0, av, NamePtr(b, x).1)
  {
    hide Sound, Here, Closed, Ins;
    var r := b.g.nextReg;
    LeadsRefl(b, av);
    if x !in b.locals {
      OpenIns(b, av, Const(r, GlobalRef(x)));
    } else if b.locals[x].kind.Indirect? {
      var i := Load(r, b.locals[x].storage);
      OpenIns(b, av, i);
      var j := TypedPtr(r + 1, r);
      OpenIns(Ins(b, i), av, j);
      LeadsTrans(b, av, Ins(b, i), av, Ins(Ins(b, i), j), av);
    }
  }

  lemma {:induction false} ExpressionLeads(b: Low, av: seq<set<Reg>>, e: Expr) returns (av1: seq<set<Reg>>)
    requires WfE(e) && Open(b, av)
    ensures Makes(b, av, Expression(b, e).0, av1, Expression(b, e).1)
    decreases e, 1
  {
    hide Open, Makes, Leads, ShortCircuit, Arguments, Address, Ins, Guarded;
    match e
    case IntLit(n) => OpenIns(b, av, Const(b.g.nextReg, IntC(n))); av1 := av;
    case BoolLit(v) => OpenIns(b, av, Const(b.g.nextReg, BoolC(v))); av1 := av;
    case Des(d) =>
      var (b1, p) := Address(b, d);
      av1 := AddressLeads(b, av, d);
      GrowsAddress(b, d);
      ThenMakes(b, av, b1, av1, Load(b1.g.nextReg, p), p, p);
    case Arith(op, l, r) => av1 := ArithLeads(b, av, e);
    case AndThen(_, _) => av1 := ShortCircuitLeads(b, av, e);
    case OrElse(_, _) => av1 := ShortCircuitLeads(b, av, e);
    case NotE(a) =>
      var (b1, x) := Expression(b, a);
      av1 := ExpressionLeads(b, av, a);
      GrowsExpression(b, a);
      ThenMakes(b, av, b1, av1, Unary(b1.g.nextReg, UnaryOp.Not, x), x, x);
    case NegE(a) =>
      var (b1, x) := Expression(b, a);
      av1 := ExpressionLeads(b, av, a);
      GrowsExpression(b, a);
      ThenMakes(b, av, b1, av1, Unary(b1.g.nextReg, UnaryOp.Neg, x), x, x);
    case CallE(f, args) => av1 := CallLeads(b, av, e);
  }

  /** An instruction with a fresh result that uses what was made before. */
  lemma ThenMakes(b: Low, av: seq<set<Reg>>, b1: Low, av1: seq<set<Reg>>, i: Inst, x: Reg, y: Reg)
    requires Open(b, av) && Flows(b, b1) && Makes(b, av, b1, av1, x) && (y == x || y in Here(b1, av1))
    requires Uses(i) <= {x, y} && Def(i) == Some(b1.g.nextReg)
    ensures Makes(b, av, Ins(b1, i), av1, b1.g.nextReg) && Open(Ins(b1, i), av1) && Flows(b, Ins(b1, i))
  {
    hide Sound, Here, Closed, Ins;
    OpenFlows(b, av, b1, av1);
    OpenIns(b1, av1, i);
    LeadsTrans(b, av, b1, av1, Ins(b1, i), av1);
    FIns(b, b1, i);
  }

  /** What was available stays available. */
  lemma StillHere(b: Low, av: seq<set<Reg>>, b1: Low, av1: seq<set<Reg>>, r: Reg)
    requires Leads(b, av, b1, av1) && r in Here(b, av)
    ensures r in Here(b1, av1)
  {
  }

  lemma {:induction false} ArithLeads(b: Low, av: seq<set<Reg>>, e: Expr) returns (av1: seq<set<Reg>>)
    requires e.Arith? && WfE(e) && Open(b, av)
    ensures Makes(b, av, Expression(b, e).0, av1, Expression(b, e).1)
    decreases e, 0
  {
    hide Open, Here, Leads, Ins, Guarded;
    var (b1, x) := Expression(b, e.l);
    var (b2, y) := Expression(b1, e.r);
    var aa := ExpressionLeads(b, av, e.l);
    GrowsExpression(b, e.l);
    OpenFlows(b, av, b1, aa);
    var ab := ExpressionLeads(b1, aa, e.r);
    GrowsExpression(b1, e.r);
    OpenFlows(b1, aa, b2, ab);
    StillHere(b1, aa, b2, ab, x);
    LeadsTrans(b, av, b1, aa, b2, ab);
    av1 := OperationLeads(b2, ab, e.op, x, y);
    MakesTrans(b, av, b2, ab, Expression(b, e).0, av1, Expression(b, e).1);
  }

  lemma OperationLeads(b: Low, av: seq<set<Reg>>, op: ArithOp, x: Reg, y: Reg) returns (av1: seq<set<Reg>>)
    requires Open(b, av) && x in Here(b, av) && y in Here(b, av)
    ensures Makes(b, av, LPush(Guarded(LFresh(b), op, y), Binary(b.g.nextReg, IrOp(op), x, y)), av1, b.g.nextReg)
  {
    hide Sound, Here, Closed, AllDefs, Trap, Test, LPush;
    var dst := b.g.nextReg;
    var b0 := LFresh(b);
    SFresh(b, av);
    SameClosed(b, b0);
    LeadsTransFresh(b, av);
    OpenKept(b, av, b0, av);
    var b1 := Guarded(b0, op, y);
    av1 := av;
    if Divides(op) {
      av1 := CheckLeads(b0, av, Eq, y, 0, DIV_EXCEPTION);
      assert DivCheck(b0, y) == Trap(Test(b0, Eq, y, 0), b0.g.nextReg + 1, DIV_EXCEPTION);
    }
    assert Leads(b, av, b1, av1) by { LeadsTrans(b, av, b0, av, b1, av1); }
    StillHere(b, av, b1, av1, x);
    StillHere(b, av, b1, av1, y);
    SPush(b1, av1, Binary(dst, IrOp(op), x, y));
    LeadsTrans(b, av, b1, av1, LPush(b1, Binary(dst, IrOp(op), x, y)), av1);
  }

  lemma LeadsTransFresh(b: Low, av: seq<set<Reg>>)
    requires Open(b, av)
    ensures Leads(b, av, LFresh(b), av) && LFresh(b).locals == b.locals && Leads(LFresh(b), av, LFresh(b), av)
  {
    SFresh(b, av);
  }

  lemma {:induction false} CallLeads(b: Low, av: seq<set<Reg>>, e: Expr) returns (av1: seq<set<Reg>>)
    requires e.CallE? && WfE(e) && Open(b, av)
    ensures Makes(b, av, Expression(b, e).0, av1, Expression(b, e).1)
    decreases e, 0
  {
    hide Open, Here, Leads, Ins, Arguments;
    var callee := b.g.nextReg;
    var b0 := Ins(b, Const(callee, FuncRef(e.f)));
    OpenIns(b, av, Const(callee, FuncRef(e.f)));
    var (b1, rs) := Arguments(b0, e.args);
    av1 := ArgumentsLeads(b0, av, e.args);
    GrowsArguments(b0, e.args);
    OpenFlows(b0, av, b1, av1);
    StillHere(b0, av, b1, av1, callee);
    LeadsTrans(b, av, b0, av, b1, av1);
    OpenIns(b1, av1, Call(Some(b1.g.nextReg), callee, rs));
    MakesTrans(b, av, b1, av1, Expression(b, e).0, av1, Expression(b, e).1);
  }

  lemma {:induction false} ArgumentsLeads(b: Low, av: seq<set<Reg>>, args: seq<Arg>) returns (av1: seq<set<Reg>>)
    requires (forall a :: a in args ==> WfA(a)) && Open(b, av)
    ensures Leads(b, av, Arguments(b, args).0, av1) && forall r :: r in Arguments(b, args).1 ==> r in Here(Arguments(b, args).0, av1)
    decreases args, 0
  {
    hide Sound, Stored, Here, WfA, Argument;
    if args == [] {
      LeadsRefl(b, av);
      av1 := av;
    } else {
      var (b1, r) := Argument(b, args[0]);
      var (b2, rs) := Arguments(b1, args[1..]);
      var aa := ArgumentLeads(b, av, args[0]);
      GrowsArgument(b, args[0]);
      OpenFlows(b, av, b1, aa);
      av1 := ArgumentsLeads(b1, aa, args[1..]);
      StillHere(b1, aa, b2, av1, r);
      LeadsTrans(b, av, b1, aa, b2, av1);
    }
  }

  lemma {:induction false} ArgumentLeads(b: Low, av: seq<set<Reg>>, a: Arg) returns (av1: seq<set<Reg>>)
    requires WfA(a) && Open(b, av)
    ensures Makes(b, av, Argument(b, a).0, av1, Argument(b, a).1)
    decreases a, 0
  {
    match a
    case ByValue(e) => av1 := ExpressionLeads(b, av, e);
    case ByAddress(d) => av1 := AddressLeads(b, av, d);
  }

  lemma {:induction false} AddressLeads(b: Low, av: seq<set<Reg>>, d: Designator) returns (av1: seq<set<Reg>>)
    requires WfD(d) && Open(b, av)
    ensures Makes(b, av, Address(b, d).0, av1, Address(b, d).1)
    decreases d, 0
  {
    hide Open, Here, Leads, Ins, Flatten, NamePtr;
    NameLeads(b, av, d.x);
    av1 := av;
    if d.Elem? {
      var (b1, base) := NamePtr(b, d.x);
      GrowsName(b, d.x);
      OpenFlows(b, av, b1, av);
      var (b2, flat) := Flatten(b1, d.dims, d.ixs, None);
      av1 := FlattenLeads(b1, av, d.dims, d.ixs, None);
      GrowsFlatten(b1, d.dims, d.ixs, None);
      FlowsTrans(b, b1, b2);
      StillHere(b1, av, b2, av1, base);
      LeadsTrans(b, av, b1, av, b2, av1);
      if flat.Some? {
        ThenMakes(b, av, b2, av1, IndexPtr(b2.g.nextReg, base, flat.value), base, flat.value);
      }
    }
  }

  lemma {:induction false} FlattenLeads(b: Low, av: seq<set<Reg>>, dims: seq<Dim>, ixs: seq<Expr>, acc: Option<Reg>) returns (av1: seq<set<Reg>>)
    requires (forall e :: e in ixs ==> WfE(e)) && Open(b, av) && (acc.Some? ==> acc.value in Here(b, av))
    ensures var (b1, r) := Flatten(b, dims, ixs, acc); Leads(b, av, b1, av1) && (r.Some? ==> r.value in Here(b1, av1))
    decreases ixs, 0
  {
    hide Sound, Stored, Closed, Here, WfE, Dimension, Expression;
    if ixs == [] || dims == [] {
      LeadsRefl(b, av);
      av1 := av;
    } else {
      var (b1, raw) := Expression(b, ixs[0]);
      var (b2, sum) := Dimension(b1, raw, dims[0], Total(dims[1..]), acc);
      var aa := ExpressionLeads(b, av, ixs[0]);
      GrowsExpression(b, ixs[0]);
      OpenFlows(b, av, b1, aa);
      if acc.Some? {
        StillHere(b, av, b1, aa, acc.value);
      }
      var ab := DimensionLeads(b1, aa, raw, dims[0], Total(dims[1..]), acc);
      GrowsDimension(b1, raw, dims[0], Total(dims[1..]), acc);
      OpenFlows(b1, aa, b2, ab);
      av1 := FlattenLeads(b2, ab, dims[1..], ixs[1..], Some(sum));
      LeadsTrans(b, av, b1, aa, b2, ab);
      LeadsTrans(b, av, b2, ab, Flatten(b2, dims[1..], ixs[1..], Some(sum)).0, av1);
    }
  }

  /** A constant and an operation with it. */
  lemma WithConst(b: Low, av: seq<set<Reg>>, op: BinOp, x: Reg, n: int)
    requires Open(b, av) && x in Here(b, av)
    ensures var c := b.g.nextReg;
            var z := Ins(Ins(b, Const(c, IntC(n))), Binary(c + 1, op, x, c));
            Makes(b, av, z, av, c + 1) && Open(z, av)
  {
    hide Sound, Here, Closed, AllDefs, Ins, Makes, Open, Newer;
    TestLeads(b, av, op, x, n);
  }

  lemma DimensionLeads(b: Low, av: seq<set<Reg>>, raw: Reg, dim: Dim, stride: int, acc: Option<Reg>) returns (av1: seq<set<Reg>>)
    requires Open(b, av) && raw in Here(b, av) && (acc.Some? ==> acc.value in Here(b, av))
    ensures Makes(b, av, Dimension(b, raw, dim, stride, acc).0, av1, Dimension(b, raw, dim, stride, acc).1)
  {
    hide Sound, Here, Closed, Ins, Stored, BoundsCheck;
    var (b1, adj) := Adjusted(b, raw, dim.lo);
    LeadsRefl(b, av);
    WithConst(b, av, Sub, raw, dim.lo);
    var (b2, _) := CheckedIndex(b, raw, dim);
    av1 := av;
    if 0 < dim.count <= MAX64 {
      av1 := BoundsLeads(b1, av, adj, dim.count);
    }
    assert Leads(b, av, b2, av1) && adj in Here(b2, av1) by {
      LeadsRefl(b1, av);
      StillHere(b1, av, b2, av1, adj);
      LeadsTrans(b, av, b1, av, b2, av1);
    }
    GrowsCheckedIndex(b, raw, dim);
    OpenFlows(b, av, b2, av1);
    if acc.Some? {
      StillHere(b, av, b2, av1, acc.value);
    }
    ContributionLeads(b2, av1, adj, stride, acc);
    MakesTrans(b, av, b2, av1, Dimension(b, raw, dim, stride, acc).0, av1, Dimension(b, raw, dim, stride, acc).1);
  }

  lemma BoundsLeads(b: Low, av: seq<set<Reg>>, adj: Reg, count: int) returns (av1: seq<set<Reg>>)
    requires Open(b, av) && adj in Here(b, av)
    ensures Leads(b, av, BoundsCheck(b, adj, count), av1)
  {
    hide Trap, Test;
    av1 := CheckLeads(b, av, UGe, adj, count, INDEX_EXCEPTION);
  }

  lemma ContributionLeads(b: Low, av: seq<set<Reg>>, adj: Reg, stride: int, acc: Option<Reg>)
    requires Open(b, av) && adj in Here(b, av) && (acc.Some? ==> acc.value in Here(b, av))
    ensures Makes(b, av, Contribution(b, adj, stride, acc).0, av, Contribution(b, adj, stride, acc).1)
  {
    hide Sound, Here, Closed, Ins, Stored;
    LeadsRefl(b, av);
    WithConst(b, av, Mul, adj, stride);
    var (b1, term) := Scaled(b, adj, stride);
    if acc.Some? {
      StillHere(b, av, b1, av, acc.value);
      var i := Binary(b1.g.nextReg, Add, acc.value, term);
      OpenIns(b1, av, i);
      LeadsTrans(b, av, b1, av, Ins(b1, i), av);
    }
  }

  // ---- AND, OR ----------------------------------------------------------------------------------

  lemma {:induction false} ShortCircuitLeads(b: Low, av: seq<set<Reg>>, e: Expr) returns (av1: seq<set<Reg>>)
    requires (e.AndThen? || e.OrElse?) && WfE(e) && Open(b, av)
    ensures Makes(b, av, ShortCircuit(b, e).0, av1, ShortCircuit(b, e).1)
    decreases e, 0
  {
    hide Sound, Stored, Closed, Here, Expression, Ins, LPush, ScTest, Ext;
    var slot := b.g.nextReg;
    var b0 := Ins(b, Alloca(slot, None));
    OpenIns(b, av, Alloca(slot, None));
    var (b1, x) := Expression(b0, e.l);
    var aa := ExpressionLeads(b0, av, e.l);
    GrowsExpression(b0, e.l);
    OpenFlows(b0, av, b1, aa);
    StillHere(b0, av, b1, aa, slot);
    OpenStore(b1, aa, slot, x);
    var b2 := LPush(b1, Store(slot, x));
    StillHere(b1, aa, b2, aa, x);
    StillHere(b1, aa, b2, aa, slot);
    LeadsTrans(b, av, b0, av, b1, aa);
    LeadsTrans(b, av, b1, aa, b2, aa);
    var n := |Blocks(b2)|;
    var t := ScTest(e, x, n);
    ScTestParts(e, x, n);
    ForkLeads(b2, aa, t);
    var a := Here(b2, aa);
    var ab := aa + [a] + [a];
    OpenSwitch(LEnd(LBlock(LBlock(b2)), t), ab, n, b2, aa);
    var b3 := ScFork(b2, t);
    var (b4, y) := Expression(b3, e.r);
    av1 := ExpressionLeads(b3, ab, e.r);
    GrowsExpression(b3, e.r);
    OpenFlows(b3, ab, b4, av1);
    Untouched(b3, b4, n + 1);
    StillHere(b3, ab, b4, av1, slot);
    assert av1[n + 1] == a;
    JoinLeads(b, av, b2, aa, b3, ab, b4, av1, slot, y, n + 1);
  }

  lemma ScTestParts(e: Expr, x: Reg, n: BlockId)
    requires e.AndThen? || e.OrElse?
    ensures TermUses(ScTest(e, x, n)) == {x} && Succs(ScTest(e, x, n)) == {n, n + 1}
  {
  }

  /** Storing the right operand, on in the join, loading the result. */
  lemma JoinLeads(b: Low, av: seq<set<Reg>>, b2: Low, av2: seq<set<Reg>>, b3: Low, av3: seq<set<Reg>>, b4: Low, av4: seq<set<Reg>>, slot: Reg, y: Reg, join: BlockId)
    requires Leads(b, av, b2, av2) && Open(b2, av2) && slot in Here(b2, av2)
    requires Here(b3, av3) == Here(b2, av2) && Leads(b3, av3, b4, av4) && av2 <= av3 && Open(b4, av4) && y in Here(b4, av4) && b4.locals == b2.locals
    requires join < |Blocks(b4)| && Blocks(b4)[join] == EMPTY_BLOCK && join != b4.g.current && join < |av4| && av4[join] == Here(b2, av2)
    ensures Makes(b, av, ScJoin(b4, slot, y, join).0, av4, ScJoin(b4, slot, y, join).1)
  {
    hide Sound, Stored, Here, Ins, Closed;
    StillHere(b3, av3, b4, av4, slot);
    OpenStore(b4, av4, slot, y);
    var c := LPush(b4, Store(slot, y));
    SEnd(c, av4, Goto(join));
    var d := LEnd(c, Goto(join));
    assert Blocks(d)[join] == EMPTY_BLOCK;
    OpenSwitch(d, av4, join, b2, av2);
    var s := LSwitch(d, join);
    OpenIns(s, av4, Load(s.g.nextReg, slot));
    SOpen(b, av, b2, av2, s, av4);
    LeadsTrans(b, av, s, av4, Ins(s, Load(s.g.nextReg, slot)), av4);
  }

  lemma SOpen(b: Low, av: seq<set<Reg>>, b2: Low, av2: seq<set<Reg>>, s: Low, av4: seq<set<Reg>>)
    requires Leads(b, av, b2, av2) && av2 <= av4 && Open(s, av4) && Here(b2, av2) <= Here(s, av4)
    ensures Leads(b, av, s, av4)
  {
  }

  lemma ExpressionOrLeads(b: Low, av: seq<set<Reg>>, e: Option<Expr>, d: int) returns (av1: seq<set<Reg>>)
    requires (e.Some? ==> WfE(e.value)) && Open(b, av)
    ensures Makes(b, av, ExpressionOr(b, e, d).0, av1, ExpressionOr(b, e, d).1)
  {
    hide Expression;
    av1 := av;
    if e.Some? {
      av1 := ExpressionLeads(b, av, e.value);
    } else {
      OpenIns(b, av, Const(b.g.nextReg, IntC(d)));
    }
  }
}
