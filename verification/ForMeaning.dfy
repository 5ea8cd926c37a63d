/** The code around a FOR body: setting the loop up, the test in the header, the
    room test behind the body and the advance. */
module ForMeaning {
  import opened Arith
  import opened Ir
  import opened Machine
  import opened Source
  import opened Builder
  import opened LowerSpec
  import opened LowerGrow
  import opened Running
  import opened ExprMeaning
  import opened SimpleMeaning
  import opened Landing

  /** The registers of a FOR hold the variable's address, the end and the step. */
  ghost predicate ForReady(b: Low, r: ForRegs, c: Config, l: Loc, last: I64, step: I64) {
    && Holds(b, c, r.ptr, CellAddr(l)) && Holds(b, c, r.last, Num(last)) && Holds(b, c, r.stride, Num(step))
    && Holds(b, c, r.zero, Num(0)) && Holds(b, c, r.nonneg, Num(FromBool(step >= 0)))
  }

  lemma ForReadyKept(b: Low, b1: Low, r: ForRegs, c: Config, d: Config, l: Loc, last: I64, step: I64)
    requires ForReady(b, r, c, l, last, step) && Kept(b.g.nextReg, c, d) && b.g.nextReg <= b1.g.nextReg
    ensures ForReady(b1, r, d, l, last, step)
  {
  }

  /** Besides, the registers from `n` on hold the numbers `vals`. */
  ghost predicate Computed(b: Low, r: ForRegs, c: Config, l: Loc, last: I64, step: I64, n: Reg, vals: seq<I64>) {
    && ForReady(b, r, c, l, last, step) && b.g.nextReg == n + |vals| && !Closed(b)
    && forall i :: 0 <= i < |vals| ==> Holds(b, c, n + i, Num(vals[i]))
  }

  lemma Got(b: Low, r: ForRegs, c: Config, l: Loc, last: I64, step: I64, n: Reg, vals: seq<I64>, i: nat, v: I64)
    requires Computed(b, r, c, l, last, step, n, vals) && i < |vals| && vals[i] == v
    ensures Holds(b, c, n + i, Num(v))
  {
  }

  lemma ComputedGrows(b: Low, b1: Low, r: ForRegs, c: Config, d: Config, l: Loc, last: I64, step: I64, n: Reg, vals: seq<I64>, v: I64)
    requires Computed(b, r, c, l, last, step, n, vals) && Kept(b.g.nextReg, c, d) && b1.g.nextReg == b.g.nextReg + 1 && !Closed(b1)
    requires Holds(b1, d, b.g.nextReg, Num(v))
    ensures Computed(b1, r, d, l, last, step, n, vals + [v])
  {
    hide Closed;
    ForReadyKept(b, b1, r, c, d, l, last, step);
    forall i | 0 <= i < |vals|
      ensures Holds(b1, d, n + i, Num((vals + [v])[i]))
    {
      HoldsKept(b, b1, c, d, n + i, Num(vals[i]));
    }
  }

  /** The load of the FOR variable. */
  lemma ForLoad(w: World, f: seq<Block>, b: Low, r: ForRegs, c: Config, l: Loc, last: I64, step: I64) returns (d: Config)
    requires !Closed(b) && At(c, b) && Ext(Blocks(Ins(b, Load(b.g.nextReg, r.ptr))), f) && ForReady(b, r, c, l, last, step)
    ensures var b1 := Ins(b, Load(b.g.nextReg, r.ptr));
            Arrives(w, f, b, b1, c, d, c.st) && Computed(b1, r, d, l, last, step, b.g.nextReg, [ReadCell(c.st, l)])
             && ForReady(b1, r, d, l, last, step) && b1.g.nextReg == b.g.nextReg + 1 && !Closed(b1)
  {
    hide Ext;
    var v := ReadCell(c.st, l);
    d := InsStep(w, f, b, Load(b.g.nextReg, r.ptr), c, Num(v));
    assert [] + [v] == [v];
    ComputedGrows(b, Ins(b, Load(b.g.nextReg, r.ptr)), r, c, d, l, last, step, b.g.nextReg, [], v);
  }

  lemma ForOp(w: World, f: seq<Block>, a: Low, b: Low, op: BinOp, x: Reg, y: Reg, u: I64, v: I64, z: I64, c: Config, d: Config, st: State,
              r: ForRegs, l: Loc, last: I64, step: I64, n: Reg, vals: seq<I64>) returns (e: Config)
    requires Arrives(w, f, a, b, c, d, st) && a.g.nextReg <= b.g.nextReg && Computed(b, r, d, l, last, step, n, vals)
    requires Ext(Blocks(Ins(b, Binary(n + |vals|, op, x, y))), f)
    requires Holds(b, d, x, Num(u)) && Holds(b, d, y, Num(v)) && BinaryOf(op, u, v) == Some(z)
    ensures var b1 := Ins(b, Binary(n + |vals|, op, x, y));
            Arrives(w, f, a, b1, c, e, st) && Computed(b1, r, e, l, last, step, n, vals + [z])
             && ForReady(b1, r, e, l, last, step) && b1.g.nextReg == n + |vals| + 1 && !Closed(b1)
  {
    hide Ext, BinaryOf, Arrives, Ins;
    e := ThenBinary(w, f, a, b, op, x, y, u, v, z, c, d, st);
    ComputedGrows(b, Ins(b, Binary(b.g.nextReg, op, x, y)), r, d, e, l, last, step, n, vals, z);
  }

  lemma ForNot(w: World, f: seq<Block>, a: Low, b: Low, c: Config, d: Config, st: State,
               r: ForRegs, l: Loc, last: I64, step: I64, n: Reg, vals: seq<I64>) returns (e: Config)
    requires Arrives(w, f, a, b, c, d, st) && a.g.nextReg <= b.g.nextReg && Computed(b, r, d, l, last, step, n, vals)
    requires Ext(Blocks(Ins(b, Unary(n + |vals|, UnaryOp.Not, r.nonneg))), f)
    ensures var b1 := Ins(b, Unary(n + |vals|, UnaryOp.Not, r.nonneg));
            Arrives(w, f, a, b1, c, e, st) && Computed(b1, r, e, l, last, step, n, vals + [FromBool(step < 0)])
             && ForReady(b1, r, e, l, last, step) && b1.g.nextReg == n + |vals| + 1 && !Closed(b1)
  {
    hide Ext;
    var i := Unary(b.g.nextReg, UnaryOp.Not, r.nonneg);
    e := InsStep(w, f, b, i, d, Num(FromBool(step < 0)));
    ArrivesTrans(w, f, a, b, Ins(b, i), c, d, e, st, st);
    ComputedGrows(b, Ins(b, i), r, d, e, l, last, step, n, vals, FromBool(step < 0));
  }

  // ---- The header -------------------------------------------------------------------------

  lemma HeaderStep(w: World, f: seq<Block>, b: Low, r: ForRegs, c: Config, l: Loc, last: I64, step: I64) returns (d: Config)
    requires !Closed(b) && At(c, b) && ForReady(b, r, c, l, last, step) && Ext(Blocks(ForHeader(b, r).0), f)
    ensures Arrives(w, f, b, ForHeader(b, r).0, c, d, c.st) && !Closed(ForHeader(b, r).0)
    ensures Holds(ForHeader(b, r).0, d, ForHeader(b, r).1, Num(FromBool(ForRuns(ReadCell(c.st, l), last, step))))
  {
    hide Ext, Reach, Ins, BinaryOf, Arrives, Closed, Computed, Holds, Kept, ReadCell;
    var n := b.g.nextReg;
    var cur := ReadCell(c.st, l);
    var (up, down) := (FromBool(step >= 0), FromBool(step < 0));
    var (le, ge) := (FromBool(cur <= last), FromBool(cur >= last));
    var (asc, desc) := (FromBool(step >= 0 && cur <= last), FromBool(step < 0 && cur >= last));
    var b1 := Ins(b, Load(n, r.ptr));
    var b2 := Ins(b1, Binary(n + 1, Le, n, r.last));
    var b3 := Ins(b2, Binary(n + 2, Ge, n, r.last));
    var b4 := Ins(b3, Unary(n + 3, UnaryOp.Not, r.nonneg));
    var b5 := Ins(b4, Binary(n + 4, And, r.nonneg, n + 1));
    var b6 := Ins(b5, Binary(n + 5, And, n + 3, n + 2));
    ExtIns(b6, Binary(n + 6, Or, n + 4, n + 5), f);
    ExtIns(b5, Binary(n + 5, And, n + 3, n + 2), f);
    ExtIns(b4, Binary(n + 4, And, r.nonneg, n + 1), f);
    ExtIns(b3, Unary(n + 3, UnaryOp.Not, r.nonneg), f);
    ExtIns(b2, Binary(n + 2, Ge, n, r.last), f);
    ExtIns(b1, Binary(n + 1, Le, n, r.last), f);
    OpTable(cur, last);
    OpTable(up, le);
    OpTable(down, ge);
    OpTable(asc, desc);
    d := ForLoad(w, f, b, r, c, l, last, step);
    Got(b1, r, d, l, last, step, n, [cur], 0, cur);
    d := ForOp(w, f, b, b1, Le, n, r.last, cur, last, le, c, d, c.st, r, l, last, step, n, [cur]);
    Got(b2, r, d, l, last, step, n, [cur] + [le], 0, cur);
    d := ForOp(w, f, b, b2, Ge, n, r.last, cur, last, ge, c, d, c.st, r, l, last, step, n, [cur] + [le]);
    d := ForNot(w, f, b, b3, c, d, c.st, r, l, last, step, n, [cur] + [le] + [ge]);
    Got(b4, r, d, l, last, step, n, [cur] + [le] + [ge] + [down], 1, le);
    d := ForOp(w, f, b, b4, And, r.nonneg, n + 1, up, le, asc, c, d, c.st, r, l, last, step, n, [cur] + [le] + [ge] + [down]);
    Got(b5, r, d, l, last, step, n, [cur] + [le] + [ge] + [down] + [asc], 3, down);
    Got(b5, r, d, l, last, step, n, [cur] + [le] + [ge] + [down] + [asc], 2, ge);
    d := ForOp(w, f, b, b5, And, n + 3, n + 2, down, ge, desc, c, d, c.st, r, l, last, step, n, [cur] + [le] + [ge] + [down] + [asc]);
    Got(b6, r, d, l, last, step, n, [cur] + [le] + [ge] + [down] + [asc] + [desc], 4, asc);
    Got(b6, r, d, l, last, step, n, [cur] + [le] + [ge] + [down] + [asc] + [desc], 5, desc);
    d := ForOp(w, f, b, b6, Or, n + 4, n + 5, asc, desc, FromBool(ForRuns(cur, last, step)), c, d, c.st, r, l, last, step, n,
               [cur] + [le] + [ge] + [down] + [asc] + [desc]);
    Got(ForHeader(b, r).0, r, d, l, last, step, n, [cur] + [le] + [ge] + [down] + [asc] + [desc] + [FromBool(ForRuns(cur, last, step))], 6,
        FromBool(ForRuns(cur, last, step)));
  }

  // ---- The room test -------------------------------------------------------------------------

  lemma ExtRoom(b: Low, r: ForRegs, f: seq<Block>)
    requires Ext(Blocks(ForRoom(b, r).0), f)
    ensures var n := b.g.nextReg;
            var b1 := Ins(b, Load(n, r.ptr));
            var b2 := Ins(b1, Binary(n + 1, Sub, r.last, n));
            var b3 := Ins(b2, Binary(n + 2, Sub, n, r.last));
            var b4 := Ins(b3, Binary(n + 3, Sub, r.zero, r.stride));
            var b5 := Ins(b4, Unary(n + 4, UnaryOp.Not, r.nonneg));
            Ext(Blocks(b1), f) && Ext(Blocks(b2), f) && Ext(Blocks(b3), f) && Ext(Blocks(b4), f) && Ext(Blocks(b5), f)
  {
    hide Ext, Ins;
    var n := b.g.nextReg;
    var b1 := Ins(b, Load(n, r.ptr));
    var b2 := Ins(b1, Binary(n + 1, Sub, r.last, n));
    var b3 := Ins(b2, Binary(n + 2, Sub, n, r.last));
    var b4 := Ins(b3, Binary(n + 3, Sub, r.zero, r.stride));
    var b5 := Ins(b4, Unary(n + 4, UnaryOp.Not, r.nonneg));
    var b6 := Ins(b5, Binary(n + 5, Ge, n + 1, r.stride));
    var b7 := Ins(b6, Binary(n + 6, And, r.nonneg, n + 5));
    var b8 := Ins(b7, Binary(n + 7, Ge, n + 2, n + 3));
    var b9 := Ins(b8, Binary(n + 8, And, n + 4, n + 7));
    ExtIns(b9, Binary(n + 9, Or, n + 6, n + 8), f);
    ExtIns(b8, Binary(n + 8, And, n + 4, n + 7), f);
    ExtIns(b7, Binary(n + 7, Ge, n + 2, n + 3), f);
    ExtIns(b6, Binary(n + 6, And, r.nonneg, n + 5), f);
    ExtIns(b5, Binary(n + 5, Ge, n + 1, r.stride), f);
    ExtIns(b4, Unary(n + 4, UnaryOp.Not, r.nonneg), f);
    ExtIns(b3, Binary(n + 3, Sub, r.zero, r.stride), f);
    ExtIns(b2, Binary(n + 2, Sub, n, r.last), f);
    ExtIns(b1, Binary(n + 1, Sub, r.last, n), f);
  }

  /** The variable, the room on either side, the size of the step, its sign. */
  function RoomParts(b: Low, r: ForRegs): Low {
    var n := b.g.nextReg;
    var b1 := Ins(b, Load(n, r.ptr));
    var b2 := Ins(b1, Binary(n + 1, Sub, r.last, n));
    var b3 := Ins(b2, Binary(n + 2, Sub, n, r.last));
    var b4 := Ins(b3, Binary(n + 3, Sub, r.zero, r.stride));
    Ins(b4, Unary(n + 4, UnaryOp.Not, r.nonneg))
  }

  lemma RoomPartsStep(w: World, f: seq<Block>, b: Low, r: ForRegs, c: Config, l: Loc, last: I64, step: I64) returns (d: Config)
    requires !Closed(b) && At(c, b) && ForReady(b, r, c, l, last, step) && Ext(Blocks(ForRoom(b, r).0), f)
    ensures var cur := ReadCell(c.st, l);
            && Arrives(w, f, b, RoomParts(b, r), c, d, c.st)
            && Computed(RoomParts(b, r), r, d, l, last, step, b.g.nextReg,
                        [cur] + [Wrap(last - cur)] + [Wrap(cur - last)] + [Wrap(0 - step)] + [FromBool(step < 0)])
  {
    hide Ext, Reach, Ins, BinaryOf, Arrives, Closed, Computed, Holds, Kept, ReadCell, Wrap, ForRoom;
    var n := b.g.nextReg;
    var cur := ReadCell(c.st, l);
    var b1 := Ins(b, Load(n, r.ptr));
    var b2 := Ins(b1, Binary(n + 1, Sub, r.last, n));
    var b3 := Ins(b2, Binary(n + 2, Sub, n, r.last));
    var b4 := Ins(b3, Binary(n + 3, Sub, r.zero, r.stride));
    ExtRoom(b, r, f);
    OpTable(last, cur);
    OpTable(cur, last);
    OpTable(0, step);
    var (up, down) := (Wrap(last - cur), Wrap(cur - last));
    d := ForLoad(w, f, b, r, c, l, last, step);
    Got(b1, r, d, l, last, step, n, [cur], 0, cur);
    d := ForOp(w, f, b, b1, Sub, r.last, n, last, cur, up, c, d, c.st, r, l, last, step, n, [cur]);
    Got(b2, r, d, l, last, step, n, [cur] + [up], 0, cur);
    d := ForOp(w, f, b, b2, Sub, n, r.last, cur, last, down, c, d, c.st, r, l, last, step, n, [cur] + [up]);
    d := ForOp(w, f, b, b3, Sub, r.zero, r.stride, 0, step, Wrap(0 - step), c, d, c.st, r, l, last, step, n, [cur] + [up] + [down]);
    d := ForNot(w, f, b, b4, c, d, c.st, r, l, last, step, n, [cur] + [up] + [down] + [Wrap(0 - step)]);
  }

  /** The room tests on top of the parts. */
  function RoomTests(b5: Low, r: ForRegs, n: Reg): Low {
    var b6 := Ins(b5, Binary(n + 5, Ge, n + 1, r.stride));
    var b7 := Ins(b6, Binary(n + 6, And, r.nonneg, n + 5));
    var b8 := Ins(b7, Binary(n + 7, Ge, n + 2, n + 3));
    var b9 := Ins(b8, Binary(n + 8, And, n + 4, n + 7));
    Ins(b9, Binary(n + 9, Or, n + 6, n + 8))
  }

  lemma RoomTestsStep(w: World, f: seq<Block>, b: Low, b5: Low, r: ForRegs, c: Config, c5: Config, l: Loc, last: I64, step: I64, n: Reg,
                      cur: I64, up: I64, down: I64, size: I64) returns (d: Config)
    requires Arrives(w, f, b, b5, c, c5, c.st) && b.g.nextReg <= b5.g.nextReg && Ext(Blocks(RoomTests(b5, r, n)), f)
    requires Computed(b5, r, c5, l, last, step, n, [cur] + [up] + [down] + [size] + [FromBool(step < 0)])
    requires b5.g.nextReg == n + 5 && !Closed(b5) && ForReady(b5, r, c5, l, last, step)
    ensures var b10 := RoomTests(b5, r, n);
            && Arrives(w, f, b, b10, c, d, c.st) && !Closed(b10) && Holds(b10, d, n, Num(cur))
            && Holds(b10, d, n + 9, Num(FromBool(if step >= 0 then up >= step else down >= size)))
  {
    hide Ext, Reach, Ins, BinaryOf, Arrives, Closed, Holds, Kept, Computed, Wrap;
    var neg := FromBool(step < 0);
    var nonneg := FromBool(step >= 0);
    var (g1, g2) := (FromBool(up >= step), FromBool(down >= size));
    var (a1, a2) := (FromBool(step >= 0 && up >= step), FromBool(step < 0 && down >= size));
    var b6 := Ins(b5, Binary(n + 5, Ge, n + 1, r.stride));
    var b7 := Ins(b6, Binary(n + 6, And, r.nonneg, n + 5));
    var b8 := Ins(b7, Binary(n + 7, Ge, n + 2, n + 3));
    var b9 := Ins(b8, Binary(n + 8, And, n + 4, n + 7));
    ExtIns(b9, Binary(n + 9, Or, n + 6, n + 8), f);
    ExtIns(b8, Binary(n + 8, And, n + 4, n + 7), f);
    ExtIns(b7, Binary(n + 7, Ge, n + 2, n + 3), f);
    ExtIns(b6, Binary(n + 6, And, r.nonneg, n + 5), f);
    OpTable(up, step);
    OpTable(nonneg, g1);
    OpTable(down, size);
    OpTable(neg, g2);
    OpTable(a1, a2);
    var vals := [cur] + [up] + [down] + [size] + [neg];
    d := c5;
    Got(b5, r, d, l, last, step, n, vals, 1, up);
    d := ForOp(w, f, b, b5, Ge, n + 1, r.stride, up, step, g1, c, d, c.st, r, l, last, step, n, vals);
    Got(b6, r, d, l, last, step, n, vals + [g1], 5, g1);
    d := ForOp(w, f, b, b6, And, r.nonneg, n + 5, nonneg, g1, a1, c, d, c.st, r, l, last, step, n, vals + [g1]);
    Got(b7, r, d, l, last, step, n, vals + [g1] + [a1], 2, down);
    Got(b7, r, d, l, last, step, n, vals + [g1] + [a1], 3, size);
    d := ForOp(w, f, b, b7, Ge, n + 2, n + 3, down, size, g2, c, d, c.st, r, l, last, step, n, vals + [g1] + [a1]);
    Got(b8, r, d, l, last, step, n, vals + [g1] + [a1] + [g2], 4, neg);
    Got(b8, r, d, l, last, step, n, vals + [g1] + [a1] + [g2], 7, g2);
    d := ForOp(w, f, b, b8, And, n + 4, n + 7, neg, g2, a2, c, d, c.st, r, l, last, step, n, vals + [g1] + [a1] + [g2]);
    Got(b9, r, d, l, last, step, n, vals + [g1] + [a1] + [g2] + [a2], 6, a1);
    Got(b9, r, d, l, last, step, n, vals + [g1] + [a1] + [g2] + [a2], 8, a2);
    d := ForOp(w, f, b, b9, Or, n + 6, n + 8, a1, a2, FromBool(if step >= 0 then up >= step else down >= size), c, d, c.st, r, l, last, step, n,
               vals + [g1] + [a1] + [g2] + [a2]);
    Got(RoomTests(b5, r, n), r, d, l, last, step, n, vals + [g1] + [a1] + [g2] + [a2] + [FromBool(if step >= 0 then up >= step else down >= size)], 0, cur);
    Got(RoomTests(b5, r, n), r, d, l, last, step, n, vals + [g1] + [a1] + [g2] + [a2] + [FromBool(if step >= 0 then up >= step else down >= size)], 9, FromBool(if step >= 0 then up >= step else down >= size));
  }

  lemma RoomStep(w: World, f: seq<Block>, b: Low, r: ForRegs, c: Config, l: Loc, last: I64, step: I64) returns (d: Config)
    requires !Closed(b) && At(c, b) && ForReady(b, r, c, l, last, step) && Ext(Blocks(ForRoom(b, r).0), f)
    ensures var (b1, cur, fits) := ForRoom(b, r);
            && Arrives(w, f, b, b1, c, d, c.st) && !Closed(b1) && Holds(b1, d, cur, Num(ReadCell(c.st, l)))
            && Holds(b1, d, fits, Num(FromBool(StepFits(ReadCell(c.st, l), last, step))))
  {
    hide Ext, Reach, Ins, Arrives, Closed, Wrap;
    var n := b.g.nextReg;
    var cur := ReadCell(c.st, l);
    var t := RoomParts(b, r);
    assert ForRoom(b, r) == (RoomTests(t, r, n), n, n + 9);
    d := RoomPartsStep(w, f, b, r, c, l, last, step);
    d := RoomTestsStep(w, f, b, t, r, c, d, l, last, step, n, cur, Wrap(last - cur), Wrap(cur - last), Wrap(0 - step));
  }

  // ---- Setup and advance ----------------------------------------------------------------------

  lemma ExtSetup(b: Low, s: Stmt, f: seq<Block>)
    requires s.For? && Ext(Blocks(ForSetup(b, s).0), f)
    ensures var (b1, ptr) := ForVariable(b, s.x);
            var (b2, v) := Expression(b1, s.from);
            var b2' := LPush(b2, Store(ptr, v));
            var (b3, last) := Expression(b2', s.to);
            var (b4, stride) := ExpressionOr(b3, s.step, 1);
            && Ext(Blocks(b1), f) && Ext(Blocks(b2), f) && Ext(Blocks(b2'), f) && Ext(Blocks(b3), f) && Ext(Blocks(b4), f)
            && Grows(b1, b2) && Grows(b2', b3) && Grows(b3, b4)
  {
    hide Ext, Expression, ExpressionOr, ForVariable;
    var (b1, ptr) := ForVariable(b, s.x);
    var (b2, v) := Expression(b1, s.from);
    var b2' := LPush(b2, Store(ptr, v));
    var (b3, last) := Expression(b2', s.to);
    var (b4, stride) := ExpressionOr(b3, s.step, 1);
    var zero := b4.g.nextReg;
    GrowsExpression(b1, s.from);
    GrowsExpression(b2', s.to);
    GrowsExpressionOr(b3, s.step, 1);
    ExtIns(Ins(b4, Const(zero, IntC(0))), Binary(zero + 1, Ge, stride, zero), f);
    ExtIns(b4, Const(zero, IntC(0)), f);
    ExtBack(b3, b4, f);
    ExtBack(b2', b3, f);
    ExtPush(b2, Store(ptr, v), f);
    ExtBack(b1, b2, f);
  }

  /** Start, end and step in that order, the start already stored when the other
      two are evaluated. */
  function EvalSetup(w: World, s: Stmt, st: State): EvalResult<(I64, I64)>
    requires s.For?
  {
    match Eval(w, s.from, st)
    case Escaped(st1) => Escaped(st1)
    case Val(a, st1) =>
      match Eval(w, s.to, WriteCell(st1, Loc(w.env(s.x), 0), a))
      case Escaped(st2) => Escaped(st2)
      case Val(last, st2) =>
        match EvalOr(w, s.step, 1, st2)
        case Escaped(st3) => Escaped(st3)
        case Val(stride, st3) => Val((last, stride), st3)
  }

  lemma {:induction false} SetupMeaning(w: World, f: seq<Block>, b: Low, s: Stmt, c: Config) returns (d: Config)
    requires s.For? && s.x in b.locals && WfE(s.from) && WfE(s.to) && (s.step.Some? ==> WfE(s.step.value))
    requires !Closed(b) && At(c, b) && Names(w, b, c) && Ext(Blocks(ForSetup(b, s).0), f)
    ensures var (b1, r) := ForSetup(b, s);
            match EvalSetup(w, s, c.st)
            case Escaped(st) => Reach(w, f, 0, Run(c), Done(Aborted, st))
            case Val(p, st) => Arrives(w, f, b, b1, c, d, st) && !Closed(b1) && ForReady(b1, r, d, Loc(w.env(s.x), 0), p.0, p.1)
  {
    hide Ext, Reach, Names, Expression, ExpressionOr, Eval, EvalOr, WfE, NamePtr;
    var l := Loc(w.env(s.x), 0);
    var (b1, ptr) := ForVariable(b, s.x);
    var (b2, v) := Expression(b1, s.from);
    var b2' := LPush(b2, Store(ptr, v));
    ExtSetup(b, s, f);
    GrowsName(b, s.x);
    GrowsExpression(b1, s.from);
    var c1 := NameStep(w, f, b, s.x, c);
    NamesKept(w, b, b1, c, c1);
    d := ExpressionMeaning(w, f, b1, s.from, c1);
    match Eval(w, s.from, c.st)
    case Escaped(st) => ThenEscape(w, f, b, b1, c, c1, c.st, st);
    case Val(a, st) =>
      var c2 := d;
      HoldsKept(b1, b2, c1, c2, ptr, CellAddr(l));
      ArrivesTrans(w, f, b, b1, b2, c, c1, c2, c.st, st);
      var c3 := StoreStep(w, f, b, b2, ptr, v, l, a, c, c2);
      NamesKept(w, b, b2', c, c3);
      d := LimitsMeaning(w, f, b, b2', s, ptr, c, c3);
  }

  lemma {:induction false} LimitsMeaning(w: World, f: seq<Block>, b: Low, b2: Low, s: Stmt, ptr: Reg, c: Config, c2: Config) returns (d: Config)
    requires s.For? && WfE(s.to) && (s.step.Some? ==> WfE(s.step.value))
    requires !Closed(b2) && Arrives(w, f, b, b2, c, c2, c2.st) && Names(w, b2, c2) && b.g.nextReg <= b2.g.nextReg
    requires Holds(b2, c2, ptr, CellAddr(Loc(w.env(s.x), 0)))
    requires var (b3, last) := Expression(b2, s.to);
             var (b4, stride) := ExpressionOr(b3, s.step, 1);
             var zero := b4.g.nextReg;
             && Ext(Blocks(b3), f) && Ext(Blocks(b4), f) && Ext(Blocks(Ins(Ins(b4, Const(zero, IntC(0))), Binary(zero + 1, Ge, stride, zero))), f)
    ensures var (b3, last) := Expression(b2, s.to);
            var (b4, stride) := ExpressionOr(b3, s.step, 1);
            var zero := b4.g.nextReg;
            var b6 := Ins(Ins(b4, Const(zero, IntC(0))), Binary(zero + 1, Ge, stride, zero));
            match Eval(w, s.to, c2.st)
            case Escaped(st) => Reach(w, f, 0, Run(c), Done(Aborted, st))
            case Val(x, st) =>
              match EvalOr(w, s.step, 1, st)
              case Escaped(st1) => Reach(w, f, 0, Run(c), Done(Aborted, st1))
              case Val(y, st1) =>
                Arrives(w, f, b, b6, c, d, st1) && !Closed(b6)
                && ForReady(b6, ForRegs(ptr, last, stride, zero, zero + 1), d, Loc(w.env(s.x), 0), x, y)
  {
    hide Ext, Reach, Names, Expression, ExpressionOr, Eval, EvalOr, WfE;
    var l := Loc(w.env(s.x), 0);
    var (b3, last) := Expression(b2, s.to);
    var (b4, stride) := ExpressionOr(b3, s.step, 1);
    GrowsExpression(b2, s.to);
    GrowsExpressionOr(b3, s.step, 1);
    d := ExpressionMeaning(w, f, b2, s.to, c2);
    match Eval(w, s.to, c2.st)
    case Escaped(st) => ThenEscape(w, f, b, b2, c, c2, c2.st, st);
    case Val(x, st) =>
      var c3 := d;
      ArrivesTrans(w, f, b, b2, b3, c, c2, c3, c2.st, st);
      NamesKept(w, b2, b3, c2, c3);
      HoldsKept(b2, b3, c2, c3, ptr, CellAddr(l));
      d := ExpressionOrMeaning(w, f, b3, s.step, 1, c3);
      match EvalOr(w, s.step, 1, st)
      case Escaped(st1) => ThenEscape(w, f, b, b3, c, c3, st, st1);
      case Val(y, st1) =>
        var c4 := d;
        ArrivesTrans(w, f, b, b3, b4, c, c3, c4, st, st1);
        HoldsKept(b3, b4, c3, c4, ptr, CellAddr(l));
        HoldsKept(b3, b4, c3, c4, last, Num(x));
        d := SignStep(w, f, b, b4, ForRegs(ptr, last, stride, b4.g.nextReg, b4.g.nextReg + 1), c, c4, l, x, y);
  }

  lemma SignStep(w: World, f: seq<Block>, b: Low, b4: Low, r: ForRegs, c: Config, c4: Config, l: Loc, x: I64, y: I64) returns (d: Config)
    requires !Closed(b4) && Arrives(w, f, b, b4, c, c4, c4.st) && b.g.nextReg <= b4.g.nextReg
    requires Holds(b4, c4, r.ptr, CellAddr(l)) && Holds(b4, c4, r.last, Num(x)) && Holds(b4, c4, r.stride, Num(y))
    requires r.zero == b4.g.nextReg && r.nonneg == r.zero + 1
    requires Ext(Blocks(Ins(Ins(b4, Const(r.zero, IntC(0))), Binary(r.nonneg, Ge, r.stride, r.zero))), f)
    ensures var b6 := Ins(Ins(b4, Const(r.zero, IntC(0))), Binary(r.nonneg, Ge, r.stride, r.zero));
            Arrives(w, f, b, b6, c, d, c4.st) && !Closed(b6) && ForReady(b6, r, d, l, x, y)
  {
    hide Ext, Reach, BinaryOf;
    var i1 := Const(r.zero, IntC(0));
    var b5 := Ins(b4, i1);
    var i2 := Binary(r.nonneg, Ge, r.stride, r.zero);
    ExtIns(b5, i2, f);
    OpTable(y, 0);
    var c5 := InsStep(w, f, b4, i1, c4, Num(0));
    HoldsKept(b4, b5, c4, c5, r.stride, Num(y));
    ArrivesTrans(w, f, b, b4, b5, c, c4, c5, c4.st, c4.st);
    d := ThenBinary(w, f, b, b5, Ge, r.stride, r.zero, y, 0, FromBool(y >= 0), c, c5, c4.st);
  }

  /** The advance block: store the next value, back to the header. */
  lemma AdvanceStep(w: World, f: seq<Block>, n: Reg, b: Low, r: ForRegs, cur: Reg, header: BlockId, x: I64, c: Config, d: Config, l: Loc, last: I64, step: I64)
    returns (e: Config)
    requires !Closed(b) && At(d, b) && Reach(w, f, 0, Run(c), Run(d)) && Kept(n, c, d) && n <= b.g.nextReg
    requires ForReady(b, r, d, l, last, step) && Holds(b, d, cur, Num(x)) && Ext(Blocks(ForAdvance(b, r, cur, header)), f)
    ensures Jumps(w, f, n, c, e, header, WriteCell(d.st, l, Wrap(x + step))) && Reach(w, f, 1, Run(c), Run(e))
  {
    hide Ext, BinaryOf, Wrap;
    var next := b.g.nextReg;
    var b1 := Ins(b, Binary(next, Add, cur, r.stride));
    var b2 := LPush(b1, Store(r.ptr, next));
    EndExt(b2, Goto(header));
    ExtBack(b2, LEnd(b2, Goto(header)), f);
    ExtPush(b1, Store(r.ptr, next), f);
    OpTable(x, step);
    ArrivesRefl(w, f, b, d);
    var d1 := ThenBinary(w, f, b, b, Add, cur, r.stride, x, step, Wrap(x + step), d, d, d.st);
    HoldsKept(b, b1, d, d1, r.ptr, CellAddr(l));
    var d2 := StoreStep(w, f, b, b1, r.ptr, next, l, Wrap(x + step), d, d1);
    ReachTrans(w, f, 0, 0, Run(c), Run(d), Run(d2));
    KeptTrans(n, b.g.nextReg, c, d, d2);
    e := GotoStep(w, f, n, b2, header, c, d2);
  }
}
