/** The blocks of a loop: which are still empty when, and what is in the finished
    function. */
module LoopShape {
  import opened Ir
  import opened Machine
  import opened Source
  import opened Builder
  import opened LowerSpec
  import opened LowerGrow
  import opened Running
  import opened Landing

  /** Entering block `body`, one of the reserved ones. */
  lemma LoopInShape(b: Low, t: Terminator, body: BlockId, fr: LoopFrame, lo: BlockId, hi: BlockId, x: BlockId, y: BlockId)
    requires Reserved(b, lo, hi) && lo <= body < hi && lo <= x <= y <= hi && !(x <= body < y)
    ensures var c := LoopIn(b, t, body, fr);
            && c.g.current == body && Blocks(c)[body] == EMPTY_BLOCK && !Closed(c) && Blocks(c) == Blocks(LEnd(b, t))
            && c.g.loops == b.g.loops + [fr] && c.locals == b.locals && c.g.nextReg == b.g.nextReg
            && Reserved(c, x, y)
  {
  }

  /** Leaving a loop for its exit block. */
  lemma LoopEndShape(b: Low, back: BlockId, exit: BlockId)
    requires Reserved(b, exit, exit + 1)
    ensures var c := LoopEnd(b, back, exit);
            c.g.current == exit && Blocks(c)[exit] == EMPTY_BLOCK && !Closed(c) && Blocks(c) == Blocks(LEnd(LLeave(b), Goto(back)))
  {
  }

  lemma ExtLoopEnd(b: Low, back: BlockId, exit: BlockId, f: seq<Block>)
    requires Ext(Blocks(LoopEnd(b, back, exit)), f)
    ensures Ext(Blocks(b), f) && Ext(Blocks(LEnd(LLeave(b), Goto(back))), f)
  {
    hide Ext;
    EndExt(LLeave(b), Goto(back));
    ExtTrans(Blocks(b), Blocks(LoopEnd(b, back, exit)), f);
  }

  lemma ReservedNew(b: Low, n: nat)
    requires n <= 4
    ensures var m := |Blocks(b)|;
            && (n == 2 ==> Reserved(LBlock(LBlock(b)), m, m + 2))
            && (n == 3 ==> Reserved(LBlock(LBlock(LBlock(b))), m, m + 3))
            && (n == 4 ==> Reserved(LBlock(LBlock(LBlock(LBlock(b)))), m, m + 4))
  {
  }

  lemma AtSame(b: Low, b1: Low, c: Config)
    requires At(c, b) && b1.g.current == b.g.current && Blocks(b1)[b.g.current] == Blocks(b)[b.g.current]
    ensures At(c, b1)
  {
  }

  // ---- LOOP and REPEAT --------------------------------------------------------------------

  lemma TopShape(b: Low)
    ensures var n := |Blocks(b)|;
            var t := LoopTop(b);
            && t.g.current == n && Blocks(t)[n] == EMPTY_BLOCK && !Closed(t) && Blocks(t) == Blocks(LEnd(LBlock(LBlock(b)), Goto(n)))
            && t.g.loops == b.g.loops + [LoopFrame(n + 1, n)] && t.locals == b.locals && t.g.nextReg == b.g.nextReg
            && Reserved(t, n + 1, n + 2)
  {
    hide Ext, LoopIn;
    var n := |Blocks(b)|;
    ReservedNew(b, 2);
    LoopInShape(LBlock(LBlock(b)), Goto(n), n, LoopFrame(n + 1, n), n, n + 2, n + 1, n + 2);
  }

  // ---- WHILE ------------------------------------------------------------------------------

  lemma WhileShape(b: Low, cond: Expr)
    ensures var n := |Blocks(b)|;
            var h := WhileHead(b);
            var (t, c) := Expression(h, cond);
            var i := WhileIn(b, cond);
            && h.g.current == n && Blocks(h)[n] == EMPTY_BLOCK && !Closed(h) && Blocks(h) == Blocks(LEnd(LBlock(LBlock(LBlock(b))), Goto(n)))
            && h.locals == b.locals && h.g.nextReg == b.g.nextReg && h.g.loops == b.g.loops
            && Flows(h, t) && b.g.nextReg <= t.g.nextReg
            && i.g.current == n + 1 && Blocks(i)[n + 1] == EMPTY_BLOCK && !Closed(i) && Blocks(i) == Blocks(LEnd(t, CondBr(c, n + 1, n + 2)))
            && i.g.loops == b.g.loops + [LoopFrame(n + 2, n)] && i.locals == b.locals && i.g.nextReg == t.g.nextReg
            && Reserved(i, n + 2, n + 3)
  {
    hide Ext, Expression, LoopIn;
    var n := |Blocks(b)|;
    ReservedNew(b, 3);
    var b0 := LBlock(LBlock(LBlock(b)));
    ReservedEnd(b0, Goto(n), n, n + 3);
    ReservedTake(LEnd(b0, Goto(n)), n, n, n + 3);
    var h := WhileHead(b);
    assert Reserved(h, n + 1, n + 3);
    var (t, c) := Expression(h, cond);
    GrowsExpression(h, cond);
    LongEnough(h, t);
    ReservedGrows(h, t, n + 1, n + 3);
    LoopInShape(t, CondBr(c, n + 1, n + 2), n + 1, LoopFrame(n + 2, n), n + 1, n + 3, n + 2, n + 3);
  }

  // ---- FOR --------------------------------------------------------------------------------

  lemma ForShape(b: Low, r: ForRegs)
    ensures var n := |Blocks(b)|;
            var h := ForHead(b);
            var (t, c) := ForHeader(h, r);
            var i := ForIn(b, r);
            && h.g.current == n && Blocks(h)[n] == EMPTY_BLOCK && !Closed(h) && Blocks(h) == Blocks(LEnd(LBlock(LBlock(LBlock(LBlock(b)))), Goto(n)))
            && h.locals == b.locals && h.g.nextReg == b.g.nextReg && h.g.loops == b.g.loops
            && Flows(h, t) && b.g.nextReg <= t.g.nextReg
            && i.g.current == n + 1 && Blocks(i)[n + 1] == EMPTY_BLOCK && !Closed(i) && Blocks(i) == Blocks(LEnd(t, CondBr(c, n + 1, n + 3)))
            && i.g.loops == b.g.loops + [LoopFrame(n + 3, n + 2)] && i.locals == b.locals && i.g.nextReg == t.g.nextReg
            && Reserved(i, n + 2, n + 4)
  {
    hide Ext, ForHeader, LoopIn;
    var n := |Blocks(b)|;
    ReservedNew(b, 4);
    var b0 := LBlock(LBlock(LBlock(LBlock(b))));
    ReservedEnd(b0, Goto(n), n, n + 4);
    ReservedTake(LEnd(b0, Goto(n)), n, n, n + 4);
    var h := ForHead(b);
    assert Reserved(h, n + 1, n + 4);
    var (t, c) := ForHeader(h, r);
    GrowsForHeader(h, r);
    LongEnough(h, t);
    ReservedGrows(h, t, n + 1, n + 4);
    LoopInShape(t, CondBr(c, n + 1, n + 3), n + 1, LoopFrame(n + 3, n + 2), n + 1, n + 4, n + 2, n + 4);
  }

  /** Behind the body: room test, advance, exit. */
  lemma ForTailShape(b: Low, r: ForRegs, n: BlockId, f: seq<Block>)
    requires Reserved(b, n + 2, n + 4) && Ext(Blocks(ForTail(b, r, n)), f)
    ensures var s := LoopEnd(b, n + 2, n + 2);
            var (t, cur, fits) := ForRoom(s, r);
            var a := ForFork(t, fits, n);
            && s.g.current == n + 2 && Blocks(s)[n + 2] == EMPTY_BLOCK && !Closed(s)
            && Ext(Blocks(b), f) && Ext(Blocks(LEnd(LLeave(b), Goto(n + 2))), f) && Ext(Blocks(t), f) && Ext(Blocks(a), f)
            && Ext(Blocks(ForAdvance(a, r, cur, n)), f)
            && a.g.current == |Blocks(t)| && Blocks(a)[|Blocks(t)|] == EMPTY_BLOCK && !Closed(a) && a.g.nextReg == t.g.nextReg
            && b.g.nextReg == s.g.nextReg && s.g.nextReg <= t.g.nextReg
            && ForTail(b, r, n).g.current == n + 3 && Blocks(ForTail(b, r, n))[n + 3] == EMPTY_BLOCK
  {
    hide Ext, ForRoom, LoopEnd, ForAdvance, ForFork;
    ReservedPart(b, n + 2, n + 4, n + 2, n + 3);
    LoopEndShape(b, n + 2, n + 2);
    var s := LoopEnd(b, n + 2, n + 2);
    ReservedTail(b, n);
    var (t, cur, fits) := ForRoom(s, r);
    GrowsForRoom(s, r);
    LongEnough(s, t);
    ReservedGrows(s, t, n + 3, n + 4);
    GrowsForFork(t, fits, n);
    var a := ForFork(t, fits, n);
    ReservedGrows(t, a, n + 3, n + 4);
    GrowsForAdvance(a, r, cur, n);
    var z := ForAdvance(a, r, cur, n);
    ReservedGrows(a, z, n + 3, n + 4);
    ReservedTake(z, n + 3, n + 3, n + 4);
    assert Blocks(ForTail(b, r, n)) == Blocks(z);
    ExtBack(a, z, f);
    ExtBack(t, a, f);
    ExtBack(s, t, f);
    ExtLoopEnd(b, n + 2, n + 2, f);
  }

  lemma ReservedTail(b: Low, n: BlockId)
    requires Reserved(b, n + 2, n + 4)
    ensures Reserved(LoopEnd(b, n + 2, n + 2), n + 3, n + 4) && LoopEnd(b, n + 2, n + 2).g.nextReg == b.g.nextReg
  {
  }
}
