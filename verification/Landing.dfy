/** Where the code of a statement may leave the machine, and how landings compose. */
module Landing {
  import opened Arith
  import opened Ir
  import opened Machine
  import opened Source
  import opened Builder
  import opened LowerSpec
  import opened LowerGrow
  import opened Running

  /** The frame to free and the shared result cell are where the code expects them. */
  ghost predicate Surrounded(w: World, k: Ctx, b: Low, c: Config) {
    && (k.frame.Some? <==> w.frame.Some?)
    && (k.frame.Some? ==> k.frame.value < b.g.nextReg && k.frame.value in c.regs && c.regs[k.frame.value] == w.frame.value)
    && (k.resultSlot.Some? <==> w.resultCell.Some?)
    && (k.resultSlot.Some? ==> k.resultSlot.value < b.g.nextReg && k.resultSlot.value in c.regs
                               && c.regs[k.resultSlot.value] == CellAddr(w.resultCell.value))
  }

  ghost predicate Ready(w: World, k: Ctx, b: Low, c: Config) {
    Names(w, b, c) && Surrounded(w, k, b, c)
  }

  /** The machine gets to the start of block `target`. */
  ghost predicate Jumps(w: World, f: seq<Block>, n: Reg, c: Config, d: Config, target: BlockId, st: State) {
    Reach(w, f, 0, Run(c), Run(d)) && d.blk == target && d.idx == 0 && d.st == st && Kept(n, c, d)
  }

  /** From `c`, the code lowered between `b` and `b1` ends as `res` says; a run
      that is out of rounds has taken at least `fuel` steps. */
  ghost predicate Lands(w: World, f: seq<Block>, k: Ctx, b: Low, b1: Low, c: Config, d: Config, fuel: nat, res: Res) {
    match res.o
    case Normal => !Closed(b1) && Arrives(w, f, b, b1, c, d, res.st)
    case Exited => b.g.loops != [] && Jumps(w, f, b.g.nextReg, c, d, b.g.loops[|b.g.loops| - 1].exitBlock, res.st)
    case Retried => k.retry.Some? && Jumps(w, f, b.g.nextReg, c, d, k.retry.value, res.st)
    case Leaves(v) => Reach(w, f, 0, Run(c), Done(Result(v), res.st))
    case Ended => Reach(w, f, 0, Run(c), Done(Aborted, res.st))
    case Timeout => Reach(w, f, fuel, Run(c), Run(d)) && d.st == res.st
  }

  lemma ReadyKept(w: World, k: Ctx, b: Low, b1: Low, c: Config, d: Config)
    requires Ready(w, k, b, c) && Kept(b.g.nextReg, c, d) && b1.locals == b.locals && b.g.nextReg <= b1.g.nextReg
    ensures Ready(w, k, b1, d)
  {
    NamesKept(w, b, b1, c, d);
  }

  /** Code in front: `j` steps from `c` to `c1`. */
  lemma LandsAfter(w: World, f: seq<Block>, k: Ctx, b: Low, b1: Low, b2: Low, c: Config, c1: Config, d: Config, j: nat, more: nat, fuel: nat, res: Res)
    requires Reach(w, f, j, Run(c), Run(c1)) && Kept(b.g.nextReg, c, c1)
    requires Lands(w, f, k, b1, b2, c1, d, more, res) && fuel <= j + more
    requires b.g.nextReg <= b1.g.nextReg && b1.g.loops == b.g.loops
    ensures Lands(w, f, k, b, b2, c, d, fuel, res)
  {
    match res.o
    case Leaves(v) => ReachTrans(w, f, j, 0, Run(c), Run(c1), Done(Result(v), res.st));
    case Ended => ReachTrans(w, f, j, 0, Run(c), Run(c1), Done(Aborted, res.st));
    case Timeout => ReachTrans(w, f, j, more, Run(c), Run(c1), Run(d));
    case _ =>
      ReachTrans(w, f, j, 0, Run(c), Run(c1), Run(d));
      KeptTrans(b.g.nextReg, b1.g.nextReg, c, c1, d);
  }

  /** When the outcome is not Normal, the state the code was lowered to is not part of it. */
  lemma LandsElsewhere(w: World, f: seq<Block>, k: Ctx, b: Low, b1: Low, b2: Low, c: Config, d: Config, fuel: nat, res: Res)
    requires Lands(w, f, k, b, b1, c, d, fuel, res) && !res.o.Normal?
    ensures Lands(w, f, k, b, b2, c, d, fuel, res)
  {
  }

  /** Steps that end in a jump into an empty block that is now active. */
  lemma JumpArrives(w: World, f: seq<Block>, b: Low, b1: Low, c: Config, d: Config, target: BlockId, st: State)
    requires Jumps(w, f, b.g.nextReg, c, d, target, st)
    requires b1.g.current == target && Blocks(b1)[target] == EMPTY_BLOCK
    ensures Arrives(w, f, b, b1, c, d, st) && !Closed(b1)
  {
  }

  lemma GotoStep(w: World, f: seq<Block>, n: Reg, b: Low, target: BlockId, c: Config, d: Config) returns (e: Config)
    requires !Closed(b) && At(d, b) && Ext(Blocks(LEnd(b, Goto(target))), f)
    requires Reach(w, f, 0, Run(c), Run(d)) && Kept(n, c, d)
    ensures Jumps(w, f, n, c, e, target, d.st) && Reach(w, f, 1, Run(c), Run(e))
  {
    hide Ext;
    EndStep(w, f, b, Goto(target), d);
    e := d.(blk := target, idx := 0);
    ReachTrans(w, f, 0, 1, Run(c), Run(d), Run(e));
  }

  lemma BranchStep(w: World, f: seq<Block>, n: Reg, b: Low, cond: Reg, t: BlockId, u: BlockId, v: I64, c: Config, d: Config) returns (e: Config)
    requires !Closed(b) && At(d, b) && Ext(Blocks(LEnd(b, CondBr(cond, t, u))), f) && Holds(b, d, cond, Num(v))
    requires Reach(w, f, 0, Run(c), Run(d)) && Kept(n, c, d)
    ensures Jumps(w, f, n, c, e, if v != 0 then t else u, d.st) && Reach(w, f, 1, Run(c), Run(e))
  {
    hide Ext;
    EndStep(w, f, b, CondBr(cond, t, u), d);
    e := d.(blk := if v != 0 then t else u, idx := 0);
    ReachTrans(w, f, 0, 1, Run(c), Run(d), Run(e));
  }

  // ---- Blocks set aside for later --------------------------------------------------------

  /** Blocks lo..hi are still empty and not the active one. */
  ghost predicate Reserved(b: Low, lo: BlockId, hi: BlockId) {
    hi <= |Blocks(b)| && !(lo <= b.g.current < hi) && forall i :: lo <= i < hi ==> Blocks(b)[i] == EMPTY_BLOCK
  }

  lemma ReservedGrows(b: Low, b1: Low, lo: BlockId, hi: BlockId)
    requires Reserved(b, lo, hi) && Grows(b, b1)
    ensures Reserved(b1, lo, hi)
  {
    hide Ext;
    LongEnough(b, b1);
  }

  lemma ReservedEnd(b: Low, t: Terminator, lo: BlockId, hi: BlockId)
    requires Reserved(b, lo, hi)
    ensures Reserved(LEnd(b, t), lo, hi) && Reserved(LLeave(b), lo, hi)
  {
  }

  lemma ReservedSwitch(b: Low, id: BlockId, lo: BlockId, hi: BlockId)
    requires Reserved(b, lo, hi) && !(lo <= id < hi)
    ensures Reserved(LSwitch(b, id), lo, hi)
  {
  }

  lemma ReservedTake(b: Low, id: BlockId, lo: BlockId, hi: BlockId)
    requires Reserved(b, lo, hi) && lo <= id < hi
    ensures LSwitch(b, id).g.current == id && Blocks(LSwitch(b, id))[id] == EMPTY_BLOCK && !Closed(LSwitch(b, id))
  {
  }

  lemma ReservedPart(b: Low, lo: BlockId, hi: BlockId, lo1: BlockId, hi1: BlockId)
    requires Reserved(b, lo, hi) && lo <= lo1 <= hi1 <= hi
    ensures Reserved(b, lo1, hi1)
  {
  }
}
