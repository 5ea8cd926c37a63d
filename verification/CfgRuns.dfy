/** What a sound control-flow graph is good for when it runs: every block and register a
    run comes to is there. */
module CfgRuns {
  import opened Ir
  import opened Machine
  import opened Source
  import opened Builder
  import opened LowerSpec
  import opened CfgSound
  import opened CfgTheorem

  // ---- What an instruction takes and gives -----------------------------------------------------

  /** Two machines that agree on all but registers, and on these. */
  ghost predicate Alike(rs: set<Reg>, c: Config, d: Config) {
    && c.blk == d.blk && c.idx == d.idx && c.slots == d.slots && c.st == d.st
    && forall r :: r in rs ==> r in c.regs && r in d.regs && c.regs[r] == d.regs[r]
  }

  /** The machines do the same: to their memory, and to the one register defined. */
  ghost predicate AlikeAfter(def: Option<Reg>, c: Config, d: Config, s: Status, t: Status) {
    match s
    case Run(c1) =>
      t.Run? && Alike(if def.Some? then {def.value} else {}, c1, t.c)
      && (forall r :: r in c1.regs && Some(r) != def ==> r in c.regs && c1.regs[r] == c.regs[r])
      && forall r :: r in c.regs && Some(r) != def ==> r in c1.regs
    case _ => s == t
  }

  /** An instruction depends on the registers it uses and no others, and changes the one
      it defines and no others; without one of them it gets stuck. */
  lemma {:induction false} UsesAndDefs(w: World, i: Inst, c: Config, d: Config)
    ensures Alike(Uses(i), c, d) ==> AlikeAfter(Def(i), c, d, ExecInst(w, i, c), ExecInst(w, i, d))
    ensures !(Uses(i) <= c.regs.Keys) ==> ExecInst(w, i, c) == Stuck
  {
    hide BinaryOf, UnaryOf, ReadCell, WriteCell, ConstOf, Invoke;
    if i.Call? {
      CallUses(w, i, c, d);
    } else if Alike(Uses(i), c, d) {
      OthersAlike(w, i, c, d);
    }
  }

  lemma OthersAlike(w: World, i: Inst, c: Config, d: Config)
    requires !i.Call? && Alike(Uses(i), c, d)
    ensures AlikeAfter(Def(i), c, d, ExecInst(w, i, c), ExecInst(w, i, d))
  {
    hide BinaryOf, UnaryOf, ReadCell, WriteCell, ConstOf;
  }

  lemma CallUses(w: World, i: Inst, c: Config, d: Config)
    requires i.Call?
    ensures Alike(Uses(i), c, d) ==> AlikeAfter(Def(i), c, d, ExecInst(w, i, c), ExecInst(w, i, d))
    ensures !(Uses(i) <= c.regs.Keys) ==> ExecInst(w, i, c) == Stuck
  {
    hide Invoke;
    assert forall k :: 0 <= k < |i.args| ==> i.args[k] in Uses(i);
    if Alike(Uses(i), c, d) {
      assert ValuesOf(c.regs, i.args) == ValuesOf(d.regs, i.args);
    }
    if forall k :: 0 <= k < |i.args| ==> i.args[k] in c.regs {
      assert forall r :: r in i.args ==> r in c.regs;
    }
  }

  /** A jump goes to a successor, with the registers as they were; without its own it gets
      stuck. */
  lemma {:induction false} JumpsToSuccessors(t: Terminator, c: Config)
    ensures match ExecTerm(t, c)
            case Run(d) => d.blk in Succs(t) && d == c.(blk := d.blk, idx := 0)
            case _ => true
    ensures !(TermUses(t) <= c.regs.Keys) ==> ExecTerm(t, c) == Stuck
  {
    if t.Switch? && HasNum(c, t.val) {
      TargetIsSuccessor(t.arms, t.default, c.regs[t.val].n);
    }
  }

  lemma {:induction false} TargetIsSuccessor(arms: seq<(int, BlockId)>, default: BlockId, v: int)
    ensures var b := SwitchTarget(arms, default, v); b == default || exists k :: 0 <= k < |arms| && arms[k].1 == b
    decreases |arms|
  {
    if arms != [] {
      TargetIsSuccessor(arms[1..], default, v);
      var b := SwitchTarget(arms[1..], default, v);
      if k :| 0 <= k < |arms[1..]| && arms[1..][k].1 == b {
        assert arms[k + 1].1 == b;
      }
      assert arms[0].1 == arms[0].1;
    }
  }

  /** Every successor of a plain jump or a branch is gone to from some state. */
  lemma SuccessorsAreTaken(t: Terminator, b: BlockId, c: Config) returns (d: Config)
    requires (t.Goto? || t.CondBr?) && b in Succs(t)
    ensures d.blk == c.blk && d.idx == c.idx && d.slots == c.slots && d.st == c.st
    ensures ExecTerm(t, d) == Run(d.(blk := b, idx := 0))
  {
    d := c;
    if t.CondBr? {
      d := c.(regs := c.regs[t.cond := Num(if b == t.onTrue then 1 else 0)]);
    }
  }

  // ---- Running a sound graph ---------------------------------------------------------------------

  /** The run has come along the path, and has all the registers defined on it. */
  ghost predicate Along(f: seq<Block>, p: seq<BlockId>, c: Config) {
    && IsPath(f, p) && (forall i :: 0 <= i < |p| ==> p[i] < |f|) && c.blk == p[|p| - 1] && c.idx <= |f[c.blk].insts|
    && DefsAlong(f, p, |p| - 1) + Avail({}, f[c.blk].insts[..c.idx]) <= c.regs.Keys
  }

  ghost predicate HasUses(f: seq<Block>, c: Config) {
    && c.blk < |f| && c.idx <= |f[c.blk].insts|
    && (if c.idx < |f[c.blk].insts| then Uses(f[c.blk].insts[c.idx]) else TermUses(f[c.blk].term)) <= c.regs.Keys
  }

  lemma AlongHasUses(f: seq<Block>, p: seq<BlockId>, c: Config)
    requires DefinitionsFirst(f) && Along(f, p, c)
    ensures HasUses(f, c)
  {
    hide Avail, DefsAlong, Uses, TermUses;
    assert UsesDefined(f, p, c.idx);
  }

  lemma {:induction false} InstDefines(w: World, i: Inst, c: Config)
    ensures match ExecInst(w, i, c)
            case Run(d) => d.blk == c.blk && d.idx == c.idx + 1 && c.regs.Keys + DefSet(i) <= d.regs.Keys
            case _ => true
  {
    hide Invoke, BinaryOf, UnaryOf, ReadCell, WriteCell, ConstOf;
  }

  lemma StaysAlong(w: World, f: seq<Block>, p: seq<BlockId>, c: Config) returns (q: seq<BlockId>)
    requires JumpsInside(f) && Along(f, p, c)
    ensures Step(w, f, Run(c)).Run? ==> Along(f, q, Step(w, f, Run(c)).c)
  {
    hide ExecInst, ExecTerm, Uses, TermUses;
    q := p;
    var insts := f[c.blk].insts;
    if c.idx < |insts| {
      InstDefines(w, insts[c.idx], c);
      assert insts[..c.idx + 1][..c.idx] == insts[..c.idx];
    } else if ExecTerm(f[c.blk].term, c).Run? {
      JumpsToSuccessors(f[c.blk].term, c);
      var b := ExecTerm(f[c.blk].term, c).c.blk;
      q := p + [b];
      assert insts[..c.idx] == insts;
      PathGoesOn(f, p, b);
    }
  }

  lemma PathGoesOn(f: seq<Block>, p: seq<BlockId>, b: BlockId)
    requires IsPath(f, p) && (forall i :: 0 <= i < |p| ==> p[i] < |f|) && b in Succs(f[p[|p| - 1]].term) && b < |f|
    ensures var q := p + [b];
            && IsPath(f, q) && (forall i :: 0 <= i < |q| ==> q[i] < |f|)
            && DefsAlong(f, q, |p|) == DefsAlong(f, p, |p| - 1) + Avail({}, f[p[|p| - 1]].insts)
  {
    hide Succs, Avail;
    SamePrefix(f, p, p + [b], |p| - 1);
  }

  lemma {:induction false} SamePrefix(f: seq<Block>, p: seq<BlockId>, q: seq<BlockId>, n: nat)
    requires n <= |p| && p <= q && (forall i :: 0 <= i < |q| ==> q[i] < |f|)
    ensures DefsAlong(f, p, n) == DefsAlong(f, q, n)
    decreases n
  {
    hide Avail;
    if n > 0 {
      SamePrefix(f, p, q, n - 1);
    }
  }

  lemma {:induction false} AlwaysAlong(w: World, f: seq<Block>, p: seq<BlockId>, n: nat, c: Config) returns (q: seq<BlockId>)
    requires JumpsInside(f) && Along(f, p, c)
    ensures Steps(w, f, n, Run(c)).Run? ==> Along(f, q, Steps(w, f, n, Run(c)).c)
    decreases n
  {
    hide Step, Along, JumpsInside;
    q := p;
    if n > 0 {
      var p1 := StaysAlong(w, f, p, c);
      if Step(w, f, Run(c)).Run? {
        q := AlwaysAlong(w, f, p1, n - 1, Step(w, f, Run(c)).c);
      } else {
        DoneForever(w, f, n - 1, Step(w, f, Run(c)));
      }
    }
  }

  /** However long a lowered function has run, whatever was called: it stands in one of its
      blocks, and every register the next instruction or jump uses has a value. */
  lemma {:induction false} RunsHaveTheirRegisters(w: World, decls: seq<Decl>, body: seq<Stmt>, hasResult: bool, f: seq<Block>, n: nat, c: Config)
    requires WfSs(body, DeclNames(decls), false, false)
    requires IsSealing(Blocks(FunctionBody(decls, body)), f, !hasResult) && c.blk == ENTRY && c.idx == 0
    ensures match Steps(w, f, n, Run(c))
            case Run(d) => HasUses(f, d)
            case _ => true
  {
    hide WfSs, FunctionBody, IsSealing, JumpsInside, StaticSingleAssignment, DefinitionsFirst, Steps, HasUses;
    LoweredGraphIsSound(decls, body, hasResult, f);
    StartsAlong(decls, body, hasResult, f, c);
    var q := AlwaysAlong(w, f, [ENTRY], n, c);
    if Steps(w, f, n, Run(c)).Run? {
      AlongHasUses(f, q, Steps(w, f, n, Run(c)).c);
    }
  }

  lemma StartsAlong(decls: seq<Decl>, body: seq<Stmt>, hasResult: bool, f: seq<Block>, c: Config)
    requires IsSealing(Blocks(FunctionBody(decls, body)), f, !hasResult) && c.blk == ENTRY && c.idx == 0
    ensures Along(f, [ENTRY], c)
  {
    hide FunctionBody;
    assert |f| > 0;
  }
}
