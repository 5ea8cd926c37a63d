/** Soundness of a control-flow graph: every jump has a block to go to, every
    register is defined once, and no path uses a register before its definition. */
module CfgSound {
  import opened Ir
  import opened Builder
  import opened LowerSpec

  function Uses(i: Inst): set<Reg> {
    match i
    case Const(_, _) => {}
    case Alloca(_, _) => {}
    case Load(_, p) => {p}
    case Store(p, v) => {p, v}
    case IndexPtr(_, p, x) => {p, x}
    case TypedPtr(_, v) => {v}
    case Unary(_, _, v) => {v}
    case Binary(_, _, x, y) => {x, y}
    case Call(_, f, args) => {f} + set r | r in args
  }

  function Def(i: Inst): Option<Reg> {
    match i
    case Store(_, _) => None
    case Call(res, _, _) => res
    case _ => Some(i.dst)
  }

  function TermUses(t: Terminator): set<Reg> {
    match t
    case CondBr(c, _, _) => {c}
    case Switch(v, _, _) => {v}
    case Return(Some(r)) => {r}
    case _ => {}
  }

  function Succs(t: Terminator): set<BlockId> {
    match t
    case Goto(b) => {b}
    case CondBr(_, x, y) => {x, y}
    case Switch(_, arms, d) => {d} + set k | 0 <= k < |arms| :: arms[k].1
    case _ => {}
  }

  // ---- Availability ---------------------------------------------------------------------

  function DefSet(i: Inst): set<Reg> {
    if Def(i).Some? then {Def(i).value} else {}
  }

  /** The registers available behind `insts` when those in `a` are in front. */
  function Avail(a: set<Reg>, insts: seq<Inst>): set<Reg> {
    if insts == [] then a else Avail(a, insts[..|insts| - 1]) + DefSet(insts[|insts| - 1])
  }

  ghost predicate InstsOk(a: set<Reg>, insts: seq<Inst>) {
    forall j :: 0 <= j < |insts| ==> Uses(insts[j]) <= Avail(a, insts[..j])
  }

  ghost predicate TermOk(av: seq<set<Reg>>, a: set<Reg>, t: Terminator) {
    && TermUses(t) <= a
    && forall s :: s in Succs(t) ==> s < |av| && av[s] <= a
  }

  ghost predicate BlockOk(av: seq<set<Reg>>, a: set<Reg>, b: Block) {
    InstsOk(a, b.insts) && TermOk(av, Avail(a, b.insts), b.term)
  }

  /** `av[k]` is available at the start of block `k`, whichever way it is reached. */
  ghost predicate Covered(f: seq<Block>, av: seq<set<Reg>>) {
    |av| == |f| && forall k :: 0 <= k < |f| ==> BlockOk(av, av[k], f[k])
  }

  // ---- Definitions, counted ------------------------------------------------------------------

  function DefsIn(insts: seq<Inst>): multiset<Reg> {
    if insts == [] then multiset{} else DefsIn(insts[..|insts| - 1]) + multiset(DefSet(insts[|insts| - 1]))
  }

  function AllDefs(f: seq<Block>): multiset<Reg> {
    if f == [] then multiset{} else AllDefs(f[..|f| - 1]) + DefsIn(f[|f| - 1].insts)
  }

  ghost predicate DefinedOnce(f: seq<Block>, limit: Reg) {
    forall r :: r in AllDefs(f) ==> r < limit && AllDefs(f)[r] == 1
  }

  /** An instruction more in block `k` is a definition more in all. */
  lemma {:induction false} DefsPush(f: seq<Block>, k: BlockId, i: Inst)
    requires k < |f|
    ensures AllDefs(f[k := f[k].(insts := f[k].insts + [i])]) == AllDefs(f) + multiset(DefSet(i))
    decreases |f|
  {
    var b := f[k].(insts := f[k].insts + [i]);
    var g := f[k := b];
    var front := f[..|f| - 1];
    if k == |f| - 1 {
      assert g[..|g| - 1] == front && b.insts[..|f[k].insts|] == f[k].insts;
    } else {
      hide DefsIn;
      assert g[..|g| - 1] == front[k := b] && g[|g| - 1] == f[|f| - 1];
      assert front[k] == f[k];
      DefsPush(front, k, i);
    }
  }

  lemma {:induction false} DefsSame(f: seq<Block>, g: seq<Block>)
    requires |f| == |g| && forall k :: 0 <= k < |f| ==> f[k].insts == g[k].insts
    ensures AllDefs(f) == AllDefs(g)
    decreases |f|
  {
    if f != [] {
      DefsSame(f[..|f| - 1], g[..|g| - 1]);
    }
  }

  lemma DefsBlock(f: seq<Block>)
    ensures AllDefs(f + [EMPTY_BLOCK]) == AllDefs(f)
  {
    assert (f + [EMPTY_BLOCK])[..|f|] == f;
  }

  /** A definition at position `j` of the instructions is counted. */
  lemma {:induction false} DefCounted(insts: seq<Inst>, j: nat)
    requires j < |insts| && Def(insts[j]).Some?
    ensures Def(insts[j]).value in DefsIn(insts)
    ensures forall i :: i < |insts| && i != j && i >= 0 && Def(insts[i]) == Def(insts[j]) ==> DefsIn(insts)[Def(insts[j]).value] >= 2
    decreases |insts|
  {
    var n := |insts| - 1;
    var front := insts[..n];
    if j < n {
      DefCounted(front, j);
      assert front[j] == insts[j];
    }
    forall i | 0 <= i < |insts| && i != j && Def(insts[i]) == Def(insts[j])
      ensures DefsIn(insts)[Def(insts[j]).value] >= 2
    {
      if i < n && j < n {
        assert front[i] == insts[i];
      } else if i < n {
        DefCounted(front, i);
        assert front[i] == insts[i];
      }
    }
  }

  lemma {:induction false} BlockCounted(f: seq<Block>, k: nat, r: Reg)
    requires k < |f|
    ensures AllDefs(f)[r] >= DefsIn(f[k].insts)[r]
    decreases |f|
  {
    if k < |f| - 1 {
      assert f[..|f| - 1][k] == f[k];
      BlockCounted(f[..|f| - 1], k, r);
    }
  }

  lemma {:induction false} BlocksCounted(f: seq<Block>, k: nat, i: nat, r: Reg)
    requires k < i < |f|
    ensures AllDefs(f)[r] >= DefsIn(f[k].insts)[r] + DefsIn(f[i].insts)[r]
    decreases |f|
  {
    var front := f[..|f| - 1];
    assert front[k] == f[k];
    if i < |f| - 1 {
      assert front[i] == f[i];
      BlocksCounted(front, k, i, r);
    } else {
      BlockCounted(front, k, r);
    }
  }

  /** Two instructions that define the same register are one and the same. */
  lemma OneDefinition(f: seq<Block>, limit: Reg, k: nat, j: nat, k1: nat, j1: nat)
    requires DefinedOnce(f, limit)
    requires k < |f| && j < |f[k].insts| && k1 < |f| && j1 < |f[k1].insts|
    requires Def(f[k].insts[j]).Some? && Def(f[k].insts[j]) == Def(f[k1].insts[j1])
    ensures k == k1 && j == j1 && Def(f[k].insts[j]).value < limit
  {
    var r := Def(f[k].insts[j]).value;
    DefCounted(f[k].insts, j);
    DefCounted(f[k1].insts, j1);
    BlockCounted(f, k, r);
    assert r in AllDefs(f);
    if k < k1 {
      BlocksCounted(f, k, k1, r);
    } else if k1 < k {
      BlocksCounted(f, k1, k, r);
    }
  }

  // ---- Paths -----------------------------------------------------------------------------------

  /** Blocks run through one after the other, from the entry on. */
  ghost predicate IsPath(f: seq<Block>, p: seq<BlockId>) {
    && p != [] && p[0] == ENTRY
    && (forall i :: 0 <= i < |p| ==> p[i] < |f|)
    && (forall i :: 0 <= i < |p| - 1 ==> p[i + 1] in Succs(f[p[i]].term))
  }

  /** What the blocks of a path in front of position `n` define. */
  function DefsAlong(f: seq<Block>, p: seq<BlockId>, n: nat): set<Reg>
    requires n <= |p| && forall i :: 0 <= i < |p| ==> p[i] < |f|
  {
    if n == 0 then {} else DefsAlong(f, p, n - 1) + Avail({}, f[p[n - 1]].insts)
  }

  lemma {:induction false} AvailSplits(a: set<Reg>, insts: seq<Inst>)
    ensures Avail(a, insts) == a + Avail({}, insts)
    decreases |insts|
  {
    if insts != [] {
      AvailSplits(a, insts[..|insts| - 1]);
    }
  }

  lemma {:induction false} PathCovers(f: seq<Block>, av: seq<set<Reg>>, p: seq<BlockId>, n: nat)
    requires Covered(f, av) && IsPath(f, p) && n < |p| && av[ENTRY] == {}
    ensures av[p[n]] <= DefsAlong(f, p, n)
  {
    if n > 0 {
      PathCovers(f, av, p, n - 1);
      var b := p[n - 1];
      assert BlockOk(av, av[b], f[b]);
      assert p[n - 1 + 1] in Succs(f[b].term);
      AvailSplits(av[b], f[b].insts);
    }
  }

  /** Whatever an instruction, or the jump, at the end of a path uses has been
      defined on that path. */
  lemma DefinedBeforeUse(f: seq<Block>, av: seq<set<Reg>>, p: seq<BlockId>, j: nat)
    requires Covered(f, av) && IsPath(f, p) && av[ENTRY] == {}
    requires j <= |f[p[|p| - 1]].insts|
    ensures var b := f[p[|p| - 1]];
            (if j < |b.insts| then Uses(b.insts[j]) else TermUses(b.term)) <= DefsAlong(f, p, |p| - 1) + Avail({}, b.insts[..j])
  {
    var k := p[|p| - 1];
    var b := f[k];
    PathCovers(f, av, p, |p| - 1);
    assert BlockOk(av, av[k], b);
    AvailSplits(av[k], b.insts[..j]);
    if j == |b.insts| {
      assert b.insts[..j] == b.insts;
    }
  }

  // ---- The builder's operations ------------------------------------------------------------------

  ghost predicate Sound(b: Low, av: seq<set<Reg>>) {
    Covered(Blocks(b), av) && DefinedOnce(Blocks(b), b.g.nextReg)
  }

  /** What is available to the next instruction of the active block. */
  function Here(b: Low, av: seq<set<Reg>>): set<Reg> {
    if b.g.current < |av| then Avail(av[b.g.current], Blocks(b)[b.g.current].insts) else {}
  }

  /** From `b` on to `b1`: still sound, nothing that was available is lost. */
  ghost predicate Leads(b: Low, av: seq<set<Reg>>, b1: Low, av1: seq<set<Reg>>) {
    Sound(b1, av1) && av <= av1 && !Closed(b1) && Here(b, av) <= Here(b1, av1)
  }

  lemma LeadsRefl(b: Low, av: seq<set<Reg>>)
    requires Sound(b, av) && !Closed(b)
    ensures Leads(b, av, b, av)
  {
  }

  lemma LeadsTrans(a: Low, av: seq<set<Reg>>, b: Low, av1: seq<set<Reg>>, c: Low, av2: seq<set<Reg>>)
    requires Leads(a, av, b, av1) && Leads(b, av1, c, av2)
    ensures Leads(a, av, c, av2)
  {
  }

  lemma SFresh(b: Low, av: seq<set<Reg>>)
    requires Sound(b, av)
    ensures Sound(LFresh(b), av) && Here(LFresh(b), av) == Here(b, av)
    ensures b.g.nextReg !in AllDefs(Blocks(b))
  {
  }

  function With(b: Block, i: Inst): Block {
    b.(insts := b.insts + [i])
  }

  lemma BlockPush(av: seq<set<Reg>>, a: set<Reg>, b: Block, i: Inst)
    requires BlockOk(av, a, b) && b.term.Unreachable? && Uses(i) <= Avail(a, b.insts)
    ensures BlockOk(av, a, With(b, i)) && Avail(a, With(b, i).insts) == Avail(a, b.insts) + DefSet(i)
  {
    hide Uses, DefSet;
    var c := With(b, i);
    assert c.insts[..|b.insts|] == b.insts;
    forall j | 0 <= j < |c.insts|
      ensures Uses(c.insts[j]) <= Avail(a, c.insts[..j])
    {
      if j < |b.insts| {
        assert c.insts[..j] == b.insts[..j] && c.insts[j] == b.insts[j];
      }
    }
  }

  lemma CoveredPush(f: seq<Block>, av: seq<set<Reg>>, k: BlockId, i: Inst)
    requires Covered(f, av) && k < |f| && f[k].term.Unreachable? && Uses(i) <= Avail(av[k], f[k].insts)
    ensures Covered(f[k := With(f[k], i)], av)
    ensures Avail(av[k], With(f[k], i).insts) == Avail(av[k], f[k].insts) + DefSet(i)
  {
    hide BlockOk, Avail, Uses, DefSet, With;
    BlockPush(av, av[k], f[k], i);
  }

  lemma OncePush(f: seq<Block>, limit: Reg, k: BlockId, i: Inst)
    requires DefinedOnce(f, limit) && k < |f|
    requires forall r :: r in DefSet(i) ==> r < limit && r !in AllDefs(f)
    ensures DefinedOnce(f[k := With(f[k], i)], limit)
    ensures AllDefs(f[k := With(f[k], i)]) == AllDefs(f) + multiset(DefSet(i))
  {
    DefsPush(f, k, i);
  }

  lemma SPush(b: Low, av: seq<set<Reg>>, i: Inst)
    requires Sound(b, av) && !Closed(b) && Uses(i) <= Here(b, av)
    requires forall r :: r in DefSet(i) ==> r < b.g.nextReg && r !in AllDefs(Blocks(b))
    ensures Leads(b, av, LPush(b, i), av) && Here(LPush(b, i), av) == Here(b, av) + DefSet(i)
    ensures AllDefs(Blocks(LPush(b, i))) == AllDefs(Blocks(b)) + multiset(DefSet(i))
  {
    hide AllDefs, Covered, DefinedOnce, Uses, DefSet, Avail;
    var k := b.g.current;
    assert Blocks(LPush(b, i)) == Blocks(b)[k := With(Blocks(b)[k], i)];
    CoveredLength(Blocks(b), av);
    CoveredPush(Blocks(b), av, k, i);
    OncePush(Blocks(b), b.g.nextReg, k, i);
  }

  lemma CoveredLength(f: seq<Block>, av: seq<set<Reg>>)
    requires Covered(f, av)
    ensures |av| == |f|
  {
  }

  lemma SIns(b: Low, av: seq<set<Reg>>, i: Inst)
    requires Sound(b, av) && !Closed(b) && Uses(i) <= Here(b, av) && Def(i) == Some(b.g.nextReg)
    ensures Leads(b, av, Ins(b, i), av) && b.g.nextReg in Here(Ins(b, i), av)
  {
    hide Sound, Here, Closed;
    SFresh(b, av);
    SameClosed(b, LFresh(b));
    SPush(LFresh(b), av, i);
  }

  lemma SameClosed(b: Low, b1: Low)
    requires b.g.current == b1.g.current && Blocks(b) == Blocks(b1)
    ensures Closed(b) == Closed(b1)
  {
  }

  lemma SEnd(b: Low, av: seq<set<Reg>>, t: Terminator)
    requires Sound(b, av) && !Closed(b) && TermOk(av, Here(b, av), t)
    ensures Sound(LEnd(b, t), av)
  {
    var k := b.g.current;
    var new_ := Blocks(b)[k].(term := t);
    assert Blocks(LEnd(b, t)) == Blocks(b)[k := new_];
    DefsSame(Blocks(b), Blocks(LEnd(b, t)));
    assert BlockOk(av, av[k], Blocks(b)[k]);
    assert BlockOk(av, av[k], new_);
  }

  /** A new block, with the registers `a` to be available in it. */
  lemma SBlock(b: Low, av: seq<set<Reg>>, a: set<Reg>)
    requires Sound(b, av)
    ensures Sound(LBlock(b), av + [a]) && Here(LBlock(b), av + [a]) == Here(b, av) && (Closed(LBlock(b)) <==> Closed(b))
  {
    hide BlockOk, Avail;
    var av1 := av + [a];
    DefsBlock(Blocks(b));
    forall k | 0 <= k < |av1|
      ensures BlockOk(av1, av1[k], Blocks(LBlock(b))[k])
    {
      if k < |av| {
        assert Blocks(LBlock(b))[k] == Blocks(b)[k];
        OkWithMore(av, a, av[k], Blocks(b)[k]);
      } else {
        EmptyOk(av1, a);
      }
    }
  }

  lemma OkWithMore(av: seq<set<Reg>>, more: set<Reg>, a: set<Reg>, b: Block)
    requires BlockOk(av, a, b)
    ensures BlockOk(av + [more], a, b)
  {
  }

  lemma EmptyOk(av: seq<set<Reg>>, a: set<Reg>)
    ensures BlockOk(av, a, EMPTY_BLOCK)
  {
  }

  /** On to a block that has nothing in it yet. */
  lemma SSwitch(b: Low, av: seq<set<Reg>>, id: BlockId)
    requires Sound(b, av) && id < |Blocks(b)| && Blocks(b)[id] == EMPTY_BLOCK
    ensures Sound(LSwitch(b, id), av) && Here(LSwitch(b, id), av) == av[id] && !Closed(LSwitch(b, id))
  {
  }
}
