/** Every function the lowering builds is a sound control-flow graph. */
module CfgTheorem {
  import opened Ir
  import opened Source
  import opened Builder
  import opened LowerSpec
  import opened LowerGrow
  import opened CfgSound
  import opened CfgExpr
  import opened CfgStmt
  import Preservation

  lemma StartIsSound()
    ensures Open(Low(Initial(), map[]), [{}, {}])
  {
    var f := Initial().blocks;
    var av: seq<set<Reg>> := [{}, {}];
    assert f[..1][..0] == [] && AllDefs(f) == multiset{} by {
      assert AllDefs(f[..1]) == AllDefs(f[..1][..0]) + DefsIn(f[0].insts);
    }
    forall k | 0 <= k < |f|
      ensures BlockOk(av, av[k], f[k])
    {
    }
  }

  lemma BodyIsSound(decls: seq<Decl>, body: seq<Stmt>) returns (av: seq<set<Reg>>)
    requires WfSs(body, DeclNames(decls), false, false)
    ensures Sound(FunctionBody(decls, body), av) && |av| >= 1 && av[ENTRY] == {}
  {
    hide Sound, Here, Closed, Stored, Prologue, Statements, WfSs, Ext;
    var b := Low(Initial(), map[]);
    var k := Ctx(None, None, None);
    StartIsSound();
    var av0: seq<set<Reg>> := [{}, {}];
    PrologueLeads(b, av0, decls);
    var b0 := Prologue(b, decls);
    Preservation.GrowsPrologue(b, decls);
    assert b0.locals.Keys == DeclNames(decls);
    av := StatementsCarry(b0, k, av0, body);
  }

  /** Sealing the blocks left open adds no use and no jump. */
  lemma SealedIsSound(b: Low, av: seq<set<Reg>>, f: seq<Block>, proper: bool)
    requires Sound(b, av) && IsSealing(Blocks(b), f, proper)
    ensures Covered(f, av) && DefinedOnce(f, b.g.nextReg)
  {
    hide BlockOk, AllDefs, Sealed;
    SameInsts(Blocks(b), f, proper);
    DefsSame(Blocks(b), f);
    forall k | 0 <= k < |f|
      ensures BlockOk(av, av[k], f[k])
    {
      SealedOk(av, av[k], Blocks(b)[k], proper);
    }
  }

  lemma SealedOk(av: seq<set<Reg>>, a: set<Reg>, b: Block, proper: bool)
    requires BlockOk(av, a, b)
    ensures BlockOk(av, a, Sealed(b, proper))
  {
  }

  lemma SameInsts(open: seq<Block>, f: seq<Block>, proper: bool)
    requires IsSealing(open, f, proper)
    ensures |open| == |f| && forall k :: 0 <= k < |f| ==> open[k].insts == f[k].insts
  {
  }

  /** Jumps go to blocks that exist. */
  ghost predicate JumpsInside(f: seq<Block>) {
    forall k, s :: 0 <= k < |f| && s in Succs(f[k].term) ==> s < |f|
  }

  /** No two instructions define the same register. */
  ghost predicate StaticSingleAssignment(f: seq<Block>) {
    forall k, j, k1, j1 ::
      0 <= k < |f| && 0 <= j < |f[k].insts| && 0 <= k1 < |f| && 0 <= j1 < |f[k1].insts|
      && Def(f[k].insts[j]).Some? && Def(f[k].insts[j]) == Def(f[k1].insts[j1])
      ==> k == k1 && j == j1
  }

  /** Behind any path from the entry, what the next instruction (or the jump) of
      the last block uses has been defined on the way. */
  ghost predicate DefinitionsFirst(f: seq<Block>) {
    forall p, j :: IsPath(f, p) && 0 <= j <= |f[p[|p| - 1]].insts| ==> UsesDefined(f, p, j)
  }

  ghost predicate UsesDefined(f: seq<Block>, p: seq<BlockId>, j: nat)
    requires IsPath(f, p) && j <= |f[p[|p| - 1]].insts|
  {
    var b := f[p[|p| - 1]];
    (if j < |b.insts| then Uses(b.insts[j]) else TermUses(b.term)) <= DefsAlong(f, p, |p| - 1) + Avail({}, b.insts[..j])
  }

  lemma LoweredGraphIsSound(decls: seq<Decl>, body: seq<Stmt>, hasResult: bool, f: seq<Block>)
    requires WfSs(body, DeclNames(decls), false, false)
    requires IsSealing(Blocks(FunctionBody(decls, body)), f, !hasResult)
    ensures JumpsInside(f) && StaticSingleAssignment(f) && DefinitionsFirst(f)
  {
    hide WfSs, FunctionBody, IsSealing, Sound, JumpsInside, StaticSingleAssignment, DefinitionsFirst;
    var av := BodyIsSound(decls, body);
    SealedGraph(FunctionBody(decls, body), av, f, !hasResult);
  }

  /** What soundness means for the finished function. */
  lemma SealedGraph(b: Low, av: seq<set<Reg>>, f: seq<Block>, proper: bool)
    requires Sound(b, av) && |av| >= 1 && av[ENTRY] == {} && IsSealing(Blocks(b), f, proper)
    ensures JumpsInside(f) && StaticSingleAssignment(f) && DefinitionsFirst(f)
  {
    hide IsSealing, Covered, DefinedOnce;
    SealedIsSound(b, av, f, proper);
    CoveredJumps(f, av);
    forall k, j, k1, j1 |
      0 <= k < |f| && 0 <= j < |f[k].insts| && 0 <= k1 < |f| && 0 <= j1 < |f[k1].insts|
      && Def(f[k].insts[j]).Some? && Def(f[k].insts[j]) == Def(f[k1].insts[j1])
      ensures k == k1 && j == j1
    {
      OneDefinition(f, b.g.nextReg, k, j, k1, j1);
    }
    forall p, j | IsPath(f, p) && 0 <= j <= |f[p[|p| - 1]].insts|
      ensures UsesDefined(f, p, j)
    {
      DefinedBeforeUse(f, av, p, j);
    }
  }

  lemma CoveredJumps(f: seq<Block>, av: seq<set<Reg>>)
    requires Covered(f, av)
    ensures JumpsInside(f)
  {
    forall k, s | 0 <= k < |f| && s in Succs(f[k].term)
      ensures s < |f|
    {
      assert BlockOk(av, av[k], f[k]);
    }
  }
}
