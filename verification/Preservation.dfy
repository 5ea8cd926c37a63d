/** The lowering preserves meaning: a finished function, run from its entry block,
    ends exactly as the statements it was lowered from end, or runs forever when
    they do. */
module Preservation {
  import opened Ir
  import opened Machine
  import opened Source
  import opened Builder
  import opened LowerSpec
  import opened LowerGrow
  import opened Running
  import StmtMeaning

  // ---- The prologue -------------------------------------------------------------------------

  /** The slots of indirect parameters hold the addresses the caller passed. */
  ghost predicate Passed(w: World, decls: seq<Decl>, first: Reg, c: Config) {
    forall i :: 0 <= i < |decls| && decls[i].indirect ==>
      first + i in c.slots && c.slots[first + i] == CellAddr(Loc(w.env(decls[i].name), 0))
  }

  lemma {:induction false} GrowsPrologue(b: Low, decls: seq<Decl>)
    ensures Ext(Blocks(b), Blocks(Prologue(b, decls))) && Prologue(b, decls).g.loops == b.g.loops
    ensures !Closed(b) ==> !Closed(Prologue(b, decls))
    ensures Prologue(b, decls).locals.Keys == b.locals.Keys + DeclNames(decls)
    decreases |decls|
  {
    hide Ext;
    ExtRefl(Blocks(b));
    if decls != [] {
      var d := decls[0];
      var b1 := Declared(b, d);
      GrowsRefl(b);
      GIns(b, b, Alloca(b.g.nextReg, if d.indirect then None else Some(d.name)));
      GrowsPrologue(b1, decls[1..]);
      ExtTrans(Blocks(b), Blocks(b1), Blocks(Prologue(b, decls)));
      assert decls == [d] + decls[1..];
      assert DeclNames(decls) == {d.name} + DeclNames(decls[1..]);
    }
  }

  /** A variable of its own is where the frame has a cell for it; a name that is not
      declared is the module's. Of the place of an indirect parameter nothing is known. */
  ghost predicate Placed(w: World, decls: seq<Decl>) {
    && (forall d :: d in decls && !d.indirect ==> w.home(d.name) == w.env(d.name))
    && (forall x :: x !in DeclNames(decls) ==> w.global(x) == w.env(x))
  }

  lemma DeclaredMeaning(w: World, f: seq<Block>, b: Low, x: Decl, c: Config) returns (d: Config)
    requires !x.indirect ==> w.home(x.name) == w.env(x.name)
    requires !Closed(b) && At(c, b) && Bound(w, b, c) && Ext(Blocks(Declared(b, x)), f)
    requires x.indirect ==> b.g.nextReg in c.slots && c.slots[b.g.nextReg] == CellAddr(Loc(w.env(x.name), 0))
    ensures Reach(w, f, 0, Run(c), Run(d)) && At(d, Declared(b, x)) && d.st == c.st && d.slots == c.slots
    ensures Bound(w, Declared(b, x), d) && !Closed(Declared(b, x))
  {
    hide Ext, Reach, Ins;
    var r := b.g.nextReg;
    var i := Alloca(r, if x.indirect then None else Some(x.name));
    var v := if x.indirect then SlotAddr(r) else CellAddr(Loc(w.env(x.name), 0));
    d := InsStep(w, f, b, i, c, v);
  }

  lemma {:induction false} PrologueMeaning(w: World, f: seq<Block>, b: Low, decls: seq<Decl>, c: Config) returns (d: Config)
    requires forall d :: d in decls && !d.indirect ==> w.home(d.name) == w.env(d.name)
    requires !Closed(b) && At(c, b) && Bound(w, b, c) && Passed(w, decls, b.g.nextReg, c) && Ext(Blocks(Prologue(b, decls)), f)
    ensures Reach(w, f, 0, Run(c), Run(d)) && At(d, Prologue(b, decls)) && d.st == c.st && Bound(w, Prologue(b, decls), d)
    ensures !Closed(Prologue(b, decls))
    decreases |decls|
  {
    hide Ext, Reach, Bound, At, Closed;
    if decls == [] {
      ReachRefl(w, f, Run(c));
      d := c;
    } else {
      var b1 := Declared(b, decls[0]);
      assert Prologue(b, decls) == Prologue(b1, decls[1..]);
      GrowsPrologue(b1, decls[1..]);
      ExtTrans(Blocks(b1), Blocks(Prologue(b, decls)), f);
      var r := b.g.nextReg;
      assert decls[0].indirect ==> r + 0 in c.slots && c.slots[r + 0] == CellAddr(Loc(w.env(decls[0].name), 0));
      var c1 := DeclaredMeaning(w, f, b, decls[0], c);
      PassedTail(w, decls, r, c, c1);
      d := PrologueMeaning(w, f, b1, decls[1..], c1);
      ReachTrans(w, f, 0, 0, Run(c), Run(c1), Run(d));
    }
  }

  lemma PassedTail(w: World, decls: seq<Decl>, r: Reg, c: Config, c1: Config)
    requires decls != [] && Passed(w, decls, r, c) && c1.slots == c.slots
    ensures Passed(w, decls[1..], r + 1, c1)
  {
    var rest := decls[1..];
    forall i | 0 <= i < |rest| && rest[i].indirect
      ensures r + 1 + i in c1.slots && c1.slots[r + 1 + i] == CellAddr(Loc(w.env(rest[i].name), 0))
    {
      assert rest[i] == decls[i + 1];
      assert r + (i + 1) in c.slots;
    }
  }

  // ---- The theorem -----------------------------------------------------------------------------

  /** An ordinary function: nothing to free, no shared result. */
  ghost predicate Plain(w: World) {
    w.frame.None? && w.resultCell.None?
  }

  /** The finished function: the lowered body with its open blocks sealed. */
  ghost predicate Finished(decls: seq<Decl>, body: seq<Stmt>, hasResult: bool, f: seq<Block>) {
    IsSealing(Blocks(FunctionBody(decls, body)), f, !hasResult)
  }

  ghost predicate Entry(w: World, decls: seq<Decl>, c: Config, st: State) {
    c.blk == ENTRY && c.idx == 0 && c.st == st && Passed(w, decls, 0, c) && Placed(w, decls)
  }

  lemma SealingExtends(open: seq<Block>, f: seq<Block>, proper: bool)
    requires IsSealing(open, f, proper)
    ensures Ext(open, f)
  {
  }

  /** How a run of the machine matches what the statements mean with `fuel` rounds. */
  ghost predicate Matches(w: World, f: seq<Block>, c: Config, hasResult: bool, fuel: nat, r: Res) {
    match r.o
    case Leaves(v) => Reach(w, f, 0, Run(c), Done(Result(v), r.st))
    case Ended => Reach(w, f, 0, Run(c), Done(Aborted, r.st))
    case Normal => Reach(w, f, 0, Run(c), if hasResult then Stuck else Done(Result(None), r.st))
    case Timeout => exists d: Config :: Reach(w, f, fuel, Run(c), Run(d)) && d.st == r.st
    case _ => false
  }

  lemma LoweringPreservesMeaning(w: World, decls: seq<Decl>, body: seq<Stmt>, hasResult: bool, f: seq<Block>, c: Config, fuel: nat)
    requires WfSs(body, DeclNames(decls), false, false) && Plain(w)
    requires Finished(decls, body, hasResult, f) && Entry(w, decls, c, c.st)
    ensures Matches(w, f, c, hasResult, fuel, ExecAll(w, body, fuel, c.st))
  {
    hide Ext, Reach, Statements, Prologue, ExecAll, WfSs;
    var b := Low(Initial(), map[]);
    var k := Ctx(None, None, None);
    var b0 := Prologue(b, decls);
    var b1 := Statements(b0, k, body);
    SealingExtends(Blocks(b1), f, !hasResult);
    GrowsPrologue(b, decls);
    GrowsStatements(b0, k, body);
    ExtBack(b0, b1, f);
    var c0 := PrologueMeaning(w, f, b, decls, c);
    assert b0.locals.Keys == DeclNames(decls);
    var d := StmtMeaning.StatementsMeaning(w, f, k, b0, body, fuel, c0);
    var r := ExecAll(w, body, fuel, c.st);
    match r.o
    case Leaves(v) => ReachTrans(w, f, 0, 0, Run(c), Run(c0), Done(Result(v), r.st));
    case Ended => ReachTrans(w, f, 0, 0, Run(c), Run(c0), Done(Aborted, r.st));
    case Timeout => ReachTrans(w, f, 0, fuel, Run(c), Run(c0), Run(d));
    case Normal =>
      ReachTrans(w, f, 0, 0, Run(c), Run(c0), Run(d));
      FallOff(w, f, b1, hasResult, c, d);
    case Exited =>
    case Retried =>
  }

  /** At the end of the last open block: a return, or the trap behind a function
      that never returned a value. */
  lemma FallOff(w: World, f: seq<Block>, b: Low, hasResult: bool, c: Config, d: Config)
    requires IsSealing(Blocks(b), f, !hasResult) && !Closed(b) && At(d, b) && Reach(w, f, 0, Run(c), Run(d))
    ensures Reach(w, f, 0, Run(c), if hasResult then Stuck else Done(Result(None), d.st))
  {
    var e := if hasResult then Stuck else Done(Result(None), d.st);
    assert f[d.blk] == Sealed(Blocks(b)[d.blk], !hasResult);
    assert Step(w, f, Run(d)) == e;
    ReachStep(w, f, Run(d));
    ReachTrans(w, f, 0, 1, Run(c), Run(d), e);
  }

  /** The other direction: when the machine stops after `n` steps, the statements
      end within n + 1 rounds, and the machine stopped as they say. */
  lemma StoppedRunIsMeant(w: World, decls: seq<Decl>, body: seq<Stmt>, hasResult: bool, f: seq<Block>, c: Config, n: nat)
    requires WfSs(body, DeclNames(decls), false, false) && Plain(w)
    requires Finished(decls, body, hasResult, f) && Entry(w, decls, c, c.st)
    requires !Steps(w, f, n, Run(c)).Run?
    ensures var r := ExecAll(w, body, n + 1, c.st);
            && !r.o.Timeout?
            && Steps(w, f, n, Run(c)) == (match r.o
                                          case Leaves(v) => Done(Result(v), r.st)
                                          case Normal => if hasResult then Stuck else Done(Result(None), r.st)
                                          case _ => Done(Aborted, r.st))
  {
    hide Steps, ExecAll, WfSs;
    LoweringPreservesMeaning(w, decls, body, hasResult, f, c, n + 1);
    var r := ExecAll(w, body, n + 1, c.st);
    match r.o
    case Timeout =>
      var d: Config :| Reach(w, f, n + 1, Run(c), Run(d)) && d.st == r.st;
      var m: nat :| m >= n + 1 && Steps(w, f, m, Run(c)) == Run(d);
      EndIsUnique(w, f, n, m, Run(c));
      assert false;
    case Leaves(v) =>
      var m: nat :| m >= 0 && Steps(w, f, m, Run(c)) == Done(Result(v), r.st);
      EndIsUnique(w, f, n, m, Run(c));
    case Ended =>
      var m: nat :| m >= 0 && Steps(w, f, m, Run(c)) == Done(Aborted, r.st);
      EndIsUnique(w, f, n, m, Run(c));
    case Normal =>
      var m: nat :| m >= 0 && Steps(w, f, m, Run(c)) == if hasResult then Stuck else Done(Result(None), r.st);
      EndIsUnique(w, f, n, m, Run(c));
  }

  ghost predicate RunsForever(w: World, f: seq<Block>, c: Config) {
    forall n: nat :: Steps(w, f, n, Run(c)).Run?
  }

  lemma MatchedRunStops(w: World, f: seq<Block>, c: Config, hasResult: bool, fuel: nat, r: Res)
    requires Matches(w, f, c, hasResult, fuel, r) && !r.o.Timeout?
    ensures !RunsForever(w, f, c)
  {
    hide Steps;
    match r.o
    case Leaves(v) => assert exists n: nat :: n >= 0 && Steps(w, f, n, Run(c)) == Done(Result(v), r.st);
    case Ended => assert exists n: nat :: n >= 0 && Steps(w, f, n, Run(c)) == Done(Aborted, r.st);
    case Normal => assert exists n: nat :: n >= 0 && Steps(w, f, n, Run(c)) == if hasResult then Stuck else Done(Result(None), r.st);
  }

  /** However many rounds are allowed, the statements have not ended. */
  ghost predicate Endless(w: World, body: seq<Stmt>, st: State) {
    forall fuel: nat :: ExecAll(w, body, fuel, st).o.Timeout?
  }

  lemma DivergenceAgrees(w: World, decls: seq<Decl>, body: seq<Stmt>, hasResult: bool, f: seq<Block>, c: Config)
    requires WfSs(body, DeclNames(decls), false, false) && Plain(w)
    requires Finished(decls, body, hasResult, f) && Entry(w, decls, c, c.st)
    ensures RunsForever(w, f, c) <==> Endless(w, body, c.st)
  {
    hide Steps, ExecAll, WfSs, Matches;
    if RunsForever(w, f, c) {
      forall fuel: nat
        ensures ExecAll(w, body, fuel, c.st).o.Timeout?
      {
        LoweringPreservesMeaning(w, decls, body, hasResult, f, c, fuel);
        if !ExecAll(w, body, fuel, c.st).o.Timeout? {
          MatchedRunStops(w, f, c, hasResult, fuel, ExecAll(w, body, fuel, c.st));
        }
      }
    }
    if Endless(w, body, c.st) {
      forall n: nat
        ensures Steps(w, f, n, Run(c)).Run?
      {
        if !Steps(w, f, n, Run(c)).Run? {
          StoppedRunIsMeant(w, decls, body, hasResult, f, c, n);
        }
      }
    }
  }
}
