/** What is open at the end of an unfinished program, told by its grammar: blocks that are
    whole leave nothing behind, and each that is not is closed by what closes its kind. */
module OpenBlocks {
  import opened Ir
  import opened Closers

  /** Parts of a program that are whole. */
  datatype Piece =
    | Plain(t: Token)
    | ProcedureType
    | Body(inner: seq<Piece>)
    | Until(inner: seq<Piece>)
    | Procedure(name: Text, inner: seq<Piece>)
    | Module(name: Text, inner: seq<Piece>)

  ghost predicate WfPiece(p: Piece)
    decreases p
  {
    match p
    case Plain(t) => t == Other || t == Dot || t.Ident?
    case ProcedureType => true
    case _ => forall q :: q in p.inner ==> WfPiece(q)
  }

  function Spell(p: Piece): seq<Token>
    decreases p
  {
    match p
    case Plain(t) => [t]
    case ProcedureType => [ProcedureWord, Other]
    case Body(inner) => [Token.Block] + (SpellAll(inner) + [End])
    case Until(inner) => [Token.Repeat] + (SpellAll(inner) + [Token.Until])
    case Procedure(name, inner) => [ProcedureWord, Ident(name)] + (SpellAll(inner) + [End, Ident(name)])
    case Module(name, inner) => [ModuleWord, Ident(name)] + (SpellAll(inner) + [End, Ident(name)])
  }

  function SpellAll(ps: seq<Piece>): seq<Token>
    decreases ps
  {
    if ps == [] then [] else Spell(ps[0]) + SpellAll(ps[1..])
  }

  predicate HasModule(p: Piece)
    decreases p
  {
    match p
    case Plain(_) => false
    case ProcedureType => false
    case Module(_, _) => true
    case _ => HaveModule(p.inner)
  }

  predicate HaveModule(ps: seq<Piece>)
    decreases ps
  {
    ps != [] && (HasModule(ps[0]) || HaveModule(ps[1..]))
  }

  /** The text has these tokens from place `n` on. */
  ghost predicate Has(toks: seq<Token>, n: nat, part: seq<Token>) {
    n + |part| <= |toks| && forall i :: 0 <= i < |part| ==> toks[n + i] == part[i]
  }

  lemma HasSplit(toks: seq<Token>, n: nat, a: seq<Token>, b: seq<Token>)
    requires Has(toks, n, a + b)
    ensures Has(toks, n, a) && Has(toks, n + |a|, b)
  {
    forall i | 0 <= i < |a|
      ensures toks[n + i] == a[i]
    {
      assert (a + b)[i] == a[i];
    }
    forall i | 0 <= i < |b|
      ensures toks[n + |a| + i] == b[i]
    {
      assert (a + b)[|a| + i] == b[i];
    }
  }

  lemma OneToken(toks: seq<Token>, n: nat, t: Token)
    requires Has(toks, n, [t])
    ensures n < |toks| && toks[n] == t && After(toks, n + 1) == Step(toks, n, After(toks, n))
  {
    hide Step;
    assert toks[n + 0] == [t][0];
  }

  lemma TwoTokens(toks: seq<Token>, n: nat, t: Token, u: Token)
    requires Has(toks, n, [t, u])
    ensures n + 1 < |toks| && toks[n] == t && toks[n + 1] == u
    ensures After(toks, n + 2) == Step(toks, n + 1, Step(toks, n, After(toks, n)))
  {
    hide Step;
    assert [t, u] == [t] + [u];
    HasSplit(toks, n, [t], [u]);
    OneToken(toks, n, t);
    OneToken(toks, n + 1, u);
  }

  /** Where whole blocks have been read, the same ones are open as before. */
  ghost predicate Same(st: Open, st2: Open, withModule: bool) {
    st2 == Open(st.stack, st.seenModule || withModule)
  }

  lemma Ending(toks: seq<Token>, i: nat, st: Open, c: Closer)
    requires i < |toks| && (if c.UntilTrue? then toks[i] == Token.Until else toks[i] == End)
    ensures Step(toks, i, Push(st, c)) == st
  {
    var s := st.stack + [c];
    assert s[..|s| - 1] == st.stack;
    if c.UntilTrue? {
      assert LastUntil(s) == Some(|s| - 1);
      assert s[..|s| - 1] + s[|s|..] == st.stack;
    }
  }

  lemma {:induction false} PiecesLeaveNothing(toks: seq<Token>, n: nat, ps: seq<Piece>)
    requires Has(toks, n, SpellAll(ps)) && forall p :: p in ps ==> WfPiece(p)
    ensures Same(After(toks, n), After(toks, n + |SpellAll(ps)|), HaveModule(ps))
    decreases ps
  {
    hide After, Step, Spell, WfPiece, HasModule, Has;
    if ps != [] {
      assert ps[0] in ps;
      HasSplit(toks, n, Spell(ps[0]), SpellAll(ps[1..]));
      HasInside(toks, n, SpellAll(ps));
      PieceLeavesNothing(toks, n, ps[0]);
      PiecesLeaveNothing(toks, n + |Spell(ps[0])|, ps[1..]);
    }
  }

  lemma HasInside(toks: seq<Token>, n: nat, part: seq<Token>)
    requires Has(toks, n, part)
    ensures n + |part| <= |toks|
  {
  }

  lemma {:induction false} PieceLeavesNothing(toks: seq<Token>, n: nat, p: Piece)
    requires Has(toks, n, Spell(p)) && WfPiece(p)
    ensures n + |Spell(p)| <= |toks| && Same(After(toks, n), After(toks, n + |Spell(p)|), HasModule(p))
    decreases p
  {
    hide After, SpellAll, HaveModule, Has;
    HasInside(toks, n, Spell(p));
    match p
    case Plain(t) => OneToken(toks, n, t);
    case ProcedureType => TwoTokens(toks, n, ProcedureWord, Other);
    case _ =>
      var (head, tail) := (Head(p), Tail(p));
      var (m, body) := (n + |head|, SpellAll(p.inner));
      assert Spell(p) == head + (body + tail);
      HasSplit(toks, n, head, body + tail);
      HasSplit(toks, m, body, tail);
      HeadOpens(toks, n, p);
      HasInside(toks, m, body);
      PiecesLeaveNothing(toks, m, p.inner);
      TailCloses(toks, n, m + |body|, p);
  }

  function Head(p: Piece): seq<Token>
    requires !p.Plain? && !p.ProcedureType?
  {
    match p
    case Body(_) => [Token.Block]
    case Until(_) => [Token.Repeat]
    case Procedure(name, _) => [ProcedureWord, Ident(name)]
    case Module(name, _) => [ModuleWord, Ident(name)]
  }

  function Tail(p: Piece): seq<Token>
    requires !p.Plain? && !p.ProcedureType?
  {
    match p
    case Body(_) => [End]
    case Until(_) => [Token.Until]
    case Procedure(name, _) => [End, Ident(name)]
    case Module(name, _) => [End, Ident(name)]
  }

  /** What closes a block of this kind: the first module's END has a full stop. */
  function CloserOf(p: Piece, seenModule: bool): Closer
    requires !p.Plain? && !p.ProcedureType?
  {
    match p
    case Body(_) => EndBlock
    case Until(_) => UntilTrue
    case Procedure(name, _) => EndNamed(name, false)
    case Module(name, _) => EndNamed(name, !seenModule)
  }

  lemma HeadOpens(toks: seq<Token>, n: nat, p: Piece)
    requires !p.Plain? && !p.ProcedureType? && Has(toks, n, Head(p))
    ensures var st := After(toks, n);
            n + |Head(p)| <= |toks| && After(toks, n + |Head(p)|) == Open(st.stack + [CloserOf(p, st.seenModule)], st.seenModule || p.Module?)
  {
    hide After, Has;
    match p
    case Body(_) => OneToken(toks, n, Token.Block);
    case Until(_) => OneToken(toks, n, Token.Repeat);
    case Procedure(name, _) => TwoTokens(toks, n, ProcedureWord, Ident(name));
    case Module(name, _) => TwoTokens(toks, n, ModuleWord, Ident(name));
  }

  lemma TailCloses(toks: seq<Token>, n: nat, k: nat, p: Piece)
    requires !p.Plain? && !p.ProcedureType? && n <= |toks| && Has(toks, k, Tail(p)) && k <= |toks|
    requires After(toks, k).stack == After(toks, n).stack + [CloserOf(p, After(toks, n).seenModule)]
    ensures k + |Tail(p)| <= |toks| && After(toks, k + |Tail(p)|) == Open(After(toks, n).stack, After(toks, k).seenModule)
  {
    hide After, Has;
    var st := Open(After(toks, n).stack, After(toks, k).seenModule);
    var c := CloserOf(p, After(toks, n).seenModule);
    assert After(toks, k) == Push(st, c);
    match p
    case Body(_) =>
      OneToken(toks, k, End);
      Ending(toks, k, st, c);
    case Until(_) =>
      OneToken(toks, k, Token.Until);
      Ending(toks, k, st, c);
    case Procedure(name, _) =>
      TwoTokens(toks, k, End, Ident(name));
      Ending(toks, k, st, c);
    case Module(name, _) =>
      TwoTokens(toks, k, End, Ident(name));
      Ending(toks, k, st, c);
  }

  // ---- Unfinished programs --------------------------------------------------------------------

  /** Blocks that have begun and not ended, one in the other, each with what is in it so far. */
  function SpellOpen(ps: seq<Piece>): seq<Token>
    requires forall p :: p in ps ==> !p.Plain? && !p.ProcedureType?
  {
    if ps == [] then [] else SpellOpen(ps[..|ps| - 1]) + (Head(ps[|ps| - 1]) + SpellAll(ps[|ps| - 1].inner))
  }

  /** Their closers, outermost first; a module is the outermost one if there is none before it. */
  function OpenClosers(ps: seq<Piece>): seq<Closer>
    requires forall p :: p in ps ==> !p.Plain? && !p.ProcedureType?
  {
    if ps == [] then [] else OpenClosers(ps[..|ps| - 1]) + [CloserOf(ps[|ps| - 1], HaveModule(ps[..|ps| - 1]))]
  }

  lemma {:induction false} ModuleSoFar(ps: seq<Piece>, p: Piece)
    ensures HaveModule(ps + [p]) <==> HaveModule(ps) || HasModule(p)
  {
    hide HasModule;
    if ps == [] {
      assert (ps + [p])[1..] == [];
    } else {
      assert (ps + [p])[1..] == ps[1..] + [p];
      ModuleSoFar(ps[1..], p);
    }
  }

  lemma {:induction false} OpenBlocksAreOpen(ps: seq<Piece>, toks: seq<Token>)
    requires forall p :: p in ps ==> !p.Plain? && !p.ProcedureType? && WfPiece(p)
    requires Has(toks, 0, SpellOpen(ps))
    ensures |SpellOpen(ps)| <= |toks| && After(toks, |SpellOpen(ps)|) == Open(OpenClosers(ps), HaveModule(ps))
    decreases |ps|
  {
    hide After, Head, SpellAll, HasModule, Has, CloserOf;
    HasInside(toks, 0, SpellOpen(ps));
    if ps == [] {
      Nothing(toks);
    } else {
      var (init, p) := (ps[..|ps| - 1], ps[|ps| - 1]);
      assert forall q :: q in init ==> q in ps;
      assert p in ps && ps == init + [p];
      var before := SpellOpen(init);
      var (head, body) := (Head(p), SpellAll(p.inner));
      HasSplit(toks, 0, before, head + body);
      HasSplit(toks, |before|, head, body);
      OpenBlocksAreOpen(init, toks);
      HeadOpens(toks, |before|, p);
      HasInside(toks, |before| + |head|, body);
      InnerWf(p);
      PiecesLeaveNothing(toks, |before| + |head|, p.inner);
      ModuleSoFar(init, p);
      ModuleOf(p);
    }
  }

  lemma Nothing(toks: seq<Token>)
    ensures After(toks, 0) == Open([], false)
  {
  }

  lemma InnerWf(p: Piece)
    requires WfPiece(p) && !p.Plain? && !p.ProcedureType?
    ensures forall q :: q in p.inner ==> WfPiece(q)
  {
  }

  lemma ModuleOf(p: Piece)
    requires !p.Plain? && !p.ProcedureType?
    ensures HasModule(p) <==> p.Module? || HaveModule(p.inner)
  {
  }

  lemma {:induction false} ReversedAt(s: seq<Closer>, k: nat)
    requires k < |s|
    ensures |Reversed(s)| == |s| && Reversed(s)[k] == s[|s| - 1 - k]
    decreases |s|
  {
    if |s| > 1 {
      ReversedAt(s[..|s| - 1], if k > 0 then k - 1 else 0);
    }
  }

  /** An unfinished program is closed by what closes the blocks it has open, the innermost
      first. */
  method CloseProgram(ps: seq<Piece>) returns (out: seq<Closer>)
    requires forall p :: p in ps ==> !p.Plain? && !p.ProcedureType? && WfPiece(p)
    ensures |out| == |OpenClosers(ps)| && forall k :: 0 <= k < |out| ==> out[k] == OpenClosers(ps)[|out| - 1 - k]
  {
    hide After, OpenClosers, SpellOpen, WfPiece, Reversed;
    var toks := SpellOpen(ps);
    out := SynthesizeClosers(toks);
    assert Has(toks, 0, SpellOpen(ps));
    OpenBlocksAreOpen(ps, toks);
    var s := OpenClosers(ps);
    forall k | 0 <= k < |s|
      ensures |Reversed(s)| == |s| && Reversed(s)[k] == s[|s| - 1 - k]
    {
      ReversedAt(s, k);
    }
    NothingReversed();
    if s != [] {
      ReversedAt(s, 0);
    }
  }

  lemma NothingReversed()
    ensures Reversed([]) == []
  {
  }
}
