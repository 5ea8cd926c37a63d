/** Closing what is still open at the end of an unfinished program. */
module Closers {
  import opened Ir

  type Text = seq<char>

  /** Tokens, as far as blocks are concerned: `Block` opens what END closes, without a name. */
  datatype Token = ModuleWord | ProcedureWord | Block | Repeat | End | Until | Ident(name: Text) | Dot | Other

  /** What closes an open block: END with a name (and a full stop for the outermost
      module), END alone, or UNTIL. */
  datatype Closer = EndNamed(name: Text, outermost: bool) | EndBlock | UntilTrue

  datatype Open = Open(stack: seq<Closer>, seenModule: bool)

  function IdentAt(toks: seq<Token>, i: nat): Option<Text> {
    if i < |toks| && toks[i].Ident? then Some(toks[i].name) else None
  }

  function Push(st: Open, c: Closer): Open { st.(stack := st.stack + [c]) }

  function OpenModule(toks: seq<Token>, i: nat, st: Open): Open {
    var name := if IdentAt(toks, i + 1).Some? then IdentAt(toks, i + 1).value else "M";
    Push(st, EndNamed(name, !st.seenModule)).(seenModule := true)
  }

  function DropLast(s: seq<Closer>): seq<Closer> {
    if s == [] then [] else s[..|s| - 1]
  }

  /** Without the innermost UNTIL, wherever it is; without the innermost block if there is none. */
  function DropUntil(s: seq<Closer>): seq<Closer> {
    match LastUntil(s)
    case Some(p) => s[..p] + s[p + 1..]
    case None => DropLast(s)
  }

  function LastUntil(s: seq<Closer>): (r: Option<nat>)
    ensures r.Some? ==> r.value < |s|
  {
    if s == [] then None
    else if s[|s| - 1].UntilTrue? then Some(|s| - 1)
    else LastUntil(s[..|s| - 1])
  }

  /** What token `i` opens or closes; closing is forgiving. */
  function Step(toks: seq<Token>, i: nat, st: Open): Open
    requires i < |toks|
  {
    match toks[i]
    case ModuleWord => OpenModule(toks, i, st)
    case ProcedureWord =>
      if IdentAt(toks, i + 1).Some? then Push(st, EndNamed(IdentAt(toks, i + 1).value, false)) else st
    case Block => Push(st, EndBlock)
    case Repeat => Push(st, UntilTrue)
    case End => st.(stack := DropLast(st.stack))
    case Until => st.(stack := DropUntil(st.stack))
    case _ => st
  }

  function After(toks: seq<Token>, n: nat): Open
    requires n <= |toks|
  {
    if n == 0 then Open([], false) else Step(toks, n - 1, After(toks, n - 1))
  }

  /** The closers of what is open at the end, innermost first. */
  method SynthesizeClosers(toks: seq<Token>) returns (out: seq<Closer>)
    ensures out == Reversed(After(toks, |toks|).stack)
  {
    var stack: seq<Closer> := [];
    var seenModule := false;
    for i := 0 to |toks|
      invariant Open(stack, seenModule) == After(toks, i)
    {
      match toks[i]
      case ModuleWord =>
        var found := IdentAt(toks, i + 1);
        var name := if found.Some? then found.value else "M";
        if seenModule {
          stack := stack + [EndNamed(name, false)];
        } else {
          stack := stack + [EndNamed(name, true)];
          seenModule := true;
        }
      case ProcedureWord =>
        var found := IdentAt(toks, i + 1);
        if found.Some? {
          stack := stack + [EndNamed(found.value, false)];
        }
      case Block => stack := stack + [EndBlock];
      case Repeat => stack := stack + [UntilTrue];
      case End => stack := DropLast(stack);
      case Until =>
        var p := LastUntil(stack);
        if p.Some? {
          stack := stack[..p.value] + stack[p.value + 1..];
        } else {
          stack := DropLast(stack);
        }
      case _ =>
    }
    out := [];
    var k := |stack|;
    assert stack[..k] == stack && [] + Reversed(stack) == Reversed(stack);
    while k > 0
      invariant 0 <= k <= |stack| && out + Reversed(stack[..k]) == Reversed(stack)
    {
      assert stack[..k][..k - 1] == stack[..k - 1];
      k := k - 1;
      out := out + [stack[k]];
    }
  }

  function Reversed(s: seq<Closer>): seq<Closer> {
    if s == [] then [] else [s[|s| - 1]] + Reversed(s[..|s| - 1])
  }

  // ---- Well-nested programs ------------------------------------------------------------------

  predicate DotAt(toks: seq<Token>, i: nat) {
    i < |toks| && toks[i] == Dot
  }

  predicate ClosesWith(toks: seq<Token>, i: nat, c: Closer) {
    match c
    case EndNamed(name, outermost) => IdentAt(toks, i + 1) == Some(name) && DotAt(toks, i + 2) == outermost
    case EndBlock => IdentAt(toks, i + 1).None?
    case UntilTrue => false
  }

  /** What the language allows: a module has a name, every block is closed by what closes
      it, and nothing is closed that is not open. */
  function StrictStep(toks: seq<Token>, i: nat, st: Open): Option<Open>
    requires i < |toks|
  {
    var n := |st.stack|;
    match toks[i]
    case ModuleWord => if IdentAt(toks, i + 1).Some? then Some(OpenModule(toks, i, st)) else None
    case End => if n > 0 && ClosesWith(toks, i, st.stack[n - 1]) then Some(Step(toks, i, st)) else None
    case Until => if n > 0 && st.stack[n - 1] == UntilTrue then Some(Step(toks, i, st)) else None
    case _ => Some(Step(toks, i, st))
  }

  function Strict(toks: seq<Token>, n: nat): Option<Open>
    requires n <= |toks|
  {
    if n == 0 then Some(Open([], false))
    else if Strict(toks, n - 1).None? then None
    else StrictStep(toks, n - 1, Strict(toks, n - 1).value)
  }

  predicate WellNested(toks: seq<Token>) {
    Strict(toks, |toks|).Some? && Strict(toks, |toks|).value.stack == []
  }

  /** On what the language allows, forgiveness is not needed. */
  lemma {:induction false} StrictIsAfter(toks: seq<Token>, n: nat)
    requires n <= |toks| && Strict(toks, n).Some?
    ensures After(toks, n) == Strict(toks, n).value
    decreases n
  {
    hide Step, ClosesWith;
    if n > 0 {
      StrictIsAfter(toks, n - 1);
      StepStrictly(toks, n - 1, After(toks, n - 1));
    }
  }

  lemma StepStrictly(toks: seq<Token>, i: nat, st: Open)
    requires i < |toks| && StrictStep(toks, i, st).Some?
    ensures Step(toks, i, st) == StrictStep(toks, i, st).value
  {
  }

  lemma StepSame(a: seq<Token>, b: seq<Token>, i: nat, st: Open)
    requires i < |a| && i < |b| && a[i] == b[i] && IdentAt(a, i + 1) == IdentAt(b, i + 1)
    requires a[i] == End && st.stack != [] && st.stack[|st.stack| - 1].EndNamed? ==> DotAt(a, i + 2) == DotAt(b, i + 2)
    ensures StrictStep(a, i, st) == StrictStep(b, i, st) && Step(a, i, st) == Step(b, i, st)
  {
  }

  lemma {:induction false} SameStart(a: seq<Token>, b: seq<Token>, k: nat, n: nat)
    requires k <= |a| && k <= |b| && a[..k] == b[..k] && n <= k
    ensures n + 1 <= k ==> After(a, n) == After(b, n)
    ensures n + 2 <= k ==> Strict(a, n) == Strict(b, n)
    decreases n
  {
    hide Step, StrictStep, IdentAt;
    if n > 0 {
      SameStart(a, b, k, n - 1);
      if n + 1 <= k {
        var i := n - 1;
        assert a[..k][i] == b[..k][i] && a[..k][i + 1] == b[..k][i + 1];
        SameIdent(a, b, i + 1);
        StepAfterSame(a, b, i, After(a, i));
        if n + 2 <= k && Strict(a, i).Some? {
          assert a[..k][i + 2] == b[..k][i + 2];
          StepSame(a, b, i, Strict(a, i).value);
        }
      }
    }
  }

  lemma SameIdent(a: seq<Token>, b: seq<Token>, i: nat)
    requires i < |a| && i < |b| && a[i] == b[i]
    ensures IdentAt(a, i) == IdentAt(b, i)
  {
  }

  lemma StepAfterSame(a: seq<Token>, b: seq<Token>, i: nat, st: Open)
    requires i < |a| && i < |b| && a[i] == b[i] && IdentAt(a, i + 1) == IdentAt(b, i + 1)
    ensures Step(a, i, st) == Step(b, i, st)
  {
  }

  // ---- The closers, as tokens -------------------------------------------------------------------

  function TokensOf(c: Closer): seq<Token> {
    match c
    case EndNamed(name, outermost) => [End, Ident(name), if outermost then Dot else Other]
    case EndBlock => [End, Other]
    case UntilTrue => [Until, Other, Other]
  }

  function Tokens(cs: seq<Closer>): seq<Token> {
    if cs == [] then [] else TokensOf(cs[0]) + Tokens(cs[1..])
  }

  function ClosersOf(toks: seq<Token>): seq<Closer> { Reversed(After(toks, |toks|).stack) }

  lemma TokensBegin(cs: seq<Closer>)
    ensures cs == [] ==> Tokens(cs) == []
    ensures cs != [] ==> Tokens(cs) != [] && (Tokens(cs)[0] == End || Tokens(cs)[0] == Until)
  {
  }

  lemma StrictSplit(toks: seq<Token>, n: nat, st: Open)
    requires n < |toks| && Strict(toks, n) == Some(st)
    ensures Strict(toks, n + 1) == StrictStep(toks, n, st)
  {
  }

  /** The tokens of one closer close the block on top. */
  lemma OneCloser(toks: seq<Token>, n: nat, st: Open, c: Closer, rest: seq<Token>)
    requires n <= |toks| && Strict(toks, n) == Some(st) && st.stack != [] && st.stack[|st.stack| - 1] == c
    requires toks[n..] == TokensOf(c) + rest
    ensures var m := n + |TokensOf(c)|; m <= |toks| && Strict(toks, m) == Some(st.(stack := DropLast(st.stack)))
  {
    hide Strict, ClosesWith;
    var t := toks[n..];
    assert forall i :: 0 <= i < |TokensOf(c)| ==> toks[n + i] == t[i] == TokensOf(c)[i];
    StrictSplit(toks, n, st);
    var st1 := st.(stack := DropLast(st.stack));
    FirstCloses(toks, n, st, c);
    StrictSplit(toks, n + 1, st1);
    if !c.EndBlock? {
      StrictSplit(toks, n + 2, st1);
    }
  }

  lemma FirstCloses(toks: seq<Token>, n: nat, st: Open, c: Closer)
    requires st.stack != [] && st.stack[|st.stack| - 1] == c && n + |TokensOf(c)| <= |toks|
    requires forall i :: 0 <= i < |TokensOf(c)| ==> toks[n + i] == TokensOf(c)[i]
    ensures StrictStep(toks, n, st) == Some(st.(stack := DropLast(st.stack)))
  {
    assert toks[n + 0] == TokensOf(c)[0];
    assert toks[n + 1] == TokensOf(c)[1];
    if c.EndNamed? {
      assert toks[n + 2] == TokensOf(c)[2];
    } else if c.UntilTrue? {
      assert LastUntil(st.stack) == Some(|st.stack| - 1);
      assert st.stack[..|st.stack| - 1] + st.stack[|st.stack|..] == st.stack[..|st.stack| - 1];
    }
  }

  lemma {:induction false} AllClose(toks: seq<Token>, n: nat, st: Open)
    requires n <= |toks| && Strict(toks, n) == Some(st) && toks[n..] == Tokens(Reversed(st.stack))
    ensures WellNested(toks)
    decreases |st.stack|
  {
    hide Strict, StrictStep, TokensOf;
    if st.stack != [] {
      var c := st.stack[|st.stack| - 1];
      var more := Reversed(DropLast(st.stack));
      assert Reversed(st.stack) == [c] + more && ([c] + more)[1..] == more;
      OneCloser(toks, n, st, c, Tokens(more));
      var m := n + |TokensOf(c)|;
      assert toks[m..] == toks[n..][|TokensOf(c)|..] == Tokens(more);
      AllClose(toks, m, st.(stack := DropLast(st.stack)));
    }
  }

  // ---- Where the text may end -------------------------------------------------------------------------

  predicate TopNamed(st: Open) {
    st.stack != [] && st.stack[|st.stack| - 1].EndNamed?
  }

  predicate TopOutermost(st: Open) {
    TopNamed(st) && st.stack[|st.stack| - 1].outermost
  }

  /** The text ends inside a pair or a triple that belongs together: MODULE without its
      name, END without the name it needs, or the last END and its name without the stop. */
  predicate CutShort(p: seq<Token>) {
    var k := |p|;
    || (k >= 1 && p[k - 1] == ModuleWord)
    || (k >= 1 && p[k - 1] == End && TopNamed(After(p, k - 1)))
    || (k >= 2 && p[k - 2] == End && TopOutermost(After(p, k - 2)))
  }

  /** Up to the last token but one, the completed text is read as the whole one. */
  lemma AlmostSame(p: seq<Token>, r: seq<Token>, c: seq<Token>)
    requires p != [] && Strict(p + r, |p| - 1).Some? && !DotAt(c, 0)
    requires |p| >= 2 ==> !(p[|p| - 2] == End && TopOutermost(After(p, |p| - 2)))
    ensures Strict(p + c, |p| - 1) == Strict(p + r, |p| - 1) == Some(After(p, |p| - 1))
  {
    hide Strict, Step, StrictStep, IdentAt, DotAt;
    var (a, b, k) := (p + r, p + c, |p|);
    SameStart(a, b, k, k - 1);
    SameStart(a, p, k, k - 1);
    StrictIsAfter(a, k - 1);
    if k >= 2 {
      StrictPrefix(a, k - 2, k - 1);
      StrictIsAfter(a, k - 2);
      SameStart(a, b, k, k - 2);
      SameStart(a, p, k, k - 2);
      var st := Strict(a, k - 2).value;
      StrictSplit(a, k - 2, st);
      StrictSplit(b, k - 2, st);
      SameIdent(a, b, k - 1);
      if a[k - 2] == End && TopNamed(st) {
        EndHasDot(a, k - 2, st);
        NoDot(p, c);
      }
      StepSame(a, b, k - 2, st);
    } else {
      StrictZero(a);
      StrictZero(b);
    }
  }

  lemma StrictZero(a: seq<Token>)
    ensures Strict(a, 0) == Some(Open([], false))
  {
  }

  lemma {:induction false} StrictPrefix(a: seq<Token>, m: nat, n: nat)
    requires m <= n <= |a| && Strict(a, n).Some?
    ensures Strict(a, m).Some?
    decreases n
  {
    hide StrictStep;
    if m < n {
      StrictPrefix(a, m, n - 1);
    }
  }

  lemma EndHasDot(a: seq<Token>, i: nat, st: Open)
    requires i < |a| && a[i] == End && TopNamed(st) && StrictStep(a, i, st).Some?
    ensures DotAt(a, i + 2) == TopOutermost(st)
  {
  }

  lemma NoDot(p: seq<Token>, c: seq<Token>)
    requires !DotAt(c, 0)
    ensures !DotAt(p + c, |p|)
  {
  }

  /** The last token, with the closers behind it. */
  lemma LastToken(p: seq<Token>, r: seq<Token>, c: seq<Token>, st: Open)
    requires p != [] && StrictStep(p + r, |p| - 1, st).Some?
    requires c == [] || c[0] == End || c[0] == Until
    ensures StrictStep(p + c, |p| - 1, st) ==
            if p[|p| - 1] == ModuleWord || (p[|p| - 1] == End && TopNamed(st)) then None else Some(Step(p, |p| - 1, st))
  {
    var (b, i) := (p + c, |p| - 1);
    assert b[i] == p[i] && (c != [] ==> b[i + 1] == c[0]);
    assert IdentAt(b, i + 1).None? && IdentAt(p, i + 1).None?;
  }

  /** Where a program that can be finished breaks off: it is finished by its closers
      exactly when it is not cut short inside a pair. */
  lemma ClosersFinishIff(p: seq<Token>, r: seq<Token>)
    requires WellNested(p + r)
    ensures WellNested(p + Tokens(ClosersOf(p))) <==> !CutShort(p)
  {
    hide Strict, Step, StrictStep, TopNamed, TopOutermost, After;
    var (k, c) := (|p|, Tokens(ClosersOf(p)));
    var (a, b) := (p + r, p + c);
    TokensBegin(ClosersOf(p));
    assert b[k..] == c;
    if k == 0 {
      StrictZero(b);
      StrictZero(p);
      StrictIsAfter(p, 0);
      AllClose(b, 0, Open([], false));
    } else {
      StrictPrefix(a, k - 1, |a|);
      StrictPrefix(a, k, |a|);
      if k >= 2 && p[k - 2] == End && TopOutermost(After(p, k - 2)) {
        CutBeforeDot(p, r, c);
      } else {
        AlmostSame(p, r, c);
        var st := After(p, k - 1);
        StrictSplit(a, k - 1, st);
        StrictSplit(b, k - 1, st);
        LastToken(p, r, c, st);
        AfterStep(p);
        if !CutShort(p) {
          AllClose(b, k, After(p, k));
        } else if WellNested(b) {
          StrictPrefix(b, k, |b|);
        }
      }
    }
  }

  lemma AfterStep(p: seq<Token>)
    requires p != []
    ensures After(p, |p|) == Step(p, |p| - 1, After(p, |p| - 1))
  {
  }

  lemma CutBeforeDot(p: seq<Token>, r: seq<Token>, c: seq<Token>)
    requires |p| >= 2 && p[|p| - 2] == End && TopOutermost(After(p, |p| - 2)) && WellNested(p + r)
    requires c == [] || c[0] == End || c[0] == Until
    ensures !WellNested(p + c)
  {
    hide Strict, Step, StrictStep, After;
    var (a, b, k) := (p + r, p + c, |p|);
    StrictPrefix(a, k - 2, |a|);
    StrictIsAfter(a, k - 2);
    SameStart(a, b, k, k - 2);
    SameStart(a, p, k, k - 2);
    if WellNested(b) {
      StrictPrefix(b, k - 1, |b|);
      StrictSplit(b, k - 2, After(p, k - 2));
      EndHasDot(b, k - 2, After(p, k - 2));
      NoDot(p, c);
    }
  }

  // ---- No fewer will do -----------------------------------------------------------------------------

  function Closings(toks: seq<Token>): nat {
    if toks == [] then 0 else (if toks[0] == End || toks[0] == Until then 1 else 0) + Closings(toks[1..])
  }

  lemma {:induction false} ClosingsOf(cs: seq<Closer>)
    ensures Closings(Tokens(cs)) == |cs|
    decreases |cs|
  {
    if cs != [] {
      ClosingsOf(cs[1..]);
      var t := Tokens(cs[1..]);
      ClosingsAppend(TokensOf(cs[0]), t);
      OneClosing(cs[0]);
    }
  }

  lemma OneClosing(c: Closer)
    ensures Closings(TokensOf(c)) == 1
  {
    var s := TokensOf(c);
    assert Closings(s[1..][1..]) == 0;
    assert Closings(s[1..]) == 0;
  }

  lemma {:induction false} ClosingsAppend(a: seq<Token>, b: seq<Token>)
    ensures Closings(a + b) == Closings(a) + Closings(b)
    decreases |a|
  {
    if a == [] {
      assert a + b == b;
    } else {
      assert (a + b)[1..] == a[1..] + b;
      ClosingsAppend(a[1..], b);
    }
  }

  /** Every token closes one block at most. */
  lemma {:induction false} EachClosesOne(toks: seq<Token>, n: nat)
    requires n <= |toks| && Strict(toks, |toks|).Some?
    ensures Strict(toks, n).Some? && |Strict(toks, n).value.stack| <= |Strict(toks, |toks|).value.stack| + Closings(toks[n..])
    decreases |toks| - n
  {
    hide StrictStep, Strict;
    StrictPrefix(toks, n, |toks|);
    if n < |toks| {
      EachClosesOne(toks, n + 1);
      var st := Strict(toks, n).value;
      StrictSplit(toks, n, st);
      StepClosesOne(toks, n, st);
      assert toks[n..][1..] == toks[n + 1..];
    }
  }

  lemma StepClosesOne(toks: seq<Token>, i: nat, st: Open)
    requires i < |toks| && StrictStep(toks, i, st).Some?
    ensures |StrictStep(toks, i, st).value.stack| + (if toks[i] == End || toks[i] == Until then 1 else 0) >= |st.stack|
  {
    assert st.stack != [] && st.stack[|st.stack| - 1] == UntilTrue ==> LastUntil(st.stack) == Some(|st.stack| - 1);
  }

  /** What the code believes is open at the end of a text is open, whatever follows. */
  lemma OpenIsOpen(p: seq<Token>, r: seq<Token>)
    requires Strict(p + r, |p|).Some?
    ensures |Strict(p + r, |p|).value.stack| >= |After(p, |p|).stack|
  {
    hide Strict, Step, StrictStep;
    var (a, k) := (p + r, |p|);
    if k > 0 {
      StrictPrefix(a, k - 1, k);
      StrictIsAfter(a, k - 1);
      SameStart(a, p, k, k - 1);
      var st := After(p, k - 1);
      StrictSplit(a, k - 1, st);
      LastOpens(a, p, k - 1, st);
    }
  }

  lemma LastOpens(a: seq<Token>, p: seq<Token>, i: nat, st: Open)
    requires i < |a| && i + 1 == |p| && a[i] == p[i] && StrictStep(a, i, st).Some?
    ensures |StrictStep(a, i, st).value.stack| >= |Step(p, i, st).stack|
  {
  }

  /** However a text is finished, it takes at least as many closings as there are closers. */
  lemma NoFewerClosers(p: seq<Token>, r: seq<Token>)
    requires WellNested(p + r)
    ensures Closings(Tokens(ClosersOf(p))) <= Closings(r)
  {
    hide Strict, After, Reversed, Tokens;
    var a := p + r;
    EachClosesOne(a, |p|);
    OpenIsOpen(p, r);
    ClosingsOf(ClosersOf(p));
    ReversedLength(After(p, |p|).stack);
    assert a[|p|..] == r;
  }

  lemma {:induction false} ReversedLength(s: seq<Closer>)
    ensures |Reversed(s)| == |s|
    decreases |s|
  {
    if s != [] {
      ReversedLength(s[..|s| - 1]);
    }
  }
}
