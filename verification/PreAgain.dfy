/** Conditional compilation done twice, and the way past it for sources without a
    percent sign. */
module PreAgain {
  import opened Ir
  import opened Directive
  import opened PreSpec
  import opened PreTree
  import opened PreLayout

  ghost predicate AllPlain(items: seq<Item>) {
    forall item :: item in items ==> item.Plain?
  }

  /** Nothing in the text is for the preprocessor. */
  ghost predicate Clean(s: Text) {
    Lex(s).Some? && AllPlain(Lex(s).value)
  }

  lemma {:induction false} PlainIsVerbatim(items: seq<Item>, st: State)
    requires AllPlain(items) && st.stack == []
    ensures RunAll(items, st).Some? && RunAll(items, st).value.out == st.out + ItemBytes(items)
    ensures RunAll(items, st).value.stack == []
    decreases |items|
  {
    hide ApplyAll;
    if items != [] {
      var st1 := RunItem(items[0], st).value;
      PlainIsVerbatim(items[1..], st1);
      assert st.out + items[0].s + ItemBytes(items[1..]) == st.out + (items[0].s + ItemBytes(items[1..]));
    } else {
      assert st.out + [] == st.out;
    }
  }

  lemma CleanIsKept(s: Text, env: Env)
    requires Clean(s)
    ensures FullPass(s, env) == Some(s)
  {
    hide Lex, RunAll;
    RunsItems(s, Start(env));
    LexIsLossless(s);
    PlainIsVerbatim(Lex(s).value, Start(env));
    assert [] + s == s;
  }

  // ---- No percent sign ---------------------------------------------------------------------

  lemma {:induction false} NoPercentIsPlain(s: Text)
    requires '%' !in s && Lex(s).Some?
    ensures Clean(s)
    decreases |s|
  {
    hide CommentLen, LineLen, StringLen, PragmaLen, DirectiveItem;
    if s != [] {
      var item := First(s).value;
      var rest := s[|item.s|..];
      assert '%' !in rest by {
        forall i | 0 <= i < |rest|
          ensures rest[i] != '%'
        {
          assert rest[i] == s[|item.s| + i];
        }
      }
      NoPercentIsPlain(rest);
      assert Lex(s).value == [item] + Lex(rest).value;
    }
  }

  lemma LexFailsRunFails(s: Text, env: Env)
    ensures Lex(s).None? ==> FullPass(s, env).None?
  {
    hide Lex, RunFrom;
    RunsItems(s, Start(env));
  }

  /** The short way returns what the full pass returns exactly when comments, strings
      and pragmas are all closed. */
  lemma ShortWayIsRightIff(src: Text, env: Env)
    requires '%' !in src
    ensures Preprocess(src, env) == FullPass(src, env) <==> Lex(src).Some?
    ensures FullPass(src, env).Some? ==> Preprocess(src, env) == FullPass(src, env)
  {
    hide Lex, FullPass;
    if Lex(src).Some? {
      NoPercentIsPlain(src);
      CleanIsKept(src, env);
    } else {
      LexFailsRunFails(src, env);
    }
  }

  /** A comment that is never closed passes the short way only. */
  lemma ShortWayTakesOpenComment(env: Env)
    ensures Preprocess("(*", env) == Some("(*") && FullPass("(*", env).None?
  {
    assert "(*"[2..] == [];
    assert CommentLen([], 1).None?;
    assert First("(*").None?;
    LexFailsRunFails("(*", env);
  }

  // ---- What a scan decides, it decides inside the item -----------------------------------------

  ghost predicate EndsComment(s: Text) {
    |s| >= 2 && s[|s| - 2] == '*' && s[|s| - 1] == ')'
  }

  /** The close of the comment is the tail of an opening pragma bracket as well. */
  ghost predicate Tangled(s: Text) {
    |s| >= 3 && s[|s| - 3] == '<' && EndsComment(s)
  }

  lemma {:induction false} ClosesLocal(b: Text, r1: Text, r2: Text)
    requires EndsComment(b)
    ensures ClosesFirst(b + r1) == ClosesFirst(b + r2)
    decreases |b|
  {
    if |b| > 2 {
      assert (b + r1)[1..] == b[1..] + r1 && (b + r2)[1..] == b[1..] + r2;
      ClosesLocal(b[1..], r1, r2);
    }
  }

  lemma {:induction false} PragmaLocal(b: Text, r1: Text, r2: Text)
    requires PragmaLen(b + r1).Some? && PragmaLen(b + r1).value + 2 <= |b|
    ensures PragmaLen(b + r2) == PragmaLen(b + r1)
    decreases |b|
  {
    if !Two(b + r1, '*', '>') {
      assert (b + r1)[1..] == b[1..] + r1 && (b + r2)[1..] == b[1..] + r2;
      PragmaLocal(b[1..], r1, r2);
    }
  }

  lemma {:induction false} StringLocal(b: Text, q: char, r1: Text, r2: Text)
    requires StringLen(b + r1, q) == Some(|b|)
    ensures StringLen(b + r2, q) == Some(|b|)
    decreases |b|
  {
    if b[0] != q {
      assert (b + r1)[1..] == b[1..] + r1 && (b + r2)[1..] == b[1..] + r2;
      StringLocal(b[1..], q, r1, r2);
    }
  }

  lemma {:induction false} LineLocal(b: Text, r1: Text, r2: Text)
    requires LineLen(b + r1) == |b| && (r1 == [] ==> r2 == [])
    ensures LineLen(b + r2) == |b|
    decreases |b|
  {
    if b != [] {
      assert (b + r1)[1..] == b[1..] + r1 && (b + r2)[1..] == b[1..] + r2;
      if b[0] != '\n' {
        LineLocal(b[1..], r1, r2);
      }
    }
  }

  lemma {:induction false} CommentEnds(s: Text, depth: nat)
    requires depth > 0 && CommentLen(s, depth).Some?
    ensures EndsComment(s[..CommentLen(s, depth).value.len])
    decreases |s|
  {
    hide PragmaLen, ClosesFirst;
    var n := CommentLen(s, depth).value.len;
    var skip :=
      if Two(s, '(', '*') || Two(s, '*', ')') then 2
      else if Two(s, '<', '*') && ClosesFirst(s[2..]) then PragmaLen(s[2..]).value + 4
      else 1;
    var deeper := if Two(s, '(', '*') then depth + 1 else if Two(s, '*', ')') then depth - 1 else depth;
    CommentSkips(s, depth, skip, deeper);
    if deeper > 0 {
      CommentEnds(s[skip..], deeper);
      assert s[..n][skip..] == s[skip..][..n - skip];
    } else {
      assert CommentLen(s[skip..], 0).value.len == 0;
    }
  }

  lemma CommentSkips(s: Text, depth: nat, skip: nat, deeper: nat)
    requires depth > 0 && CommentLen(s, depth).Some?
    requires skip == (
      if Two(s, '(', '*') || Two(s, '*', ')') then 2
      else if Two(s, '<', '*') && ClosesFirst(s[2..]) then PragmaLen(s[2..]).value + 4
      else 1)
    requires deeper == if Two(s, '(', '*') then depth + 1 else if Two(s, '*', ')') then depth - 1 else depth
    ensures skip <= |s| && CommentLen(s[skip..], deeper).Some?
    ensures CommentLen(s, depth).value.len == skip + CommentLen(s[skip..], deeper).value.len
  {
    hide PragmaLen, ClosesFirst;
    if Two(s, '<', '*') && ClosesFirst(s[2..]) {
      assert s[2..][PragmaLen(s[2..]).value + 2..] == s[skip..];
    }
  }

  /** One step into a comment is the same step whatever follows the comment. */
  lemma SameStep(b: Text, r1: Text, r2: Text)
    requires EndsComment(b) && (Tangled(b) ==> !ClosesFirst(")" + r1) && !ClosesFirst(")" + r2))
    requires Two(b + r1, '<', '*') && ClosesFirst((b + r1)[2..]) ==> PragmaLen((b + r1)[2..]).Some? && PragmaLen((b + r1)[2..]).value + 4 <= |b|
    ensures forall c: char, d: char :: Two(b + r2, c, d) == Two(b + r1, c, d)
    ensures Two(b, '<', '*') ==> ClosesFirst((b + r2)[2..]) == ClosesFirst((b + r1)[2..])
    ensures Two(b, '<', '*') && ClosesFirst((b + r1)[2..]) ==> PragmaLen((b + r2)[2..]) == PragmaLen((b + r1)[2..])
  {
    hide ClosesFirst, PragmaLen;
    assert (b + r1)[2..] == b[2..] + r1 && (b + r2)[2..] == b[2..] + r2;
    if Two(b, '<', '*') && |b| == 3 {
      assert b[2..] == ")";
    } else if Two(b, '<', '*') {
      ClosesLocal(b[2..], r1, r2);
      if ClosesFirst((b + r1)[2..]) {
        PragmaLocal(b[2..], r1, r2);
      }
    }
  }

  lemma {:induction false} CommentLocal(b: Text, depth: nat, r1: Text, r2: Text)
    requires CommentLen(b + r1, depth).Some? && CommentLen(b + r1, depth).value.len == |b|
    requires Tangled(b) ==> !ClosesFirst(")" + r2)
    ensures CommentLen(b + r2, depth).Some? && CommentLen(b + r2, depth).value.len == |b|
    decreases |b|
  {
    hide PragmaLen, ClosesFirst, CommentLen;
    if depth == 0 {
      NoCommentLeft(b + r1);
      NoCommentLeft(b + r2);
    } else {
      var s := b + r1;
      CommentEnds(s, depth);
      assert s[..|b|] == b;
      PragmaIsClosed(s, depth);
      if Tangled(b) {
        TangledLooksAhead(b, depth, r1);
      }
      var skip := if Two(s, '(', '*') || Two(s, '*', ')') then 2 else if Two(s, '<', '*') && ClosesFirst(s[2..]) then PragmaLen(s[2..]).value + 4 else 1;
      var deeper := if Two(s, '(', '*') then depth + 1 else if Two(s, '*', ')') then depth - 1 else depth;
      CommentSkips(s, depth, skip, deeper);
      SameStep(b, r1, r2);
      assert s[skip..] == b[skip..] + r1 && (b + r2)[skip..] == b[skip..] + r2;
      CommentLocal(b[skip..], deeper, r1, r2);
      CommentStep(b + r2, depth, skip, deeper);
    }
  }

  lemma {:induction false} PragmaEnds(s: Text)
    requires PragmaLen(s).Some?
    ensures var n := PragmaLen(s).value; s[n] == '*' && s[n + 1] == '>'
    decreases |s|
  {
    if !Two(s, '*', '>') {
      PragmaEnds(s[1..]);
    }
  }

  /** A comment whose close is the tail of an opening pragma bracket ends there only if no
      pragma's close comes behind before a comment's. */
  lemma {:induction false} TangledLooksAhead(b: Text, depth: nat, r: Text)
    requires Tangled(b) && CommentLen(b + r, depth).Some? && CommentLen(b + r, depth).value.len == |b|
    ensures !ClosesFirst(")" + r)
    decreases |b|
  {
    hide PragmaLen, ClosesFirst, CommentLen;
    var s := b + r;
    if depth == 0 {
      NoCommentLeft(s);
    } else {
      PragmaIsClosed(s, depth);
      var skip := if Two(s, '(', '*') || Two(s, '*', ')') then 2 else if Two(s, '<', '*') && ClosesFirst(s[2..]) then PragmaLen(s[2..]).value + 4 else 1;
      var deeper := if Two(s, '(', '*') then depth + 1 else if Two(s, '*', ')') then depth - 1 else depth;
      CommentSkips(s, depth, skip, deeper);
      NoCommentLeft(s[skip..]);
      if |b| == 3 {
        assert s[2..] == ")" + r;
      } else {
        if Two(s, '<', '*') && ClosesFirst(s[2..]) {
          PragmaEnds(s[2..]);
        }
        assert s[skip..] == b[skip..] + r;
        TangledLooksAhead(b[skip..], deeper, r);
      }
    }
  }

  lemma PragmaIsClosed(s: Text, depth: nat)
    requires depth > 0 && CommentLen(s, depth).Some?
    ensures Two(s, '<', '*') && ClosesFirst(s[2..]) ==> PragmaLen(s[2..]).Some?
  {
    hide PragmaLen, ClosesFirst;
  }

  lemma NoCommentLeft(s: Text)
    ensures CommentLen(s, 0) == Some(Comment(0, []))
  {
  }

  lemma CommentStep(s: Text, depth: nat, skip: nat, deeper: nat)
    requires depth > 0 && s != [] && skip <= |s|
    requires Two(s, '<', '*') && ClosesFirst(s[2..]) ==> PragmaLen(s[2..]).Some?
    requires skip == (
      if Two(s, '(', '*') || Two(s, '*', ')') then 2
      else if Two(s, '<', '*') && ClosesFirst(s[2..]) then PragmaLen(s[2..]).value + 4
      else 1)
    requires deeper == if Two(s, '(', '*') then depth + 1 else if Two(s, '*', ')') then depth - 1 else depth
    requires CommentLen(s[skip..], deeper).Some?
    ensures CommentLen(s, depth).Some? && CommentLen(s, depth).value.len == skip + CommentLen(s[skip..], deeper).value.len
  {
    hide PragmaLen, ClosesFirst;
    if Two(s, '<', '*') && ClosesFirst(s[2..]) {
      assert s[2..][PragmaLen(s[2..]).value + 2..] == s[skip..];
    }
  }

  // ---- Doing it again -----------------------------------------------------------------------------

  /** `t` may stand where `s` stood: it begins as `s` does, or blank. */
  ghost predicate Fits(s: Text, t: Text) {
    |t| == |s| && (s != [] ==> t[0] == s[0] || t[0] == ' ' || t[0] == '\n')
  }

  /** A shown token is read again as it was, with fitting text behind it. */
  lemma PlainAgain(s: Text, t: Text)
    requires s != [] && First(s).Some? && First(s).value.Plain?
    requires Two(s, '(', '*') && Tangled(First(s).value.s) ==> !ClosesFirst(")" + t)
    requires Fits(s[|First(s).value.s|..], t)
    ensures var item := First(s).value;
            && First(item.s + t).Some? && First(item.s + t).value.Plain? && First(item.s + t).value.s == item.s
  {
    hide CommentLen, LineLen, StringLen, PragmaLen, ClosesFirst, DirectiveItem;
    var b := First(s).value.s;
    var r := s[|b|..];
    assert s == b + r;
    PlainKind(s);
    hide First;
    if Two(s, '(', '*') {
      CommentAgain(b, r, t);
    } else if Two(s, '/', '/') {
      LineAgain(b, r, t);
    } else if s[0] == '"' || s[0] == '\'' {
      StringAgain(b, r, t);
    } else if Two(s, '<', '*') {
      PragmaAgain(b, r, t);
    } else {
      SingleAgain(s, t);
    }
  }

  lemma PlainKind(s: Text)
    requires s != [] && First(s).Some? && First(s).value.Plain?
    ensures s[0] != '%'
    ensures Two(s, '(', '*') || Two(s, '/', '/') || Two(s, '<', '*') || s[0] == '"' || s[0] == '\'' || First(s) == Some(Plain(s[..1], []))
  {
    hide CommentLen, LineLen, StringLen, PragmaLen;
  }

  lemma CommentAgain(b: Text, r: Text, t: Text)
    requires Two(b + r, '(', '*') && First(b + r).Some? && First(b + r).value.s == b
    requires Tangled(b) ==> !ClosesFirst(")" + t)
    ensures First(b + t).Some? && First(b + t).value.Plain? && First(b + t).value.s == b
  {
    hide CommentLen;
    assert |b| >= 2;
    assert (b + r)[2..] == b[2..] + r && (b + t)[2..] == b[2..] + t;
    CommentLocal(b[2..], 1, r, t);
    assert (b + t)[..|b|] == b;
  }

  /** A comment is read again as it was, whatever comes behind, if and only if its close is
      no tail of an opening pragma bracket, or no pragma's close comes first behind it. */
  lemma CommentAgainIff(b: Text, r: Text, t: Text)
    requires Two(b + r, '(', '*') && First(b + r).Some? && First(b + r).value.s == b
    ensures First(b + t).Some? && First(b + t).value.s == b <==> (Tangled(b) ==> !ClosesFirst(")" + t))
  {
    hide CommentLen, ClosesFirst, PragmaLen, StringLen, LineLen, DirectiveItem;
    if Tangled(b) ==> !ClosesFirst(")" + t) {
      CommentAgain(b, r, t);
    } else if First(b + t).Some? && First(b + t).value.s == b {
      assert (b + t)[2..] == b[2..] + t && b[0] == '(' && b[1] == '*';
      TangledLooksAhead(b[2..], 1, t);
      assert false;
    }
  }

  lemma StringAgain(b: Text, r: Text, t: Text)
    requires b + r != [] && ((b + r)[0] == '"' || (b + r)[0] == '\'') && First(b + r).Some? && First(b + r).value.s == b
    ensures First(b + t).Some? && First(b + t).value.Plain? && First(b + t).value.s == b
  {
    hide CommentLen, LineLen, StringLen, PragmaLen, DirectiveItem;
    assert (b + r)[1..] == b[1..] + r && (b + t)[1..] == b[1..] + t;
    StringLocal(b[1..], b[0], r, t);
    assert (b + t)[..|b|] == b;
  }

  lemma PragmaAgain(b: Text, r: Text, t: Text)
    requires Two(b + r, '<', '*') && First(b + r).Some? && First(b + r).value.s == b
    ensures First(b + t).Some? && First(b + t).value.Plain? && First(b + t).value.s == b
  {
    hide CommentLen, LineLen, StringLen, PragmaLen, DirectiveItem;
    assert (b + r)[2..] == b[2..] + r && (b + t)[2..] == b[2..] + t;
    PragmaLocal(b[2..], r, t);
    assert (b + t)[..|b|] == b;
  }

  lemma LineAgain(b: Text, r: Text, t: Text)
    requires Two(b + r, '/', '/') && First(b + r).Some? && First(b + r).value.s == b && Fits(r, t)
    ensures First(b + t).Some? && First(b + t).value.Plain? && First(b + t).value.s == b
  {
    hide CommentLen, StringLen, PragmaLen, DirectiveItem;
    assert |b| >= 2 by {
      assert (b + r)[1..][0] == '/';
    }
    LineLocal(b, r, t);
    assert (b + t)[..|b|] == b;
  }

  lemma SingleAgain(s: Text, t: Text)
    requires s != [] && First(s) == Some(Plain(s[..1], []))
    requires !Two(s, '(', '*') && !Two(s, '/', '/') && s[0] != '"' && s[0] != '\'' && !Two(s, '<', '*') && s[0] != '%'
    requires Fits(s[1..], t)
    ensures First(s[..1] + t) == Some(Plain(s[..1], []))
  {
    hide CommentLen, LineLen, StringLen, PragmaLen, ClosesFirst, DirectiveItem;
    var u := s[..1] + t;
    assert u[..1] == s[..1];
    if |s| >= 2 {
      assert s[1..][0] == s[1] && u[1] == t[0];
    }
  }

  lemma CleanJoin(b: Text, t: Text)
    requires b + t != [] && First(b + t).Some? && First(b + t).value.Plain? && First(b + t).value.s == b && Clean(t)
    ensures Clean(b + t)
  {
    hide First;
    assert (b + t)[|b|..] == t;
    assert Lex(b + t).value == [First(b + t).value] + Lex(t).value;
  }

  lemma {:induction false} BlankIsClean(b: Text, t: Text)
    requires Clean(t)
    ensures Clean(Blank(b) + t)
    decreases |b|
  {
    hide Lex, Clean;
    if b == [] {
      assert Blank(b) + t == t;
    } else {
      BlankIsClean(b[1..], t);
      var rest := Blank(b[1..]) + t;
      var c := [BlankOf(b[0])];
      assert Blank(b) + t == c + rest;
      BlankChar(c, rest);
      CleanJoin(c, rest);
    }
  }

  lemma BlankChar(c: Text, rest: Text)
    requires c == " " || c == "\n"
    ensures First(c + rest) == Some(Plain(c, []))
  {
    assert (c + rest)[..1] == c;
  }

  ghost predicate Untangled(items: seq<Item>) {
    forall item :: item in items && item.Plain? && Two(item.s, '(', '*') ==> !Tangled(item.s)
  }

  /** What running the items adds to the output. */
  function Added(items: seq<Item>, st: State): Text
    requires RunAll(items, st).Some?
  {
    var out := RunAll(items, st).value.out;
    if |st.out| <= |out| then out[|st.out|..] else []
  }

  /** Every comment that is shown is read again as it was, before what is shown behind. */
  ghost predicate Steady(items: seq<Item>, st: State)
    requires RunAll(items, st).Some?
    decreases |items|
  {
    items == [] || (
      var (item, st1) := (items[0], RunItem(items[0], st).value);
      && (item.Plain? && Active(st.stack) && Two(item.s, '(', '*') && Tangled(item.s) ==> !ClosesFirst(")" + Added(items[1..], st1)))
      && Steady(items[1..], st1))
  }

  lemma {:induction false} UntangledIsSteady(items: seq<Item>, st: State)
    requires RunAll(items, st).Some? && Untangled(items)
    ensures Steady(items, st)
    decreases |items|
  {
    hide RunItem, Tangled, ClosesFirst, Active, Added;
    if items != [] {
      assert items[0] in items;
      assert forall other :: other in items[1..] ==> other in items;
      UntangledIsSteady(items[1..], RunItem(items[0], st).value);
    }
  }

  /** The items of a source without its first one. */
  lemma LexMore(src: Text)
    requires src != [] && Lex(src).Some?
    ensures First(src).Some? && |First(src).value.s| <= |src|
    ensures var item := First(src).value;
            var rest := Lex(src[|item.s|..]);
            rest.Some? && Lex(src).value != [] && Lex(src).value[0] == item && Lex(src).value[1..] == rest.value
  {
    hide First;
    assert Lex(src).value == [First(src).value] + Lex(src[|First(src).value.s|..]).value;
  }

  lemma {:induction false} RunIsClean(src: Text, st: State) returns (tail: Text)
    requires Lex(src).Some? && RunAll(Lex(src).value, st).Some? && Steady(Lex(src).value, st)
    ensures RunAll(Lex(src).value, st).value.out == st.out + tail && Clean(tail) && Fits(src, tail)
    decreases |src|
  {
    hide First, Clean, Lex, RunItem, Active, Tangled, Two, ClosesFirst;
    if src == [] {
      LexNothing();
      tail := [];
      assert Clean([]) by { NothingIsClean(); }
    } else {
      LexMore(src);
      var item := First(src).value;
      var more := src[|item.s|..];
      RunMore(Lex(src).value, st);
      var st1 := RunItem(item, st).value;
      var rest := RunIsClean(more, st1);
      AddedIs(Lex(more).value, st1, rest);
      PieceOf(item, st);
      var live := item.Plain? && Active(st.stack);
      tail := Show(live, item.s) + rest;
      assert st.out + Show(live, item.s) + rest == st.out + tail;
      if live {
        ShownIsClean(src, item, rest);
      } else {
        BlankIsClean(item.s, rest);
      }
    }
  }

  lemma AddedIs(items: seq<Item>, st: State, tail: Text)
    requires RunAll(items, st).Some? && RunAll(items, st).value.out == st.out + tail
    ensures Added(items, st) == tail
  {
  }

  lemma RunMore(items: seq<Item>, st: State)
    requires items != [] && RunAll(items, st).Some?
    ensures RunItem(items[0], st).Some? && RunAll(items, st) == RunAll(items[1..], RunItem(items[0], st).value)
  {
  }

  lemma LexNothing()
    ensures Lex([]) == Some([])
  {
  }

  lemma NothingIsClean()
    ensures Clean([])
  {
  }

  lemma ShownIsClean(src: Text, item: Item, rest: Text)
    requires src != [] && First(src) == Some(item) && item.Plain? && (Two(item.s, '(', '*') && Tangled(item.s) ==> !ClosesFirst(")" + rest))
    requires Fits(src[|item.s|..], rest) && Clean(rest)
    ensures Clean(item.s + rest)
  {
    hide Clean, Fits;
    assert Two(src, '(', '*') ==> Two(item.s, '(', '*');
    PlainAgain(src, rest);
    CleanJoin(item.s, rest);
  }

  /** Once is enough when every comment that is shown is read again as it was: doing it
      again changes nothing, whatever the second environment. */
  lemma SteadyIsIdempotent(src: Text, env: Env, env2: Env)
    requires Preprocess(src, env).Some?
    requires Lex(src).Some? && RunAll(Lex(src).value, Start(env)).Some? ==> Steady(Lex(src).value, Start(env))
    ensures Preprocess(Preprocess(src, env).value, env2) == Preprocess(src, env)
  {
    hide Lex, RunAll, Clean, Steady;
    if '%' in src {
      RunsItems(src, Start(env));
      var tail := RunIsClean(src, Start(env));
      assert [] + tail == tail;
      CleanIsKept(tail, env2);
    }
  }

  /** So once is enough when no comment ends in "<*)": see `TangledCommentBreaksIt`. */
  lemma Idempotent(src: Text, env: Env, env2: Env)
    requires Preprocess(src, env).Some?
    requires Lex(src).Some? ==> Untangled(Lex(src).value)
    ensures Preprocess(Preprocess(src, env).value, env2) == Preprocess(src, env)
  {
    hide Lex, RunAll, Untangled, Steady, Preprocess;
    if Lex(src).Some? && RunAll(Lex(src).value, Start(env)).Some? {
      UntangledIsSteady(Lex(src).value, Start(env));
    }
    SteadyIsIdempotent(src, env, env2);
  }

  // ---- Texts that are left alone -----------------------------------------------------------------

  lemma DirectiveBegins(s: Text)
    requires s != [] && First(s).Some? && !First(s).value.Plain?
    ensures s[0] == '%' && First(s).value.s != [] && First(s).value.s[0] == '%'
  {
    hide CommentLen, LineLen, StringLen, PragmaLen, DirectiveItem;
  }

  lemma {:induction false} DirectivesBegin(s: Text)
    requires Lex(s).Some?
    ensures forall item :: item in Lex(s).value && !item.Plain? ==> item.s != [] && item.s[0] == '%'
    decreases |s|
  {
    hide First;
    if s != [] {
      var item := First(s).value;
      DirectivesBegin(s[|item.s|..]);
      if !item.Plain? {
        DirectiveBegins(s);
      }
      assert Lex(s).value == [item] + Lex(s[|item.s|..]).value;
    }
  }

  lemma BlankDiffers(s: Text)
    requires s != [] && s[0] == '%'
    ensures Blank(s) != s
  {
    assert Blank(s)[0] == ' ';
  }

  lemma SameFront(a: Text, p: Text, t: Text, q: Text, u: Text)
    requires a + p + t == a + (q + u) && |p| == |q|
    ensures p == q && t == u
  {
    assert (a + p + t)[|a|..|a| + |p|] == p && (a + (q + u))[|a|..|a| + |q|] == q;
    assert (a + p + t)[|a| + |p|..] == t && (a + (q + u))[|a| + |q|..] == u;
  }

  /** Items that come out as they are hold no directive. */
  lemma {:induction false} VerbatimIsPlain(items: seq<Item>, st: State)
    requires RunAll(items, st).Some? && RunAll(items, st).value.out == st.out + ItemBytes(items)
    requires forall item :: item in items && !item.Plain? ==> item.s != [] && item.s[0] == '%'
    ensures AllPlain(items)
    decreases |items|
  {
    hide RunItem, Active;
    if items != [] {
      var (item, rest) := (items[0], items[1..]);
      assert item in items;
      var st1 := RunItem(item, st).value;
      var tail := RunOverlays(rest, st1);
      PieceOf(item, st);
      var piece := if item.Plain? then Show(Active(st.stack), item.s) else Blank(item.s);
      if !item.Plain? {
        BlankDiffers(item.s);
      }
      SameFront(st.out, piece, tail, item.s, ItemBytes(rest));
      VerbatimIsPlain(rest, st1);
      assert items == [item] + rest;
    }
  }

  /** The texts preprocessing leaves as they are, in any environment: those without a
      percent sign, and those in which nothing but whole text is scanned. */
  lemma LeftAloneIff(s: Text, env: Env)
    ensures Preprocess(s, env) == Some(s) <==> '%' !in s || Clean(s)
  {
    hide Lex, RunAll, AllPlain;
    if Clean(s) {
      CleanIsKept(s, env);
    } else if '%' in s && FullPass(s, env) == Some(s) {
      RunsItems(s, Start(env));
      if Lex(s).None? {
        LexFailsRunFails(s, env);
      } else {
        LexIsLossless(s);
        DirectivesBegin(s);
        assert [] + s == s;
        VerbatimIsPlain(Lex(s).value, Start(env));
      }
    }
  }

  /** So doing it again changes nothing exactly when the output, scanned, is nothing but
      whole text, or holds no percent sign. */
  lemma IdempotentIff(src: Text, env: Env, env2: Env)
    requires Preprocess(src, env).Some?
    ensures var out := Preprocess(src, env).value; Preprocess(out, env2) == Some(out) <==> '%' !in out || Clean(out)
  {
    hide Preprocess, Clean;
    LeftAloneIff(Preprocess(src, env).value, env2);
  }

  // ---- Where once is not enough --------------------------------------------------------------------

  lemma RunFirst(item: Item, rest: Text, st: State)
    requires item.s != [] && First(item.s + rest) == Some(item) && RunItem(item, st).Some?
    ensures RunFrom(item.s + rest, st) == RunFrom(rest, RunItem(item, st).value)
  {
    hide First, RunItem;
    assert (item.s + rest)[|item.s|..] == rest;
  }

  lemma {:induction false} SpacesThenClose(n: nat, rest: Text)
    ensures ClosesFirst(seq(n, _ => ' ') + "*>" + rest) && PragmaLen(seq(n, _ => ' ') + "*>" + rest) == Some(n)
    decreases n
  {
    var s := seq(n, _ => ' ') + "*>" + rest;
    if n > 0 {
      SpacesThenClose(n - 1, rest);
      assert s[1..] == seq(n - 1, _ => ' ') + "*>" + rest;
    } else {
      assert s == "*>" + rest;
    }
  }

  /** The second time the comment runs on: what made its opening bracket no pragma is blank now. */
  lemma TangledIsOpen(n: nat)
    ensures First("(*<*)" + seq(n, _ => ' ') + "*>'%'").None?
  {
    var tail := seq(n, _ => ' ') + "*>" + "'%'";
    var s := "(*<*)" + seq(n, _ => ' ') + "*>'%'";
    assert s[2..] == "<*" + (")" + tail);
    assert s[2..][2..] == ")" + tail;
    assert (")" + tail)[1..] == tail;
    SpacesThenClose(n, "'%'");
    assert ClosesFirst(")" + tail) && PragmaLen(")" + tail) == Some(n + 1);
    assert (")" + tail)[n + 3..] == "'%'";
    OpenQuote();
  }

  lemma OpenQuote()
    ensures CommentLen("'%'", 1).None?
  {
    assert "'%'"[1..] == "%'" && "%'"[1..] == "'" && "'"[1..] == [];
    assert CommentLen([], 1).None?;
    assert CommentLen("'", 1).None?;
    assert CommentLen("%'", 1).None?;
  }

  lemma LongerBy(n: nat, m: nat)
    ensures Longer(n, [], Some(Comment(m, []))) == Some(Comment(n + m, []))
  {
    var none: seq<Text> := [];
    assert none + none == none;
  }

  lemma TangledReads(more: Text)
    requires !ClosesFirst(")" + more)
    ensures First("(*<*)" + more) == Some(Plain("(*<*)", []))
  {
    hide ClosesFirst, PragmaLen;
    var s := "(*<*)" + more;
    assert s[2..][2..] == ")" + more;
    var t := s[2..][1..];
    assert t[2..] == more && t[0] == '*' && t[1] == ')';
    assert CommentLen(more, 0) == Some(Comment(0, []));
    assert CommentLen(t, 1) == Longer(2, [], CommentLen(more, 0));
    LongerBy(2, 0);
    assert CommentLen(s[2..], 1) == Longer(1, [], CommentLen(t, 1));
    LongerBy(1, 2);
    assert s[..5] == "(*<*)";
  }

  lemma NothingCloses(rest: Text)
    ensures !ClosesFirst(")" + ("%IF F%THEN" + ("(**)" + rest)))
  {
    NoCloseBefore(")%IF F%THEN(", "*)" + rest);
    assert ")" + ("%IF F%THEN" + ("(**)" + rest)) == ")%IF F%THEN(" + ("*" + ("*)" + rest));
  }

  lemma {:induction false} NoCloseBefore(a: Text, rest: Text)
    requires '*' !in a && Two(rest, '*', ')')
    ensures !ClosesFirst(a + ("*" + rest))
    decreases |a|
  {
    var s := a + ("*" + rest);
    if a == [] {
      assert s == "*" + rest && s[1..] == rest;
    } else {
      assert s[1..] == a[1..] + ("*" + rest);
      NoCloseBefore(a[1..], rest);
    }
  }

  lemma EmptyComment(rest: Text)
    ensures First("(**)" + rest) == Some(Plain("(**)", []))
  {
    var s := "(**)" + rest;
    var t := s[2..];
    assert t[2..] == rest && t[0] == '*' && t[1] == ')';
    assert CommentLen(rest, 0) == Some(Comment(0, []));
    assert CommentLen(t, 1) == Longer(2, [], CommentLen(rest, 0));
    LongerBy(2, 0);
    assert s[..4] == "(**)";
  }

  lemma EndItem(rest: Text)
    requires rest == [] || !IsAlpha(rest[0])
    ensures First("%END" + rest) == Some(End("%END"))
  {
    hide ReadExpr;
    assert ("%END" + rest)[1..] == "END" + rest;
    AlphaThen("END", rest);
    assert ("END" + rest)[..3] == "END" && ("%END" + rest)[..4] == "%END";
  }

  lemma LoneClose()
    ensures First("*" + ">'%'") == Some(Plain("*", [])) && First(">" + "'%'") == Some(Plain(">", []))
  {
    assert ("*" + ">'%'")[..1] == "*" && (">" + "'%'")[..1] == ">";
  }

  lemma QuotedPercent()
    ensures First("'%'" + []) == Some(Plain("'%'", []))
  {
    var s := "'%'" + [];
    assert s[1..] == "%'" && "%'"[1..] == "'" && s[..3] == "'%'";
    assert StringLen("'", '\'') == Some(1);
    assert StringLen("%'", '\'') == Some(2);
  }

  lemma PlainStep(s: Text, rest: Text, st: State)
    requires s != [] && First(s + rest) == Some(Plain(s, []))
    ensures RunFrom(s + rest, st) == RunFrom(rest, State(st.out + Show(Active(st.stack), s), st.env, st.stack))
  {
    hide First, RunFrom, Active;
    RunFirst(Plain(s, []), rest, st);
  }

  lemma IfStep(rest: Text, st: State)
    requires st.stack == [] && "F" !in st.env && (rest == [] || !IsAlpha(rest[0]))
    ensures RunFrom("%IF F%THEN" + rest, st) == RunFrom(rest, State(st.out + Blank("%IF F%THEN"), st.env, [Level(true, false, false)]))
  {
    hide First, RunFrom, Evaluate;
    var f := Test(Name("F"));
    assert "%IF " + Spelled(f, 0) + "%THEN" == "%IF F%THEN" && " " + Printed(f, 0) == " F" && !Meaning(f, st.env);
    SpelledIfDecides(f, rest, st);
    RunFirst(If("%IF F%THEN", " F"), rest, st);
    assert [] + [Level(true, false, false)] == [Level(true, false, false)];
  }

  lemma EndStep(rest: Text, st: State)
    requires |st.stack| == 1 && (rest == [] || !IsAlpha(rest[0]))
    ensures RunFrom("%END" + rest, st) == RunFrom(rest, State(st.out + Blank("%END"), st.env, []))
  {
    hide First, RunFrom;
    EndItem(rest);
    RunFirst(End("%END"), rest, st);
    assert st.stack[..0] == [];
  }

  lemma TailSteps(st: State)
    requires st.stack == []
    ensures RunFrom("*" + (">" + "'%'"), st) == Some(State(st.out + "*" + ">" + "'%'", st.env, []))
  {
    hide First, RunFrom;
    LoneClose();
    assert "*" + (">" + "'%'") == "*" + ">'%'";
    PlainStep("*", ">" + "'%'", st);
    var st1 := State(st.out + "*", st.env, []);
    PlainStep(">", "'%'", st1);
    var st2 := State(st.out + "*" + ">", st.env, []);
    QuotedPercent();
    assert "'%'" + [] == "'%'";
    PlainStep("'%'", [], st2);
    RunsOut(State(st.out + "*" + ">" + "'%'", st.env, []));
  }

  lemma RunsOut(st: State)
    ensures RunFrom([], st) == Some(st)
  {
  }

  lemma TangledRuns(env: Env)
    requires "F" !in env
    ensures RunFrom("(*<*)" + ("%IF F%THEN" + ("(**)" + ("%END" + ("*" + (">" + "'%'"))))), Start(env)) ==
            Some(State([] + "(*<*)" + Blank("%IF F%THEN") + Blank("(**)") + Blank("%END") + "*" + ">" + "'%'", env, []))
  {
    hide First, RunFrom, Blank;
    var r4 := "*" + (">" + "'%'");
    var r3 := "%END" + r4;
    var r2 := "(**)" + r3;
    var r1 := "%IF F%THEN" + r2;
    NothingCloses(r3);
    TangledReads(r1);
    PlainStep("(*<*)", r1, Start(env));
    var st1 := State([] + "(*<*)", env, []);
    IfStep(r2, st1);
    var st2 := State(st1.out + Blank("%IF F%THEN"), env, [Level(true, false, false)]);
    EmptyComment(r3);
    assert !Active(st2.stack) by { assert !st2.stack[0].live; }
    PlainStep("(**)", r3, st2);
    var st3 := State(st2.out + Blank("(**)"), env, st2.stack);
    EndStep(r4, st3);
    TailSteps(State(st3.out + Blank("%END"), env, []));
  }

  lemma TangledText(a: Text, b: Text, c: Text)
    requires |a| == 10 && |b| == 4 && |c| == 4
    requires forall x :: x in a || x in b || x in c ==> x == ' '
    ensures [] + "(*<*)" + a + b + c + "*" + ">" + "'%'" == "(*<*)" + seq(18, _ => ' ') + "*>'%'"
  {
    var n := 18;
    var s := a + b + c;
    assert s == seq(n, _ => ' ') by {
      forall i | 0 <= i < n
        ensures s[i] == ' '
      {
        assert s[i] in (if i < 10 then a else if i < 14 then b else c);
      }
    }
    assert [] + "(*<*)" + a + b + c == "(*<*)" + s;
    assert "(*<*)" + s + "*" + ">" + "'%'" == "(*<*)" + s + "*>'%'";
  }

  lemma FailsAtOnce(s: Text, env: Env)
    requires s != [] && First(s).None? && '%' in s
    ensures Preprocess(s, env).None?
  {
    hide First;
  }

  /** A comment that ends in "<*)" may be read otherwise the second time, when what
      followed it has been blanked. */
  lemma TangledCommentBreaksIt(env: Env)
    requires "F" !in env
    ensures var src := "(*<*)%IF F%THEN(**)%END*>'%'";
            Preprocess(src, env).Some? && Preprocess(Preprocess(src, env).value, env).None?
  {
    hide First, RunFrom;
    var src := "(*<*)%IF F%THEN(**)%END*>'%'";
    assert src[|src| - 2] == '%';
    assert src == "(*<*)" + ("%IF F%THEN" + ("(**)" + ("%END" + ("*" + (">" + "'%'")))));
    TangledRuns(env);
    TangledText(Blank("%IF F%THEN"), Blank("(**)"), Blank("%END"));
    var out := "(*<*)" + seq(18, _ => ' ') + "*>'%'";
    TangledIsOpen(18);
    assert out[|out| - 2] == '%';
    FailsAtOnce(out, env);
  }
}
