/** What conditional compilation leaves as it was: length, lines, and characters of
    more than one byte; and conditions on their way from the source to the evaluator. */
module PreLayout {
  import opened Ir
  import opened Directive
  import opened PreSpec
  import opened PreTree

  // ---- Length and lines ----------------------------------------------------------------------

  /** Byte for byte, the output is the source or its blank. */
  ghost predicate Overlays(src: Text, out: Text) {
    |out| == |src| && forall i :: 0 <= i < |src| ==> out[i] == src[i] || out[i] == BlankOf(src[i])
  }

  lemma {:induction false} RunOverlays(items: seq<Item>, st: State) returns (tail: Text)
    requires RunAll(items, st).Some?
    ensures RunAll(items, st).value.out == st.out + tail && Overlays(ItemBytes(items), tail)
    decreases |items|
  {
    if items == [] {
      tail := [];
    } else {
      var st1 := RunItem(items[0], st).value;
      var rest := RunOverlays(items[1..], st1);
      var piece := if items[0].Plain? then Show(Active(st.stack), items[0].s) else Blank(items[0].s);
      PieceOf(items[0], st);
      tail := piece + rest;
      assert st.out + piece + rest == st.out + tail;
    }
  }

  lemma PieceOf(item: Item, st: State)
    requires RunItem(item, st).Some?
    ensures RunItem(item, st).value.out == st.out + (if item.Plain? then Show(Active(st.stack), item.s) else Blank(item.s))
    ensures item.Plain? ==> RunItem(item, st).value.stack == st.stack
  {
    hide Evaluate;
  }

  /** The output has the length of the source, and its newlines where the source has them. */
  lemma LayoutKept(src: Text, env: Env)
    requires Preprocess(src, env).Some?
    ensures var out := Preprocess(src, env).value;
            Overlays(src, out) && forall i :: 0 <= i < |src| ==> (out[i] == '\n' <==> src[i] == '\n')
  {
    hide Lex, RunAll;
    if '%' in src {
      RunsItems(src, Start(env));
      LexIsLossless(src);
      var tail := RunOverlays(Lex(src).value, Start(env));
      assert [] + tail == tail;
    }
  }

  // ---- Characters of several bytes -------------------------------------------------------------

  predicate Wide(c: char) { c as int >= 0x80 }

  /** How many bytes the character has that this byte starts (section 4 of RFC 3629). */
  function Width(c: char): nat {
    var n := c as int;
    if n < 0x80 then 1
    else if 0xC2 <= n <= 0xDF then 2
    else if 0xE0 <= n <= 0xEF then 3
    else if 0xF0 <= n <= 0xF4 then 4
    else 0
  }

  predicate Follows(c: char) { 0x80 <= c as int < 0xC0 }

  /** No longer than need be, no surrogates, nothing behind the last character there is. */
  predicate SecondFits(first: char, second: char) {
    var n := second as int;
    match first as int
    case 0xE0 => n >= 0xA0
    case 0xED => n < 0xA0
    case 0xF0 => n >= 0x90
    case 0xF4 => n < 0x90
    case _ => true
  }

  ghost predicate Utf8(s: Text)
    decreases |s|
  {
    s == [] || (
      && 1 <= Width(s[0]) <= |s| && (forall i :: 1 <= i < Width(s[0]) ==> Follows(s[i]))
      && (Width(s[0]) > 1 ==> SecondFits(s[0], s[1])) && Utf8(s[Width(s[0])..]))
  }

  /** Neighbours of a character of several bytes are shown or blanked together. */
  ghost predicate Together(src: Text, out: Text) {
    |out| == |src| && forall i :: 0 <= i < |src| - 1 && Wide(src[i]) && Wide(src[i + 1]) ==> (out[i] == src[i] <==> out[i + 1] == src[i + 1])
  }

  /** A directive begins and ends with plain letters and signs. */
  ghost predicate Edged(item: Item) {
    item.s != [] && (!item.Plain? ==> !Wide(item.s[0]) && !Wide(item.s[|item.s| - 1]))
  }

  lemma {:induction false} ReadEnds(s: Text)
    requires ReadExpr(s).Some?
    ensures ReadExpr(s).value.len >= 1 && !Wide(s[ReadExpr(s).value.len - 1])
    decreases |s|
  {
    if s[0] != '%' {
      ReadEnds(s[1..]);
    } else {
      var n := AlphaLen(s[1..]);
      assert n >= 1 ==> s[n] == s[1..][n - 1];
      if s[1..][..n] != "THEN" {
        ReadEnds(s[n + 1..]);
      }
    }
  }

  lemma DirectiveEdged(s: Text)
    requires s != [] && s[0] == '%' && DirectiveItem(s).Some?
    ensures Edged(DirectiveItem(s).value)
  {
    hide ReadExpr;
    var n := AlphaLen(s[1..]);
    var kw := s[1..][..n];
    var rest := s[n + 1..];
    assert n >= 1 ==> s[n] == s[1..][n - 1];
    if kw == "IF" || kw == "ELSIF" {
      ReadEnds(rest);
      var e := ReadExpr(rest).value;
      assert s[..n + 1 + e.len][n + e.len] == rest[e.len - 1];
    }
  }

  lemma {:induction false} LexEdged(s: Text)
    requires Lex(s).Some?
    ensures forall item :: item in Lex(s).value ==> Edged(item)
    decreases |s|
  {
    hide CommentLen, LineLen, StringLen, PragmaLen, DirectiveItem;
    if s != [] {
      var item := First(s).value;
      LexEdged(s[|item.s|..]);
      if !item.Plain? {
        DirectiveEdged(s);
      }
      assert Lex(s).value == [item] + Lex(s[|item.s|..]).value;
    }
  }

  /** Text in front that is shown or not, as a whole. */
  lemma TogetherJoin(a: Text, pa: Text, b: Text, pb: Text, live: bool)
    requires pa == Show(live, a) && Together(b, pb) && |pb| == |b|
    requires a != [] && b != [] && Wide(a[|a| - 1]) && Wide(b[0]) ==> (pb[0] == b[0] <==> live)
    ensures Together(a + b, pa + pb)
  {
    var (s, p) := (a + b, pa + pb);
    forall i | 0 <= i < |s| - 1 && Wide(s[i]) && Wide(s[i + 1])
      ensures p[i] == s[i] <==> p[i + 1] == s[i + 1]
    {
      if i >= |a| {
        assert s[i] == b[i - |a|] && s[i + 1] == b[i + 1 - |a|] && p[i] == pb[i - |a|] && p[i + 1] == pb[i + 1 - |a|];
      }
    }
  }

  lemma FirstByte(s: Text, more: Text, rest: Text, live: bool)
    requires s != []
    ensures (s + more)[0] == s[0] && (Wide(s[0]) ==> ((Show(live, s) + rest)[0] == s[0] <==> live))
  {
  }

  lemma {:induction false} RunTogether(items: seq<Item>, st: State) returns (tail: Text)
    requires RunAll(items, st).Some? && forall item :: item in items ==> Edged(item)
    ensures RunAll(items, st).value.out == st.out + tail && Together(ItemBytes(items), tail)
    ensures ItemBytes(items) != [] && Wide(ItemBytes(items)[0]) ==> (tail[0] == ItemBytes(items)[0] <==> Active(st.stack))
    decreases |items|
  {
    hide RunItem, Active, Edged, Together, Wide;
    if items == [] {
      tail := [];
      NothingTogether();
    } else {
      var item := items[0];
      assert item in items;
      forall other | other in items[1..]
        ensures Edged(other)
      {
        assert other in items;
      }
      var st1 := RunItem(item, st).value;
      var rest := RunTogether(items[1..], st1);
      var live := item.Plain? && Active(st.stack);
      PieceOf(item, st);
      tail := Show(live, item.s) + rest;
      assert st.out + Show(live, item.s) + rest == st.out + tail;
      JoinEdged(item, ItemBytes(items[1..]), rest, Active(st.stack));
    }
  }

  lemma JoinEdged(item: Item, b: Text, pb: Text, live: bool)
    requires Edged(item) && Together(b, pb)
    requires item.Plain? && b != [] && Wide(b[0]) ==> (pb[0] == b[0] <==> live)
    ensures Together(item.s + b, Show(item.Plain? && live, item.s) + pb)
    ensures Wide((item.s + b)[0]) ==> ((Show(item.Plain? && live, item.s) + pb)[0] == (item.s + b)[0] <==> live)
  {
    hide Together;
    LengthTogether(b, pb);
    TogetherJoin(item.s, Show(item.Plain? && live, item.s), b, pb, item.Plain? && live);
    FirstByte(item.s, b, pb, item.Plain? && live);
  }

  lemma NothingTogether()
    ensures Together([], [])
  {
  }

  lemma LengthTogether(b: Text, pb: Text)
    requires Together(b, pb)
    ensures |pb| == |b|
  {
  }

  lemma {:induction false} Spaces(n: nat, s: Text)
    requires Utf8(s)
    ensures Utf8(seq(n, _ => ' ') + s)
    decreases n
  {
    var t := seq(n, _ => ' ') + s;
    if n == 0 {
      assert t == s;
    } else {
      Spaces(n - 1, s);
      assert t[1..] == seq(n - 1, _ => ' ') + s;
    }
  }

  lemma {:induction false} Utf8Kept(src: Text, out: Text)
    requires Utf8(src) && Overlays(src, out) && Together(src, out)
    ensures Utf8(out)
    decreases |src|
  {
    if src != [] {
      var n := Width(src[0]);
      var (s, o) := (src[n..], out[n..]);
      forall i | 0 <= i < |s| - 1 && Wide(s[i]) && Wide(s[i + 1])
        ensures o[i] == s[i] <==> o[i + 1] == s[i + 1]
      {
        assert src[n + i] == s[i] && src[n + i + 1] == s[i + 1];
      }
      Utf8Kept(s, o);
      if n > 1 {
        CharTogether(src, out, n);
        if out[0] != src[0] {
          assert out == seq(n, _ => ' ') + o;
          Spaces(n, o);
        }
      } else {
        assert Width(out[0]) == 1;
      }
    }
  }

  lemma CharTogether(src: Text, out: Text, n: nat)
    requires Overlays(src, out) && Together(src, out) && 2 <= n <= 4 && n <= |src| && Wide(src[0]) && forall i :: 1 <= i < n ==> Wide(src[i])
    ensures forall i :: 0 <= i < n ==> if out[0] == src[0] then out[i] == src[i] else out[i] == ' '
  {
    assert out[0] == src[0] <==> out[0 + 1] == src[0 + 1];
    if n > 2 {
      assert out[1] == src[1] <==> out[1 + 1] == src[1 + 1];
    }
    if n > 3 {
      assert out[2] == src[2] <==> out[2 + 1] == src[2 + 1];
    }
  }

  /** A source in UTF-8 stays one: no character is cut in two. */
  lemma StaysUtf8(src: Text, env: Env)
    requires Utf8(src) && Preprocess(src, env).Some?
    ensures Utf8(Preprocess(src, env).value)
  {
    hide Lex, RunAll, Utf8;
    LayoutKept(src, env);
    if '%' in src {
      RunsItems(src, Start(env));
      LexIsLossless(src);
      LexEdged(src);
      var tail := RunTogether(Lex(src).value, Start(env));
      assert [] + tail == tail;
      Utf8Kept(src, tail);
    }
  }

  // ---- Conditions in a source ----------------------------------------------------------------------

  /** A condition as a source spells it, with no parentheses but the needed ones. */
  function Spelled(c: Cond, level: nat): Text {
    match c
    case Test(o) => Directive.Shown(o)
    case Compare(l, equal, r) => Directive.Shown(l) + (if equal then " = " else " # ") + Directive.Shown(r)
    case Not(d) => "%NOT " + Spelled(d, 2)
    case And(a, b) =>
      var s := Spelled(a, 1) + "%AND " + Spelled(b, 2);
      if level > 1 then "(" + s + ")" else s
    case Or(a, b) =>
      var s := Spelled(a, 0) + "%OR " + Spelled(b, 1);
      if level > 0 then "(" + s + ")" else s
  }

  /** Text without a percent sign is read as it is. */
  lemma {:induction false} ReadText(t: Text, rest: Text)
    requires '%' !in t
    ensures ReadExpr(t + rest) == Before(t, |t|, ReadExpr(rest))
    decreases |t|
  {
    if t == [] {
      assert t + rest == rest;
      NoneBefore(ReadExpr(rest));
    } else {
      assert (t + rest)[1..] == t[1..] + rest && (t + rest)[0] == t[0];
      ReadText(t[1..], rest);
      TwiceBefore([t[0]], 1, t[1..], |t| - 1, ReadExpr(rest));
      assert [t[0]] + t[1..] == t;
    }
  }

  lemma NoneBefore(r: Option<Read>)
    ensures Before([], 0, r) == r
  {
    if r.Some? {
      assert [] + r.value.cond == r.value.cond;
    }
  }

  lemma TwiceBefore(a: Text, n: nat, b: Text, m: nat, r: Option<Read>)
    ensures Before(a, n, Before(b, m, r)) == Before(a + b, n + m, r)
  {
    if r.Some? {
      assert a + (b + r.value.cond) == a + b + r.value.cond;
    }
  }

  lemma {:induction false} AlphaThen(w: Text, rest: Text)
    requires (forall i :: 0 <= i < |w| ==> IsAlpha(w[i])) && (rest == [] || !IsAlpha(rest[0]))
    ensures AlphaLen(w + rest) == |w|
    decreases |w|
  {
    if w == [] {
      assert w + rest == rest;
    } else {
      assert (w + rest)[1..] == w[1..] + rest;
      AlphaThen(w[1..], rest);
    }
  }

  lemma ReadOperator(kw: Text, rest: Text)
    requires kw == "AND" || kw == "OR" || kw == "NOT"
    ensures ReadExpr("%" + kw + " " + rest) == Before(Operator(kw).value + " ", |kw| + 2, ReadExpr(rest))
  {
    hide ReadExpr;
    var s := "%" + kw + " " + rest;
    assert s[1..] == kw + (" " + rest);
    AlphaThen(kw, " " + rest);
    assert s[1..][..|kw|] == kw && s[|kw| + 1..] == " " + rest;
    ReadOne(s, kw);
    ReadText(" ", rest);
    TwiceBefore(Operator(kw).value, |kw| + 1, " ", 1, ReadExpr(rest));
  }

  lemma ReadOne(s: Text, kw: Text)
    requires s != [] && s[0] == '%' && AlphaLen(s[1..]) == |kw| && s[1..][..|kw|] == kw && kw != "THEN" && Operator(kw).Some?
    ensures ReadExpr(s) == Before(Operator(kw).value, |kw| + 1, ReadExpr(s[|kw| + 1..]))
  {
  }

  lemma OperandPlain(o: Operand)
    requires WfOperand(o)
    ensures '%' !in Directive.Shown(o)
  {
    match o
    case Name(s) => WordPlain(s);
    case Number(s) => WordPlain(s);
    case Quoted(q, s) =>
  }

  lemma WordPlain(s: Text)
    requires AllWord(s)
    ensures '%' !in s
  {
    assert !IsWord('%');
    forall i | 0 <= i < |s|
      ensures s[i] != '%'
    {
    }
  }

  /** A spelled condition is handed to the evaluator as it prints. */
  lemma {:induction false} ReadSpelled(c: Cond, level: nat, rest: Text)
    requires WfCond(c)
    ensures ReadExpr(Spelled(c, level) + rest) == Before(Printed(c, level), |Spelled(c, level)|, ReadExpr(rest))
    decreases c
  {
    hide ReadExpr, Before;
    match c
    case Test(o) =>
      OperandPlain(o);
      ReadText(Directive.Shown(o), rest);
    case Compare(l, equal, r) =>
      OperandPlain(l);
      OperandPlain(r);
      ReadText(Printed(c, level), rest);
    case Not(d) =>
      var s := Spelled(d, 2) + rest;
      assert Spelled(c, level) + rest == "%" + "NOT" + " " + s;
      ReadOperator("NOT", s);
      ReadSpelled(d, 2, rest);
      TwiceBefore(" !  ", 5, Printed(d, 2), |Spelled(d, 2)|, ReadExpr(rest));
      assert " ! " + " " == " !  ";
    case And(a, b) =>
      var close := if level > 1 then ")" + rest else rest;
      ReadSpelled(a, 1, "%AND " + (Spelled(b, 2) + close));
      ReadSpelled(b, 2, close);
      AndReads(Spelled(b, 2) + close);
      PairReads(Spelled(a, 1), Printed(a, 1), "%AND ", " &&  ", Spelled(b, 2), Printed(b, 2), close);
      if level > 1 {
        ParenReads(Spelled(a, 1) + "%AND " + Spelled(b, 2), Printed(a, 1) + " &&  " + Printed(b, 2), rest);
      }
    case Or(a, b) =>
      var close := if level > 0 then ")" + rest else rest;
      ReadSpelled(a, 0, "%OR " + (Spelled(b, 1) + close));
      ReadSpelled(b, 1, close);
      OrReads(Spelled(b, 1) + close);
      PairReads(Spelled(a, 0), Printed(a, 0), "%OR ", " ||  ", Spelled(b, 1), Printed(b, 1), close);
      if level > 0 {
        ParenReads(Spelled(a, 0) + "%OR " + Spelled(b, 1), Printed(a, 0) + " ||  " + Printed(b, 1), rest);
      }
  }

  lemma AndReads(rest: Text)
    ensures ReadExpr("%AND " + rest) == Before(" &&  ", 5, ReadExpr(rest))
  {
    hide ReadExpr, Before;
    assert "%" + "AND" + " " == "%AND ";
    assert Operator("AND").value + " " == " &&  ";
    ReadOperator("AND", rest);
  }

  lemma OrReads(rest: Text)
    ensures ReadExpr("%OR " + rest) == Before(" ||  ", 4, ReadExpr(rest))
  {
    hide ReadExpr, Before;
    assert "%" + "OR" + " " == "%OR ";
    assert Operator("OR").value + " " == " ||  ";
    ReadOperator("OR", rest);
  }

  /** Two operands and an operator. */
  lemma ThreeRead(x: Text, ta: Text, na: nat, y: Text, o: Text, nm: nat, z: Text, tb: Text, nb: nat, rest: Option<Read>)
    requires ReadExpr(x) == Before(ta, na, ReadExpr(y)) && ReadExpr(y) == Before(o, nm, ReadExpr(z)) && ReadExpr(z) == Before(tb, nb, rest)
    ensures ReadExpr(x) == Before(ta + o + tb, na + nm + nb, rest)
  {
    hide ReadExpr, Before;
    TwiceBefore(o, nm, tb, nb, rest);
    TwiceBefore(ta, na, o + tb, nm + nb, rest);
    assert ta + (o + tb) == ta + o + tb;
  }

  lemma PairReads(sa: Text, ta: Text, m: Text, o: Text, sb: Text, tb: Text, rest: Text)
    requires ReadExpr(sa + (m + (sb + rest))) == Before(ta, |sa|, ReadExpr(m + (sb + rest)))
    requires ReadExpr(m + (sb + rest)) == Before(o, |m|, ReadExpr(sb + rest))
    requires ReadExpr(sb + rest) == Before(tb, |sb|, ReadExpr(rest))
    ensures ReadExpr(sa + m + sb + rest) == Before(ta + o + tb, |sa + m + sb|, ReadExpr(rest))
  {
    hide *;
    Associates(sa, m, sb, rest);
    ThreeRead(sa + m + sb + rest, ta, |sa|, m + (sb + rest), o, |m|, sb + rest, tb, |sb|, ReadExpr(rest));
  }

  lemma Associates(a: Text, b: Text, c: Text, d: Text)
    ensures a + b + c + d == a + (b + (c + d)) && a + (b + c) == a + b + c
  {
  }

  lemma ParenReads(src: Text, txt: Text, rest: Text)
    requires ReadExpr(src + (")" + rest)) == Before(txt, |src|, ReadExpr(")" + rest))
    ensures ReadExpr("(" + src + ")" + rest) == Before("(" + txt + ")", |src| + 2, ReadExpr(rest))
  {
    hide ReadExpr, Before;
    assert "(" + src + ")" + rest == "(" + (src + (")" + rest));
    ReadText("(", src + (")" + rest));
    ReadText(")", rest);
    TwiceBefore(txt, |src|, ")", 1, ReadExpr(rest));
    TwiceBefore("(", 1, txt + ")", |src| + 1, ReadExpr(rest));
    assert "(" + (txt + ")") == "(" + txt + ")";
  }

  /** An %IF with a spelled condition is taken exactly when the condition holds. */
  lemma SpelledIfDecides(c: Cond, rest: Text, st: State)
    requires WfCond(c) && (rest == [] || !IsAlpha(rest[0]))
    ensures var s := "%IF " + Spelled(c, 0) + "%THEN";
            && First(s + rest) == Some(If(s, " " + Printed(c, 0)))
            && Evaluate(" " + Printed(c, 0), st.env) == Some(Meaning(c, st.env))
  {
    hide ReadExpr, First, Evaluate, Printed, Spelled;
    var body := " " + Spelled(c, 0);
    var s := "%IF " + Spelled(c, 0) + "%THEN";
    ConditionReads(c, rest);
    IfReads(body, " " + Printed(c, 0), rest);
    assert s == "%IF" + (body + "%THEN");
    assert s + rest == "%IF" + (body + "%THEN" + rest);
    SpaceInFront(Printed(c, 0), st.env);
    PrintedEvaluates(c, st.env);
  }

  /** A condition with a space in front, up to %THEN. */
  lemma ConditionReads(c: Cond, rest: Text)
    requires WfCond(c) && (rest == [] || !IsAlpha(rest[0]))
    ensures ReadExpr(" " + Spelled(c, 0) + "%THEN" + rest) == Some(Read(" " + Printed(c, 0), |Spelled(c, 0)| + 6))
  {
    hide ReadExpr, Before, Printed, Spelled;
    var after := "%THEN" + rest;
    assert " " + Spelled(c, 0) + "%THEN" + rest == " " + (Spelled(c, 0) + after);
    ReadThen(rest);
    ReadSpelled(c, 0, after);
    ReadText(" ", Spelled(c, 0) + after);
    TwiceBefore(" ", 1, Printed(c, 0), |Spelled(c, 0)|, ReadExpr(after));
    ThenStops(" " + Printed(c, 0), |Spelled(c, 0)| + 1, ReadExpr(after));
  }

  lemma IfReads(body: Text, cond: Text, rest: Text)
    requires body != [] && body[0] == ' '
    requires ReadExpr(body + "%THEN" + rest) == Some(Read(cond, |body| + 5))
    ensures First("%IF" + (body + "%THEN" + rest)) == Some(If("%IF" + (body + "%THEN"), cond))
  {
    hide ReadExpr;
    var tail := body + "%THEN" + rest;
    var t := "%IF" + tail;
    assert t[1..] == "IF" + tail;
    AlphaThen("IF", tail);
    assert t[1..][..2] == "IF" && t[3..] == tail;
    assert t[..3 + (|body| + 5)] == "%IF" + (body + "%THEN");
  }

  lemma ThenStops(t: Text, n: nat, r: Option<Read>)
    requires r == Some(Read([], 5))
    ensures Before(t, n, r) == Some(Read(t, n + 5))
  {
    assert t + [] == t;
  }

  lemma ReadThen(rest: Text)
    requires rest == [] || !IsAlpha(rest[0])
    ensures ReadExpr("%THEN" + rest) == Some(Read([], 5))
  {
    var s := "%THEN" + rest;
    assert s[1..] == "THEN" + rest;
    AlphaThen("THEN", rest);
    assert s[1..][..4] == "THEN";
  }

  lemma SpaceInFront(s: Text, env: Env)
    ensures Evaluate(" " + s, env) == Evaluate(s, env)
  {
    hide ParseAnd;
    AndSkips(s, env);
  }
}
