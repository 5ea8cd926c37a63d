/** The preprocessor with its cursor, output buffer, environment and stack. */
module Preprocessor {
  import opened Ir
  import opened Directive
  import opened PreSpec

  class Preproc {
    const src: Text
    var out: Text
    var pos: nat
    var env: Env
    var stack: seq<Level>

    ghost predicate Valid()
      reads this
    {
      pos <= |src|
    }

    ghost function Ahead(): Text
      reads this
      requires Valid()
    {
      src[pos..]
    }

    ghost function Now(): State
      reads this
    {
      State(out, env, stack)
    }

    constructor (src: Text, env: Env)
      ensures Valid() && this.src == src && Ahead() == src && Now() == Start(env)
    {
      this.src, this.env := src, env;
      out, pos, stack := [], 0, [];
    }

    method IsActive() returns (a: bool)
      ensures a == Active(stack)
    {
      var i := 0;
      while i < |stack|
        invariant 0 <= i <= |stack| && forall k :: 0 <= k < i ==> stack[k].live
      {
        if !stack[i].live {
          return false;
        }
        i := i + 1;
      }
      return true;
    }

    /** One byte into the output, blanked in a dead branch. */
    method EmitByte()
      requires Valid() && pos < |src|
      modifies this`out, this`pos
      ensures Valid() && pos == old(pos) + 1 && out == old(out) + Show(Active(stack), [src[old(pos)]])
    {
      var a := IsActive();
      var c := src[pos];
      if a {
        out := out + [c];
      } else if c == '\n' {
        out := out + ['\n'];
      } else {
        out := out + [' '];
      }
      pos := pos + 1;
    }

    method EraseByte()
      requires Valid() && pos < |src|
      modifies this`out, this`pos
      ensures Valid() && pos == old(pos) + 1 && out == old(out) + Blank([src[old(pos)]])
    {
      var c := src[pos];
      out := out + [if c == '\n' then '\n' else ' '];
      pos := pos + 1;
    }

    lemma ShowMore(live: bool, a: nat, b: nat)
      requires a <= b < |src|
      ensures Show(live, src[a..b]) + Show(live, [src[b]]) == Show(live, src[a..b + 1])
      ensures Blank(src[a..b]) + Blank([src[b]]) == Blank(src[a..b + 1])
    {
      assert src[a..b] + [src[b]] == src[a..b + 1];
    }

    /** The output since position `start` is the source since then, shown or not. */
    ghost predicate Shown(start: nat, before: Text, live: bool)
      reads this
    {
      start <= pos <= |src| && out == before + Show(live, src[start..pos])
    }

    lemma Begin(live: bool, start: nat)
      requires start <= |src|
      ensures Show(live, src[start..start]) == [] && Blank(src[start..start]) == []
    {
    }

    method Emit(ghost start: nat, ghost before: Text, ghost live: bool)
      requires Valid() && pos < |src| && Shown(start, before, live) && live == Active(stack)
      modifies this`out, this`pos
      ensures Valid() && pos == old(pos) + 1 && Shown(start, before, live)
    {
      ShowMore(live, start, pos);
      EmitByte();
    }

    // ---- Comments, strings, pragmas --------------------------------------------------------

    method CopyLine()
      requires Valid() && pos < |src|
      modifies this`out, this`pos
      ensures Valid() && pos == old(pos) + LineLen(old(Ahead()))
      ensures out == old(out) + Show(Active(stack), src[old(pos)..pos])
    {
      ghost var (start, before, live) := (pos, out, Active(stack));
      Begin(live, start);
      while pos < |src|
        invariant Valid() && Shown(start, before, live)
        invariant LineLen(src[start..]) == (pos - start) + LineLen(Ahead())
      {
        assert src[pos..][1..] == src[pos + 1..];
        var last := src[pos] == '\n';
        Emit(start, before, live);
        if last {
          break;
        }
      }
    }

    method CopyString() returns (ok: bool)
      requires Valid() && pos < |src|
      modifies this`out, this`pos
      ensures Valid() && ok == StringLen(old(Ahead())[1..], src[old(pos)]).Some?
      ensures ok ==> pos == old(pos) + 1 + StringLen(old(Ahead())[1..], src[old(pos)]).value
      ensures ok ==> out == old(out) + Show(Active(stack), src[old(pos)..pos])
    {
      ghost var (start, before, live) := (pos, out, Active(stack));
      Begin(live, start);
      var quote := src[pos];
      assert src[start..][1..] == src[start + 1..];
      Emit(start, before, live);
      while true
        invariant Valid() && Shown(start, before, live)
        invariant StringLen(src[start + 1..], quote) == Plus(pos - start - 1, StringLen(Ahead(), quote))
        invariant start + 1 <= pos
        decreases |src| - pos
      {
        if pos == |src| || src[pos] == '\n' {
          return false;
        }
        assert src[pos..][1..] == src[pos + 1..];
        var last := src[pos] == quote;
        Emit(start, before, live);
        if last {
          return true;
        }
      }
    }

    /** At a `<*` in a comment: is it closed before the comment is? */
    method PragmaClosesWithinComment() returns (yes: bool)
      requires Valid() && pos + 2 <= |src|
      ensures yes == ClosesFirst(src[pos + 2..])
    {
      var i := pos + 2;
      while i + 1 < |src|
        invariant pos + 2 <= i <= |src| && ClosesFirst(src[pos + 2..]) == ClosesFirst(src[i..])
      {
        if src[i] == '*' && src[i + 1] == '>' {
          return true;
        }
        if src[i] == '*' && src[i + 1] == ')' {
          return false;
        }
        assert src[i..][1..] == src[i + 1..];
        i := i + 1;
      }
      return false;
    }

    /** A pragma is copied; its body takes effect when it is shown. */
    method CopyPragma() returns (ok: bool)
      requires Valid() && Two(Ahead(), '<', '*')
      modifies this`out, this`pos, this`env
      ensures Valid() && ok == PragmaLen(old(Ahead())[2..]).Some?
      ensures ok ==> var n := PragmaLen(old(Ahead())[2..]).value;
                     && pos == old(pos) + n + 4
                     && out == old(out) + Show(Active(stack), src[old(pos)..pos])
                     && env == if Active(stack) then ApplyPragma(old(env), old(Ahead())[2..][..n]) else old(env)
    {
      hide PragmaLen, Active, Show, ApplyPragma;
      ghost var (start, before, live) := (pos, out, Active(stack));
      Begin(live, start);
      assert src[start..][2..] == src[start + 2..];
      Emit(start, before, live);
      Emit(start, before, live);
      var body := pos;
      while true
        invariant Valid() && Shown(start, before, live) && body == start + 2 <= pos && env == old(env)
        invariant PragmaLen(src[body..]) == Plus(pos - body, PragmaLen(Ahead()))
        decreases |src| - pos
      {
        if pos == |src| {
          return false;
        }
        assert src[pos..][1..] == src[pos + 1..];
        PragmaCases(Ahead());
        if src[pos] == '*' && pos + 1 < |src| && src[pos + 1] == '>' {
          assert src[body..][..pos - body] == src[body..pos];
          var a := IsActive();
          if a {
            env := ApplyPragma(env, src[body..pos]);
          }
          Emit(start, before, live);
          Emit(start, before, live);
          return true;
        }
        Emit(start, before, live);
      }
    }

    /** A pragma in the middle of what is being copied. */
    method CopyInner(ghost start: nat, ghost before: Text, ghost live: bool) returns (ok: bool)
      requires Valid() && Two(Ahead(), '<', '*') && Shown(start, before, live) && live == Active(stack)
      modifies this`out, this`pos, this`env
      ensures Valid() && ok == PragmaLen(old(Ahead())[2..]).Some?
      ensures ok ==> var n := PragmaLen(old(Ahead())[2..]).value;
                     && pos == old(pos) + n + 4 && Shown(start, before, live) && Ahead() == old(Ahead())[2..][n + 2..]
                     && env == if live then ApplyPragma(old(env), old(Ahead())[2..][..n]) else old(env)
    {
      hide PragmaLen, Active, Show;
      ghost var at := pos;
      ok := CopyPragma();
      if ok {
        ShowJoin(live, start, at, pos);
      }
    }

    /** One step into a comment: a nested opening or close, a pragma, a byte. `more` are
        the pragmas passed. */
    method CopyWithin(depth: nat, ghost start: nat, ghost before: Text, ghost live: bool) returns (ok: bool, deeper: nat, ghost more: seq<Text>)
      requires Valid() && pos < |src| && depth > 0 && Shown(start, before, live) && live == Active(stack)
      modifies this`out, this`pos, this`env
      ensures Valid() && if ok
              then Shown(start, before, live) && pos > old(pos) && env == (if live then ApplyAll(old(env), more) else old(env))
                   && CommentLen(old(Ahead()), depth) == Longer(pos - old(pos), more, CommentLen(Ahead(), deeper))
              else CommentLen(old(Ahead()), depth) == None
    {
      hide PragmaLen, ClosesFirst, CommentLen, Active, Show, Longer, ApplyPragma;
      ghost var ahead := Ahead();
      CommentCases(ahead, depth);
      assert ahead[1..] == src[pos + 1..];
      ok, deeper, more := true, depth, [];
      ApplyNone(env);
      var next := if pos + 1 < |src| then src[pos + 1] else ' ';
      if src[pos] == '(' && next == '*' {
        assert ahead[2..] == src[pos + 2..];
        Emit(start, before, live);
        Emit(start, before, live);
        deeper := depth + 1;
      } else if src[pos] == '<' && next == '*' {
        assert ahead[2..] == src[pos + 2..];
        var closes := PragmaClosesWithinComment();
        if closes {
          ok := CopyInner(start, before, live);
          if ok {
            more := [ahead[2..][..PragmaLen(ahead[2..]).value]];
            ApplyJust(old(env), ahead[2..]);
          }
        } else {
          Emit(start, before, live);
        }
      } else if src[pos] == '*' && next == ')' {
        assert ahead[2..] == src[pos + 2..];
        Emit(start, before, live);
        Emit(start, before, live);
        deeper := depth - 1;
      } else {
        Emit(start, before, live);
      }
    }

    method CopyComment() returns (ok: bool)
      requires Valid() && Two(Ahead(), '(', '*')
      modifies this`out, this`pos, this`env
      ensures Valid() && ok == CommentLen(old(Ahead())[2..], 1).Some?
      ensures ok ==> var c := CommentLen(old(Ahead())[2..], 1).value;
                     && pos == old(pos) + c.len + 2
                     && out == old(out) + Show(Active(stack), src[old(pos)..pos])
                     && env == if Active(stack) then ApplyAll(old(env), c.pragmas) else old(env)
    {
      hide CommentLen, Active, Show, Longer, ApplyAll;
      ghost var (start, before, live) := (pos, out, Active(stack));
      Begin(live, start);
      assert src[start..][2..] == src[start + 2..];
      Emit(start, before, live);
      Emit(start, before, live);
      var depth: nat := 1;
      ghost var done: seq<Text> := [];
      ApplyNone(env);
      LongerByNothing(CommentLen(Ahead(), 1));
      while depth > 0 && pos < |src|
        invariant Valid() && Shown(start, before, live) && start + 2 <= pos
        invariant CommentLen(src[start + 2..], 1) == Longer(pos - start - 2, done, CommentLen(Ahead(), depth))
        invariant env == if live then ApplyAll(old(env), done) else old(env)
        decreases |src| - pos
      {
        ghost var at := pos;
        var stepped, deeper, more := CopyWithin(depth, start, before, live);
        if !stepped {
          LongerFails(at - start - 2, done);
          return false;
        }
        LongerTwice(at - start - 2, done, pos - at, more, CommentLen(Ahead(), deeper));
        ApplyTwice(old(env), done, more);
        done := done + more;
        depth := deeper;
      }
      CommentOver(Ahead(), depth, pos - start - 2, done);
      LongerFails(pos - start - 2, done);
      return depth == 0;
    }

    lemma ShowJoin(live: bool, a: nat, b: nat, c: nat)
      requires a <= b <= c <= |src|
      ensures Show(live, src[a..b]) + Show(live, src[b..c]) == Show(live, src[a..c])
    {
      assert src[a..b] + src[b..c] == src[a..c];
    }

    // ---- Directives ------------------------------------------------------------------------

    /** Letters are erased and returned. */
    method EraseWord() returns (kw: Text)
      requires Valid()
      modifies this`out, this`pos
      ensures Valid() && pos == old(pos) + |kw| && kw == old(Ahead())[..AlphaLen(old(Ahead()))]
      ensures out == old(out) + Blank(src[old(pos)..pos])
    {
      hide AlphaLen, Blank;
      var start := pos;
      ghost var before := out;
      BlankNothing(before, start);
      while pos < |src| && IsAlpha(src[pos])
        invariant start <= pos <= |src| && out == before + Blank(src[start..pos]) && start == old(pos)
        invariant AlphaLen(src[start..]) == pos - start + AlphaLen(Ahead())
      {
        AlphaStep(Ahead());
        assert src[pos..][1..] == src[pos + 1..];
        BlankMore(before, start, pos);
        EraseByte();
      }
      AlphaStep(Ahead());
      kw := src[start..pos];
      assert src[start..][..pos - start] == kw;
    }

    lemma BlankMore(before: Text, a: nat, b: nat)
      requires a <= b < |src|
      ensures before + Blank(src[a..b]) + Blank([src[b]]) == before + Blank(src[a..b + 1])
    {
      ShowMore(false, a, b);
      assert before + Blank(src[a..b]) + Blank([src[b]]) == before + (Blank(src[a..b]) + Blank([src[b]]));
    }

    static lemma AlphaStep(s: Text)
      ensures AlphaLen(s) == if s != [] && IsAlpha(s[0]) then 1 + AlphaLen(s[1..]) else 0
    {
    }

    lemma BlankNothing(before: Text, a: nat)
      requires a <= |src|
      ensures before + Blank(src[a..a]) == before
    {
    }

    lemma BlankJoin(a: nat, b: nat, c: nat)
      requires a <= b <= c <= |src|
      ensures Blank(src[a..b]) + Blank(src[b..c]) == Blank(src[a..c])
    {
      assert src[a..b] + src[b..c] == src[a..c];
    }

    /** The percent sign and the letters after it. */
    method EraseKeyword() returns (kw: Text)
      requires Valid() && pos < |src|
      modifies this`out, this`pos
      ensures Valid() && pos == old(pos) + 1 + |kw| && kw == old(Ahead())[1..][..AlphaLen(old(Ahead())[1..])]
      ensures out == old(out) + Blank(src[old(pos)..pos]) && Ahead() == old(Ahead())[|kw| + 1..] && old(Ahead())[..|kw| + 1] == src[old(pos)..pos]
    {
      hide AlphaLen, Blank;
      ghost var (start, ahead) := (pos, Ahead());
      assert ahead[1..] == src[pos + 1..] && src[start..start + 1] == [src[start]];
      EraseByte();
      kw := EraseWord();
      BlankJoin(start, start + 1, pos);
    }

    /** A byte of a condition or an operator, erased; `done` behind %THEN. */
    method ErasePiece() returns (piece: Option<Text>, done: bool)
      requires Valid() && pos < |src|
      modifies this`out, this`pos
      ensures Valid() && pos > old(pos) && out == old(out) + Blank(src[old(pos)..pos])
      ensures ReadExpr(old(Ahead())) == if done then Some(Read([], pos - old(pos)))
                                        else if piece.None? then None else Before(piece.value, pos - old(pos), ReadExpr(Ahead()))
    {
      hide ReadExpr, Blank, AlphaLen, Before, Operator;
      ghost var (ahead, at) := (Ahead(), pos);
      ReadCases(ahead);
      if src[pos] == '%' {
        var kw := EraseKeyword();
        piece := Operator(kw);
        done := kw == "THEN";
      } else {
        piece, done := Some([src[pos]]), false;
        assert ahead[1..] == src[pos + 1..];
        assert src[at..at + 1] == [src[at]];
        EraseByte();
      }
    }

    /** The condition up to %THEN, erased and evaluated; None when it is no condition. */
    method ReadExprThen() returns (r: Option<bool>)
      requires Valid()
      modifies this`out, this`pos
      ensures Valid()
      ensures match ReadExpr(old(Ahead()))
              case None => r.None?
              case Some(e) => r == Evaluate(e.cond, env) && pos == old(pos) + e.len && out == old(out) + Blank(src[old(pos)..pos])
    {
      hide Evaluate, ReadExpr, Blank, Before;
      ghost var (start, before) := (pos, out);
      Begin(false, start);
      var buf: Text := [];
      BeforeNothing(ReadExpr(Ahead()));
      while pos < |src|
        invariant start <= pos <= |src| && start == old(pos) && out == before + Blank(src[start..pos])
        invariant ReadExpr(old(Ahead())) == Before(buf, pos - start, ReadExpr(Ahead()))
        decreases |src| - pos
      {
        ghost var at := pos;
        var piece, done := ErasePiece();
        BlankJoin(start, at, pos);
        if done {
          BeforeEnd(buf, at - start, pos - at);
          r := EvalExpr(buf, env);
          return;
        }
        if piece.None? {
          BeforeFails(buf, at - start);
          return None;
        }
        BeforeTwice(buf, at - start, piece.value, pos - at, ReadExpr(Ahead()));
        buf := buf + piece.value;
      }
      NothingToRead();
      BeforeFails(buf, pos - start);
      return None;
    }

    /** Condition and all, an %IF or %ELSIF; `r` is what the condition says. */
    method EraseCondition(ghost start: nat, ghost before: Text) returns (r: Option<bool>)
      requires Valid() && start <= pos && out == before + Blank(src[start..pos])
      modifies this`out, this`pos
      ensures Valid()
      ensures match ReadExpr(old(Ahead()))
              case None => r.None?
              case Some(e) => r == Evaluate(e.cond, env) && pos == old(pos) + e.len && out == before + Blank(src[start..pos])
    {
      hide ReadExpr, Blank, Evaluate;
      r := ReadExprThen();
      if ReadExpr(old(Ahead())).Some? {
        BlankJoin(start, old(pos), pos);
      }
    }

    method HandleDirective() returns (ok: bool)
      requires Valid() && pos < |src|
      modifies this`out, this`pos, this`stack
      ensures Valid() && Did(ok, DirectiveItem(old(Ahead())), old(pos), old(Now()))
    {
      hide Evaluate, ReadExpr, DirectiveItem, AlphaLen, Blank, Active;
      ghost var (start, ahead, before) := (pos, Ahead(), out);
      DirectiveCases(ahead);
      var kw := EraseKeyword();
      if kw == "IF" || kw == "ELSIF" {
        if kw == "ELSIF" && stack == [] {
          return false;
        }
        var cond := EraseCondition(start, before);
        if cond.None? {
          return false;
        }
        assert ahead[..pos - start] == src[start..pos];
        if kw == "IF" {
          var outer := IsActive();
          stack := stack + [Level(outer, outer && cond.value, outer && cond.value)];
        } else {
          Retake(cond.value);
        }
        return true;
      }
      if (kw != "ELSE" && kw != "END") || stack == [] {
        return false;
      }
      if kw == "ELSE" {
        Retake(true);
      } else {
        stack := stack[..|stack| - 1];
      }
      return true;
    }

    /** The next branch of the innermost %IF. */
    method Retake(cond: bool)
      requires stack != []
      modifies this`stack
      ensures var n := |old(stack)| - 1;
              var top := old(stack)[n];
              var take := top.outer && !top.taken && cond;
              stack == old(stack)[..n] + [Level(top.outer, top.taken || take, take)]
    {
      var n := |stack| - 1;
      var top := stack[n];
      var take := top.outer && !top.taken && cond;
      stack := stack[..n] + [Level(top.outer, top.taken || take, take)];
    }

    /** `item` was run on `st` and the cursor is behind it, or `ok` is false and there is
        no such item or it cannot be run. */
    ghost predicate Did(ok: bool, item: Option<Item>, start: nat, st: State)
      reads this
    {
      if item.None? || RunItem(item.value, st).None? then !ok
      else ok && Now() == RunItem(item.value, st).value && pos == start + |item.value.s|
    }

    method StepComment() returns (ok: bool)
      requires Valid() && pos < |src| && Two(Ahead(), '(', '*')
      modifies this`out, this`pos, this`env
      ensures Valid() && Did(ok, First(old(Ahead())), old(pos), old(Now()))
    {
      hide First, RunItem, CommentLen, LineLen, StringLen, PragmaLen, ApplyPragma, ApplyAll, Show, Active;
      ghost var (start, ahead, st) := (pos, Ahead(), Now());
      FirstCases(ahead);
      ok := CopyComment();
      if ok {
        assert ahead[..pos - start] == src[start..pos];
        Copied(First(ahead).value, st, Now());
      }
    }

    method StepLine() returns (ok: bool)
      requires Valid() && pos < |src| && !Two(Ahead(), '(', '*') && Two(Ahead(), '/', '/')
      modifies this`out, this`pos, this`env
      ensures Valid() && Did(ok, First(old(Ahead())), old(pos), old(Now()))
    {
      hide First, RunItem, CommentLen, LineLen, StringLen, PragmaLen, ApplyPragma, ApplyAll, Show, Active;
      ghost var (start, ahead, st) := (pos, Ahead(), Now());
      FirstCases(ahead);
      CopyLine();
      ok := true;
      ApplyAllFew(env);
      assert ahead[..pos - start] == src[start..pos];
      Copied(First(ahead).value, st, Now());
    }

    method StepString() returns (ok: bool)
      requires Valid() && pos < |src| && (src[pos] == '"' || src[pos] == '\'')
      modifies this`out, this`pos, this`env
      ensures Valid() && Did(ok, First(old(Ahead())), old(pos), old(Now()))
    {
      hide First, RunItem, CommentLen, LineLen, StringLen, PragmaLen, ApplyPragma, ApplyAll, Show, Active;
      ghost var (start, ahead, st) := (pos, Ahead(), Now());
      FirstCases(ahead);
      ok := CopyString();
      ApplyAllFew(env);
      if ok {
        assert ahead[..pos - start] == src[start..pos];
        Copied(First(ahead).value, st, Now());
      }
    }

    method StepPragma() returns (ok: bool)
      requires Valid() && pos < |src| && Two(Ahead(), '<', '*')
      modifies this`out, this`pos, this`env
      ensures Valid() && Did(ok, First(old(Ahead())), old(pos), old(Now()))
    {
      hide First, RunItem, CommentLen, LineLen, StringLen, PragmaLen, ApplyPragma, ApplyAll, Show, Active;
      ghost var (start, ahead, st) := (pos, Ahead(), Now());
      FirstCases(ahead);
      ok := CopyPragma();
      ApplyJust(st.env, ahead[2..]);
      if ok {
        assert ahead[..pos - start] == src[start..pos];
        Copied(First(ahead).value, st, Now());
      }
    }

    method StepByte() returns (ok: bool)
      requires Valid() && pos < |src| && src[pos] != '"' && src[pos] != '\'' && src[pos] != '%' && !Two(Ahead(), '(', '*') && !Two(Ahead(), '/', '/') && !Two(Ahead(), '<', '*')
      modifies this`out, this`pos, this`env
      ensures Valid() && Did(ok, First(old(Ahead())), old(pos), old(Now()))
    {
      hide First, RunItem, CommentLen, LineLen, StringLen, PragmaLen, ApplyPragma, ApplyAll, Show, Active;
      ghost var (start, ahead, st) := (pos, Ahead(), Now());
      FirstCases(ahead);
      EmitByte();
      ok := true;
      ApplyAllFew(env);
      assert src[start..pos] == [src[start]];
      assert ahead[..pos - start] == src[start..pos];
      Copied(First(ahead).value, st, Now());
    }

    method StepOne() returns (ok: bool)
      requires Valid() && pos < |src|
      modifies this`out, this`pos, this`env, this`stack
      ensures Valid() && Did(ok, First(old(Ahead())), old(pos), old(Now()))
    {
      hide First, RunItem;
      var c := src[pos];
      var next := if pos + 1 < |src| then src[pos + 1] else ' ';
      FirstCases(Ahead());
      if c == '(' && next == '*' {
        ok := StepComment();
      } else if c == '/' && next == '/' {
        ok := StepLine();
      } else if c == '"' || c == '\'' {
        ok := StepString();
      } else if c == '<' && next == '*' {
        ok := StepPragma();
      } else if c == '%' {
        ok := HandleDirective();
      } else {
        ok := StepByte();
      }
    }

    /** What stands at the front of the source, by its first characters. */
    static lemma FirstCases(s: Text)
      requires s != []
      ensures var r := First(s);
              if Two(s, '(', '*') then
                (var c := CommentLen(s[2..], 1); if c.Some? then r == Some(Plain(s[..c.value.len + 2], c.value.pragmas)) else r.None?)
              else if Two(s, '/', '/') then r == Some(Plain(s[..LineLen(s)], []))
              else if s[0] == '"' || s[0] == '\'' then
                (var n := StringLen(s[1..], s[0]); if n.Some? then r == Some(Plain(s[..n.value + 1], [])) else r.None?)
              else if Two(s, '<', '*') then
                (var n := PragmaLen(s[2..]); if n.Some? then r == Some(Plain(s[..n.value + 4], [s[2..][..n.value]])) else r.None?)
              else if s[0] == '%' then r == DirectiveItem(s)
              else r == Some(Plain(s[..1], []))
    {
      hide CommentLen, LineLen, StringLen, PragmaLen, DirectiveItem;
    }

    static lemma ApplyAllFew(env: Env)
      ensures ApplyAll(env, []) == env
    {
    }

    static lemma Copied(item: Item, st: State, z: State)
      requires item.Plain? && z.stack == st.stack && z.out == st.out + Show(Active(st.stack), item.s)
      requires z.env == if Active(st.stack) then ApplyAll(st.env, item.pragmas) else st.env
      ensures RunItem(item, st) == Some(z)
    {
      hide ApplyAll, Show, Active;
    }

    method Run() returns (ok: bool)
      requires Valid()
      modifies this`out, this`pos, this`env, this`stack
      ensures Valid() && ok == (RunFrom(old(Ahead()), old(Now())).Some? && RunFrom(old(Ahead()), old(Now())).value.stack == [])
      ensures ok ==> RunFrom(old(Ahead()), old(Now())) == Some(Now())
    {
      hide First, RunItem;
      while pos < |src|
        invariant Valid() && RunFrom(Ahead(), Now()) == RunFrom(old(Ahead()), old(Now()))
        decreases |src| - pos
      {
        ghost var ahead := Ahead();
        var stepped := StepOne();
        if !stepped {
          return false;
        }
        assert ahead[|First(ahead).value.s|..] == src[pos..];
      }
      return stack == [];
    }
  }

  /** Where a comment ends, or the source does. */
  lemma CommentOver(s: Text, depth: nat, n: nat, done: seq<Text>)
    ensures Longer(n, done, CommentLen(s, 0)) == Some(Comment(n, done))
    ensures depth > 0 && s == [] ==> CommentLen(s, depth) == None
  {
    assert done + [] == done;
  }

  /** What a comment goes on with. */
  lemma CommentCases(s: Text, depth: nat)
    requires depth > 0 && s != []
    ensures Two(s, '(', '*') ==> CommentLen(s, depth) == Longer(2, [], CommentLen(s[2..], depth + 1))
    ensures Two(s, '<', '*') && !ClosesFirst(s[2..]) ==> CommentLen(s, depth) == Longer(1, [], CommentLen(s[1..], depth))
    ensures Two(s, '<', '*') && ClosesFirst(s[2..]) ==>
              CommentLen(s, depth) == match PragmaLen(s[2..])
                                      case None => None
                                      case Some(n) => Longer(n + 4, [s[2..][..n]], CommentLen(s[2..][n + 2..], depth))
    ensures Two(s, '*', ')') ==> CommentLen(s, depth) == Longer(2, [], CommentLen(s[2..], depth - 1))
    ensures !(Two(s, '(', '*')) && !(Two(s, '<', '*')) && !(Two(s, '*', ')')) ==> CommentLen(s, depth) == Longer(1, [], CommentLen(s[1..], depth))
  {
  }

  /** What a condition goes on with. */
  lemma ReadCases(s: Text)
    requires s != []
    ensures s[0] != '%' ==> ReadExpr(s) == Before([s[0]], 1, ReadExpr(s[1..]))
    ensures s[0] == '%' ==>
              var n := AlphaLen(s[1..]);
              var kw := s[1..][..n];
              var rest := ReadExpr(s[n + 1..]);
              ReadExpr(s) == if kw == "THEN" then Some(Read([], n + 1)) else if Operator(kw).None? then None else Before(Operator(kw).value, n + 1, rest)
  {
    hide AlphaLen;
  }

  lemma DirectiveCases(s: Text)
    requires s != []
    ensures var n := AlphaLen(s[1..]);
            var kw := s[1..][..n];
            var e := ReadExpr(s[n + 1..]);
            && (kw == "IF" ==> DirectiveItem(s) == if e.Some? then Some(If(s[..n + 1 + e.value.len], e.value.cond)) else None)
            && (kw == "ELSIF" ==> DirectiveItem(s) == if e.Some? then Some(Elsif(s[..n + 1 + e.value.len], e.value.cond)) else None)
            && (kw == "ELSE" ==> DirectiveItem(s) == Some(Else(s[..n + 1])))
            && (kw == "END" ==> DirectiveItem(s) == Some(End(s[..n + 1])))
            && (kw != "IF" && kw != "ELSIF" && kw != "ELSE" && kw != "END" ==> DirectiveItem(s) == None)
  {
    hide AlphaLen, ReadExpr;
  }

  lemma PragmaCases(s: Text)
    requires s != []
    ensures Two(s, '*', '>') ==> PragmaLen(s) == Some(0)
    ensures !(Two(s, '*', '>')) ==> PragmaLen(s) == Plus(1, PragmaLen(s[1..]))
  {
  }

  lemma LongerFails(n: nat, a: seq<Text>)
    ensures Longer(n, a, None) == None
  {
  }

  lemma ApplyNone(env: Env)
    ensures ApplyAll(env, []) == env
  {
  }

  lemma LongerByNothing(r: Option<Comment>)
    ensures Longer(0, [], r) == r
  {
    if r.Some? {
      assert [] + r.value.pragmas == r.value.pragmas;
    }
  }

  lemma BeforeNothing(r: Option<Read>)
    ensures Before([], 0, r) == r
  {
    if r.Some? {
      assert [] + r.value.cond == r.value.cond;
    }
  }

  lemma LongerTwice(n: nat, a: seq<Text>, m: nat, b: seq<Text>, r: Option<Comment>)
    ensures Longer(n, a, Longer(m, b, r)) == Longer(n + m, a + b, r) && a + [] == a
  {
    if r.Some? {
      assert a + (b + r.value.pragmas) == a + b + r.value.pragmas;
    }
  }

  lemma BeforeEnd(t: Text, n: nat, m: nat)
    ensures Before(t, n, Some(Read([], m))) == Some(Read(t, n + m))
  {
    assert t + [] == t;
  }

  lemma BeforeFails(t: Text, n: nat)
    ensures Before(t, n, None) == None
  {
  }

  lemma NothingToRead()
    ensures ReadExpr([]) == None
  {
  }

  lemma BeforeTwice(a: Text, n: nat, b: Text, m: nat, r: Option<Read>)
    ensures Before(a, n, Before(b, m, r)) == Before(a + b, n + m, r)
  {
    if r.Some? {
      assert a + (b + r.value.cond) == a + b + r.value.cond;
    }
  }

  lemma {:induction false} ApplyTwice(env: Env, a: seq<Text>, b: seq<Text>)
    ensures ApplyAll(env, a + b) == ApplyAll(ApplyAll(env, a), b)
    decreases |a|
  {
    if a == [] {
      assert a + b == b;
    } else {
      assert (a + b)[1..] == a[1..] + b;
      ApplyTwice(ApplyPragma(env, a[0]), a[1..], b);
    }
  }

  lemma ApplyJust(env: Env, s: Text)
    ensures PragmaLen(s).Some? ==> ApplyAll(env, [s[..PragmaLen(s).value]]) == ApplyPragma(env, s[..PragmaLen(s).value])
  {
    hide PragmaLen;
    if PragmaLen(s).Some? {
      var b := s[..PragmaLen(s).value];
      assert [b][1..] == [];
      assert ApplyAll(ApplyPragma(env, b), []) == ApplyPragma(env, b);
    }
  }

  method PreprocessSource(src: Text, env: Env) returns (r: Option<Text>)
    ensures r == Preprocess(src, env)
  {
    if '%' !in src {
      return Some(src);
    }
    var p := new Preproc(src, env);
    var ok := p.Run();
    r := if ok then Some(p.out) else None;
  }
}
