/** What the parts of a source are, told of their spelling: comments, strings, pragmas and
    directives, and what a version pragma makes true. */
module PreLaws {
  import opened Ir
  import opened Directive
  import opened PreSpec
  import opened PreLayout

  // ---- Lines and strings ------------------------------------------------------------------------

  lemma {:induction false} LineEnds(t: Text, rest: Text)
    requires '\n' !in t
    ensures LineLen(t + ("\n" + rest)) == |t| + 1
    decreases |t|
  {
    var s := t + ("\n" + rest);
    if t != [] {
      assert s[1..] == t[1..] + ("\n" + rest);
      LineEnds(t[1..], rest);
    }
  }

  /** Two slashes begin a comment that ends with its line. */
  lemma LineCommentIsScanned(t: Text, rest: Text)
    requires '\n' !in t
    ensures First("//" + t + "\n" + rest) == Some(Plain("//" + t + "\n", []))
  {
    hide LineLen, CommentLen;
    var s := "//" + t + "\n" + rest;
    assert s == ("//" + t) + ("\n" + rest);
    LineEnds("//" + t, rest);
    assert s[..|t| + 3] == "//" + t + "\n";
  }

  lemma {:induction false} StringEnds(t: Text, q: char, rest: Text)
    requires q !in t && '\n' !in t && q != '\n'
    ensures StringLen(t + ([q] + rest), q) == Some(|t| + 1)
    ensures StringLen(t + ("\n" + rest), q).None? && StringLen(t, q).None?
    decreases |t|
  {
    if t != [] {
      assert (t + ([q] + rest))[1..] == t[1..] + ([q] + rest) && (t + ("\n" + rest))[1..] == t[1..] + ("\n" + rest);
      StringEnds(t[1..], q, rest);
    }
  }

  /** A string goes from a quote to the next one like it, in one line; else there is none. */
  lemma StringIsScanned(q: char, t: Text, rest: Text)
    requires (q == '"' || q == '\'') && q !in t && '\n' !in t
    ensures First([q] + t + [q] + rest) == Some(Plain([q] + t + [q], []))
    ensures First([q] + t + "\n" + rest).None? && First([q] + t).None?
  {
    hide StringLen;
    var s := [q] + t + [q] + rest;
    assert s[1..] == t + ([q] + rest);
    assert ([q] + t + "\n" + rest)[1..] == t + ("\n" + rest);
    assert ([q] + t)[1..] == t;
    StringEnds(t, q, rest);
    assert s[..|t| + 2] == [q] + t + [q];
  }

  // ---- Pragmas ------------------------------------------------------------------------------------

  ghost predicate NoClose(b: Text, c: char) {
    forall i :: 0 <= i < |b| - 1 ==> !(b[i] == '*' && b[i + 1] == c)
  }

  lemma NoCloseTail(b: Text, c: char)
    requires NoClose(b, c) && b != []
    ensures NoClose(b[1..], c)
  {
    forall i | 0 <= i < |b[1..]| - 1
      ensures !(b[1..][i] == '*' && b[1..][i + 1] == c)
    {
      assert b[1..][i] == b[i + 1] && b[1..][i + 1] == b[i + 2];
    }
  }

  lemma {:induction false} PragmaEndsThere(b: Text, rest: Text)
    requires NoClose(b, '>')
    ensures PragmaLen(b + ("*>" + rest)) == Some(|b|)
    decreases |b|
  {
    var s := b + ("*>" + rest);
    if b != [] {
      assert s[1..] == b[1..] + ("*>" + rest);
      assert |b| == 1 ==> s[1] == '*';
      NoCloseTail(b, '>');
      PragmaEndsThere(b[1..], rest);
    }
  }

  /** A pragma goes up to its first close, and is kept with its body. */
  lemma PragmaIsScanned(b: Text, rest: Text)
    requires NoClose(b, '>')
    ensures First("<*" + b + "*>" + rest) == Some(Plain("<*" + b + "*>", [b]))
  {
    hide PragmaLen;
    var s := "<*" + b + "*>" + rest;
    assert s[2..] == b + ("*>" + rest);
    PragmaEndsThere(b, rest);
    assert s[2..][..|b|] == b && s[..|b| + 4] == "<*" + b + "*>";
  }

  // ---- Comments in comments -----------------------------------------------------------------------

  /** What is in a comment: characters, comments, pragmas. */
  datatype Note = Letter(c: char) | Inner(notes: seq<Note>) | Remark(body: Text)

  ghost predicate WfNote(n: Note)
    decreases n
  {
    match n
    case Letter(c) => c != '(' && c != '*' && c != '<'
    case Inner(notes) => forall m :: m in notes ==> WfNote(m)
    case Remark(b) => NoClose(b, '>') && NoClose(b + "*", ')')
  }

  function NoteText(n: Note): Text
    decreases n
  {
    match n
    case Letter(c) => [c]
    case Inner(notes) => "(*" + (NotesText(notes) + "*)")
    case Remark(b) => "<*" + (b + "*>")
  }

  function NotesText(notes: seq<Note>): Text
    decreases notes
  {
    if notes == [] then [] else NoteText(notes[0]) + NotesText(notes[1..])
  }

  function NotePragmas(n: Note): seq<Text>
    decreases n
  {
    match n
    case Letter(_) => []
    case Inner(notes) => NotesPragmas(notes)
    case Remark(b) => [b]
  }

  function NotesPragmas(notes: seq<Note>): seq<Text>
    decreases notes
  {
    if notes == [] then [] else NotePragmas(notes[0]) + NotesPragmas(notes[1..])
  }

  lemma LongerTwice(a: nat, p: seq<Text>, b: nat, q: seq<Text>, r: Option<Comment>)
    ensures Longer(a, p, Longer(b, q, r)) == Longer(a + b, p + q, r)
  {
    if r.Some? {
      assert p + (q + r.value.pragmas) == p + q + r.value.pragmas;
    }
  }

  lemma LongerNone(r: Option<Comment>)
    ensures Longer(0, [], r) == r
  {
    if r.Some? {
      assert [] + r.value.pragmas == r.value.pragmas;
    }
  }

  lemma {:induction false} NotesScan(notes: seq<Note>, depth: nat, tail: Text)
    requires depth > 0 && forall m :: m in notes ==> WfNote(m)
    ensures CommentLen(NotesText(notes) + tail, depth) == Longer(|NotesText(notes)|, NotesPragmas(notes), CommentLen(tail, depth))
    decreases notes
  {
    hide CommentLen, Longer, NoteText, NotePragmas;
    if notes == [] {
      assert NotesText(notes) + tail == tail;
      LongerNone(CommentLen(tail, depth));
    } else {
      var more := NotesText(notes[1..]);
      assert notes[0] in notes;
      assert NotesText(notes) + tail == NoteText(notes[0]) + (more + tail);
      NoteScans(notes[0], depth, more + tail);
      NotesScan(notes[1..], depth, tail);
      LongerTwice(|NoteText(notes[0])|, NotePragmas(notes[0]), |more|, NotesPragmas(notes[1..]), CommentLen(tail, depth));
    }
  }

  lemma {:induction false} NoteScans(n: Note, depth: nat, tail: Text)
    requires depth > 0 && WfNote(n)
    ensures CommentLen(NoteText(n) + tail, depth) == Longer(|NoteText(n)|, NotePragmas(n), CommentLen(tail, depth))
    decreases n
  {
    hide CommentLen, Longer, NotesText, NotesPragmas;
    match n
    case Letter(c) => LetterScans(c, depth, tail);
    case Remark(b) => RemarkScans(b, depth, tail);
    case Inner(notes) =>
      var body := NotesText(notes);
      var close := "*)" + tail;
      assert NoteText(n) + tail == "(*" + (body + close);
      OpenScans(depth, body + close);
      NotesScan(notes, depth + 1, close);
      CloseScans(depth + 1, tail);
      LongerTwice(|body|, NotesPragmas(notes), 2, [], CommentLen(tail, depth));
      LongerTwice(2, [], |body| + 2, NotesPragmas(notes) + [], CommentLen(tail, depth));
      assert [] + (NotesPragmas(notes) + []) == NotesPragmas(notes);
  }

  lemma LetterScans(c: char, depth: nat, tail: Text)
    requires depth > 0 && WfNote(Letter(c))
    ensures CommentLen([c] + tail, depth) == Longer(1, [], CommentLen(tail, depth))
  {
    assert ([c] + tail)[1..] == tail;
  }

  lemma OpenScans(depth: nat, tail: Text)
    requires depth > 0
    ensures CommentLen("(*" + tail, depth) == Longer(2, [], CommentLen(tail, depth + 1))
  {
    assert ("(*" + tail)[2..] == tail;
  }

  lemma CloseScans(depth: nat, tail: Text)
    requires depth > 0
    ensures CommentLen("*)" + tail, depth) == Longer(2, [], CommentLen(tail, depth - 1))
  {
    assert ("*)" + tail)[2..] == tail;
  }

  lemma {:induction false} PragmaFirst(b: Text, tail: Text)
    requires NoClose(b + "*", ')')
    ensures ClosesFirst(b + ("*>" + tail))
    decreases |b|
  {
    var s := b + ("*>" + tail);
    if b != [] {
      assert s[1..] == b[1..] + ("*>" + tail);
      assert (b + "*")[1..] == b[1..] + "*";
      NoCloseTail(b + "*", ')');
      PragmaFirst(b[1..], tail);
      assert (b + "*")[0] == s[0] && (b + "*")[1] == s[1];
    }
  }

  lemma RemarkScans(b: Text, depth: nat, tail: Text)
    requires depth > 0 && WfNote(Remark(b))
    ensures CommentLen("<*" + (b + "*>") + tail, depth) == Longer(|b| + 4, [b], CommentLen(tail, depth))
  {
    hide PragmaLen, ClosesFirst;
    var s := "<*" + (b + "*>") + tail;
    assert s[2..] == b + ("*>" + tail);
    PragmaFirst(b, tail);
    PragmaEndsThere(b, tail);
    assert s[2..][..|b|] == b && s[2..][|b| + 2..] == tail;
  }

  /** A comment ends where all comments in it have ended, and keeps the pragmas in it. */
  lemma CommentIsScanned(notes: seq<Note>, rest: Text)
    requires forall m :: m in notes ==> WfNote(m)
    ensures First("(*" + NotesText(notes) + "*)" + rest) == Some(Plain("(*" + NotesText(notes) + "*)", NotesPragmas(notes)))
    ensures First("(*" + NotesText(notes)).None?
  {
    hide CommentLen, WfNote, NotesText, NotesPragmas;
    var t := NotesText(notes);
    var s := "(*" + t + "*)" + rest;
    assert s[2..] == t + ("*)" + rest) && ("(*" + t)[2..] == t + [];
    NotesScan(notes, 1, "*)" + rest);
    CloseScans(1, rest);
    LongerTwice(|t|, NotesPragmas(notes), 2, [], CommentLen(rest, 0));
    NothingLeft(rest);
    assert NotesPragmas(notes) + [] + [] == NotesPragmas(notes);
    assert s[..|t| + 4] == "(*" + t + "*)";
    NotesScan(notes, 1, []);
  }

  lemma NothingLeft(rest: Text)
    ensures CommentLen(rest, 0) == Some(Comment(0, [])) && CommentLen([], 1).None?
  {
  }

  // ---- Directives ---------------------------------------------------------------------------------

  /** %ELSE and %END are themselves; %ELSIF takes a condition as %IF does; and no other
      word behind a percent sign is anything. */
  lemma WordsOfDirectives(c: Cond, rest: Text)
    requires WfCond(c) && (rest == [] || !IsLetter(rest[0]))
    ensures First("%ELSE" + rest) == Some(Else("%ELSE")) && First("%END" + rest) == Some(End("%END"))
    ensures var s := "%ELSIF " + Spelled(c, 0) + "%THEN"; First(s + rest) == Some(Elsif(s, " " + Printed(c, 0)))
  {
    hide ReadExpr, First, Printed, Spelled;
    assert rest == [] || !IsAlpha(rest[0]);
    var body := " " + Spelled(c, 0);
    ConditionReads(c, rest);
    ElsifReads(body, " " + Printed(c, 0), rest);
    assert "%ELSIF " + Spelled(c, 0) + "%THEN" == "%ELSIF" + (body + "%THEN");
    assert "%ELSIF" + (body + "%THEN") + rest == "%ELSIF" + (body + "%THEN" + rest);
    WordReads("ELSE", rest);
    WordReads("END", rest);
  }

  lemma ElsifReads(body: Text, cond: Text, rest: Text)
    requires body != [] && body[0] == ' '
    requires ReadExpr(body + "%THEN" + rest) == Some(Read(cond, |body| + 5))
    ensures First("%ELSIF" + (body + "%THEN" + rest)) == Some(Elsif("%ELSIF" + (body + "%THEN"), cond))
  {
    hide ReadExpr;
    var tail := body + "%THEN" + rest;
    var t := "%ELSIF" + tail;
    assert t[1..] == "ELSIF" + tail;
    AlphaThen("ELSIF", tail);
    assert t[1..][..5] == "ELSIF" && t[6..] == tail;
    assert t[..6 + (|body| + 5)] == "%ELSIF" + (body + "%THEN");
  }

  lemma WordReads(w: Text, rest: Text)
    requires (w == "ELSE" || w == "END") && (rest == [] || !IsAlpha(rest[0]))
    ensures First("%" + w + rest) == Some(if w == "ELSE" then Else("%" + w) else End("%" + w))
    ensures "%" + w == (if w == "ELSE" then "%ELSE" else "%END")
  {
    hide ReadExpr;
    var t := "%" + w + rest;
    assert t[1..] == w + rest;
    AlphaThen(w, rest);
    assert t[1..][..|w|] == w && t[..|w| + 1] == "%" + w;
  }

  lemma OtherWords(w: Text, rest: Text)
    requires (forall i :: 0 <= i < |w| ==> IsLetter(w[i])) && (rest == [] || !IsLetter(rest[0]))
    requires w != "IF" && w != "ELSIF" && w != "ELSE" && w != "END"
    ensures First("%" + w + rest).None?
  {
    hide ReadExpr;
    var t := "%" + w + rest;
    assert t[1..] == w + rest;
    AlphaThen(w, rest);
    assert t[1..][..|w|] == w;
  }

  /** A condition ends with %THEN only, and has no other words behind percent signs than
      its operators; else it is rejected. */
  lemma {:induction false} BrokenConditions(t: Text, w: Text, rest: Text)
    requires '%' !in t && (forall i :: 0 <= i < |w| ==> IsLetter(w[i])) && (rest == [] || !IsLetter(rest[0]))
    requires w != "THEN" && w != "AND" && w != "OR" && w != "NOT"
    ensures ReadExpr(t).None? && ReadExpr(t + ("%" + w + rest)).None?
    decreases |t|
  {
    var s := t + ("%" + w + rest);
    if t == [] {
      assert s == "%" + w + rest && s[1..] == w + rest;
      AlphaThen(w, rest);
      assert s[1..][..|w|] == w;
    } else {
      assert s[1..] == t[1..] + ("%" + w + rest);
      BrokenConditions(t[1..], w, rest);
    }
  }

  // ---- Versions -----------------------------------------------------------------------------------

  /** Names with commas between them. */
  function Listed(names: seq<Text>): Text {
    if names == [] then [] else if |names| == 1 then names[0] else names[0] + ("," + Listed(names[1..]))
  }

  lemma NoTrim(s: Text)
    requires s != [] && '!' <= s[0] <= '~' && '!' <= s[|s| - 1] <= '~'
    ensures Trim(s) == s
  {
  }

  lemma NameChars(n: Text)
    requires IsNameText(n)
    ensures forall i :: 0 <= i < |n| ==> '!' <= n[i] <= '~' && n[i] != ','
  {
  }

  lemma {:induction false} FindComma(s: Text, rest: Text)
    requires forall i :: 0 <= i < |s| ==> s[i] != ','
    ensures Find(',', s + ("," + rest)) == Some(|s|) && Find(',', s).None?
    decreases |s|
  {
    if s != [] {
      assert (s + ("," + rest))[1..] == s[1..] + ("," + rest);
      FindComma(s[1..], rest);
    }
  }

  /** White space of ASCII around a text does not matter. */
  lemma BlanksAround(c: char, s: Text)
    requires c == ' ' || '\t' <= c <= '\r'
    ensures Trim([c] + s) == Trim(s) && Trim(s + [c]) == Trim(s)
  {
    assert ([c] + s)[1..] == s;
    BlankBehind(c, s);
    var t := TrimStart(s);
    if t == [] {
      assert TrimEnd([]) == [];
    } else {
      assert (t + [c])[..|t|] == t;
      assert (t + [c])[|t|] == c;
    }
  }

  lemma {:induction false} BlankBehind(c: char, s: Text)
    requires c == ' ' || '\t' <= c <= '\r'
    ensures TrimStart(s + [c]) == if TrimStart(s) == [] then [] else TrimStart(s) + [c]
    decreases |s|
  {
    var t := s + [c];
    if s == [] {
      assert t == [c] && t[1..] == [];
      assert BlankAt(t, 0, 1);
    } else {
      assert forall i :: 0 <= i < |s| ==> t[i] == s[i];
      assert BlankAt(t, 0, 1) == BlankAt(s, 0, 1);
      assert BlankAt(t, 0, 2) == BlankAt(s, 0, 2);
      assert BlankAt(t, 0, 3) == BlankAt(s, 0, 3);
      assert t[1..] == s[1..] + [c];
      if BlankAt(s, 0, 1) {
        BlankBehind(c, s[1..]);
      } else if BlankAt(s, 0, 2) {
        assert t[2..] == s[2..] + [c];
        BlankBehind(c, s[2..]);
      } else if BlankAt(s, 0, 3) {
        assert t[3..] == s[3..] + [c];
        BlankBehind(c, s[3..]);
      }
    }
  }

  /** `more` is `env` with these names made true, and nothing else. */
  ghost predicate MadeTrue(env: Env, names: seq<Text>, more: Env) {
    && (forall x :: x in more <==> x in env || x in names)
    && (forall x :: x in names ==> more[x] == "true")
    && (forall x :: x in env && x !in names ==> more[x] == env[x])
  }

  lemma {:induction false} ListIsDefined(env: Env, names: seq<Text>)
    requires names != [] && forall n :: n in names ==> IsNameText(n)
    ensures MadeTrue(env, names, DefineNames(env, Listed(names)))
    decreases |names|
  {
    hide Trim, Find, IsNameText;
    var n := names[0];
    assert n in names;
    OneName(n);
    if |names| == 1 {
      FindComma(n, []);
      assert names == [n];
    } else {
      hide MadeTrue;
      var rest := Listed(names[1..]);
      FirstOfList(env, n, rest);
      assert forall m :: m in names[1..] ==> m in names;
      ListIsDefined(env[n := "true"], names[1..]);
      assert names == [n] + names[1..];
      OneMoreTrue(env, n, names[1..], DefineNames(env[n := "true"], rest));
    }
  }

  lemma FirstOfList(env: Env, n: Text, rest: Text)
    requires n != [] && Trim(n) == n && forall i :: 0 <= i < |n| ==> n[i] != ','
    ensures DefineNames(env, n + ("," + rest)) == DefineNames(env[n := "true"], rest)
  {
    hide Trim, Find;
    FindComma(n, rest);
    assert (n + ("," + rest))[..|n|] == n && (n + ("," + rest))[|n| + 1..] == rest;
  }

  lemma OneMoreTrue(env: Env, n: Text, names: seq<Text>, more: Env)
    requires MadeTrue(env[n := "true"], names, more)
    ensures MadeTrue(env, [n] + names, more)
  {
  }

  lemma OneName(n: Text)
    requires IsNameText(n)
    ensures n != [] && Trim(n) == n && forall i :: 0 <= i < |n| ==> n[i] != ','
  {
    hide Trim;
    NameChars(n);
    NoTrim(n);
  }

  /** A version pragma makes the names in its list true, and changes no others. */
  lemma VersionsAreDefined(env: Env, prefix: Text, names: seq<Text>)
    requires prefix in ["/VERSION:", "/VALIDVERSION:", "/VALIDVER:"]
    requires names != [] && forall n :: n in names ==> IsNameText(n)
    ensures MadeTrue(env, names, ApplyPragma(env, prefix + Listed(names)))
  {
    hide Trim, DefineNames, Listed, IsNameText, MadeTrue;
    var list := Listed(names);
    var t := prefix + list;
    ListEnds(names);
    assert t[|t| - 1] == list[|list| - 1] && t[0] == '/';
    NoTrim(t);
    ListIsDefined(env, names);
    assert t[|prefix|..] == list;
    Prefixes(prefix, list);
  }

  lemma Prefixes(prefix: Text, list: Text)
    requires prefix in ["/VERSION:", "/VALIDVERSION:", "/VALIDVER:"]
    ensures "/VERSION:" <= prefix + list <==> prefix == "/VERSION:"
    ensures "/VALIDVERSION:" <= prefix + list <==> prefix == "/VALIDVERSION:"
    ensures "/VALIDVER:" <= prefix + list <==> prefix == "/VALIDVER:"
  {
    var t := prefix + list;
    assert prefix == "/VERSION:" ==> t[2] == 'E';
    assert prefix == "/VALIDVERSION:" ==> t[2] == 'A' && t[9] == 'S';
    assert prefix == "/VALIDVER:" ==> t[2] == 'A' && t[9] == ':';
  }

  lemma {:induction false} ListEnds(names: seq<Text>)
    requires names != [] && forall n :: n in names ==> IsNameText(n)
    ensures Listed(names) != [] && '!' <= Listed(names)[|Listed(names)| - 1] <= '~'
    decreases |names|
  {
    assert names[0] in names;
    NameChars(names[0]);
    if |names| > 1 {
      assert forall m :: m in names[1..] ==> m in names;
      ListEnds(names[1..]);
    }
  }

  /** Any other pragma changes nothing. */
  lemma OtherPragmas(env: Env, body: Text)
    requires body != [] && '!' <= body[0] <= '~' && body[0] != '/' && '!' <= body[|body| - 1] <= '~'
    ensures ApplyPragma(env, body) == env
  {
    hide Trim;
    NoTrim(body);
  }
}
