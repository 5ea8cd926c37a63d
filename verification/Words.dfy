/** Requests as words: quoted, sent, received and split again. */
module Words {
  import opened Ir
  import opened Server
  import opened Lossy

  /** White space as Unicode has it. */
  predicate IsWhite(c: char) {
    var n := c as int;
    9 <= n <= 13 || n == 0x20 || n == 0x85 || n == 0xA0 || n == 0x1680 || 0x2000 <= n <= 0x200A || n == 0x2028 || n == 0x2029 || n == 0x202F || n == 0x205F || n == 0x3000
  }

  datatype Word = Word(text: Text, rest: Text)

  function Join(a: Text, w: Word): Word { Word(a + w.text, w.rest) }

  function SkipWhite(s: Text): (r: Text)
    ensures |r| <= |s| && (r != [] ==> !IsWhite(r[0]))
  {
    if s != [] && IsWhite(s[0]) then SkipWhite(s[1..]) else s
  }

  function Quoted(s: Text): (r: Word)
    ensures |r.rest| <= |s|
  {
    if s == [] then Word([], [])
    else if s[0] == '"' then Word([], s[1..])
    else Join([s[0]], Quoted(s[1..]))
  }

  function Braced(s: Text, depth: nat): (r: Word)
    ensures |r.rest| <= |s|
  {
    if s == [] || depth == 0 then Word([], s)
    else if s[0] == '{' then Join("{", Braced(s[1..], depth + 1))
    else if s[0] == '}' then Join(if depth > 1 then "}" else [], Braced(s[1..], depth - 1))
    else Join([s[0]], Braced(s[1..], depth))
  }

  function Bare(s: Text): (r: Word)
    ensures |r.rest| <= |s|
  {
    if s == [] || IsWhite(s[0]) then Word([], s) else Join([s[0]], Bare(s[1..]))
  }

  function OneWord(s: Text): (r: Word)
    requires s != [] && !IsWhite(s[0])
    ensures |r.rest| < |s|
  {
    if s[0] == '"' then Quoted(s[1..])
    else if s[0] == '{' then Braced(s[1..], 1)
    else Join([s[0]], Bare(s[1..]))
  }

  function WordsOf(s: Text): seq<Text>
    decreases |s|
  {
    var t := SkipWhite(s);
    if t == [] then [] else [OneWord(t).text] + WordsOf(OneWord(t).rest)
  }

  /** From behind the opening quote. */
  method ReadQuoted(cs: Text, from: nat) returns (w: Text, i: nat)
    requires from <= |cs|
    ensures i <= |cs| && Word(w, cs[i..]) == Quoted(cs[from..])
  {
    w, i := [], from;
    while i < |cs| && cs[i] != '"'
      invariant i <= |cs| && Quoted(cs[from..]) == Join(w, Quoted(cs[i..]))
    {
      assert cs[i..][1..] == cs[i + 1..];
      w := w + [cs[i]];
      i := i + 1;
    }
    if i < |cs| {
      assert cs[i..][1..] == cs[i + 1..];
      i := i + 1;
    }
  }

  lemma BracedStep(s: Text, depth: nat, w: Text)
    requires s != [] && depth > 0
    ensures Join(w, Braced(s, depth)) ==
            if s[0] == '{' then Join(w + "{", Braced(s[1..], depth + 1))
            else if s[0] == '}' then Join(if depth > 1 then w + "}" else w, Braced(s[1..], depth - 1))
            else Join(w + [s[0]], Braced(s[1..], depth))
  {
    var c := s[0];
    var piece := if c == '}' && depth == 1 then [] else [c];
    var rest := Braced(s[1..], if c == '{' then depth + 1 else if c == '}' then depth - 1 else depth);
    assert Braced(s, depth) == Join(piece, rest);
    assert w + (piece + rest.text) == w + piece + rest.text && w + [] == w;
  }

  lemma BracedEnds(s: Text, depth: nat, w: Text)
    requires s == [] || depth == 0
    ensures Join(w, Braced(s, depth)) == Word(w, s)
  {
    assert w + [] == w;
  }

  /** From behind the opening brace. */
  method ReadBraced(cs: Text, from: nat) returns (w: Text, i: nat)
    requires from <= |cs|
    ensures i <= |cs| && Word(w, cs[i..]) == Braced(cs[from..], 1)
  {
    hide Braced;
    w, i := [], from;
    var depth: nat := 1;
    while i < |cs| && depth > 0
      invariant i <= |cs| && Braced(cs[from..], 1) == Join(w, Braced(cs[i..], depth))
      decreases |cs| - i
    {
      assert cs[i..][1..] == cs[i + 1..];
      BracedStep(cs[i..], depth, w);
      if cs[i] == '{' {
        depth := depth + 1;
        w := w + "{";
      } else if cs[i] == '}' {
        depth := depth - 1;
        if depth > 0 {
          w := w + "}";
        }
      } else {
        w := w + [cs[i]];
      }
      i := i + 1;
    }
    BracedEnds(cs[i..], depth, w);
  }

  method ReadBare(cs: Text, from: nat) returns (w: Text, i: nat)
    requires from <= |cs|
    ensures i <= |cs| && Word(w, cs[i..]) == Bare(cs[from..])
  {
    w, i := [], from;
    while i < |cs| && !IsWhite(cs[i])
      invariant i <= |cs| && Bare(cs[from..]) == Join(w, Bare(cs[i..]))
    {
      assert cs[i..][1..] == cs[i + 1..];
      w := w + [cs[i]];
      i := i + 1;
    }
  }

  /** The words of a line, one after the other. */
  method ReadWords(cs: Text) returns (words: seq<Text>)
    ensures words == WordsOf(cs)
  {
    hide WordsOf, IsWhite, Braced, Quoted;
    words := [];
    var i := 0;
    while i < |cs|
      invariant 0 <= i <= |cs| && WordsOf(cs) == words + WordsOf(cs[i..])
    {
      ghost var from := cs[i..];
      i := SkipSpaces(cs, i);
      if i >= |cs| {
        NoMoreWords(from);
        break;
      }
      ghost var start := cs[i..];
      var w;
      assert start[1..] == cs[i + 1..];
      if cs[i] == '"' {
        w, i := ReadQuoted(cs, i + 1);
      } else if cs[i] == '{' {
        w, i := ReadBraced(cs, i + 1);
      } else {
        w, i := ReadBare(cs, i);
      }
      NextWord(from, words);
      words := words + [w];
    }
    NoMoreWords(cs[i..]);
  }

  method SkipSpaces(cs: Text, from: nat) returns (i: nat)
    requires from <= |cs|
    ensures from <= i <= |cs| && cs[i..] == SkipWhite(cs[from..])
  {
    i := from;
    while i < |cs| && IsWhite(cs[i])
      invariant from <= i <= |cs| && SkipWhite(cs[from..]) == SkipWhite(cs[i..])
    {
      assert cs[i..][1..] == cs[i + 1..];
      i := i + 1;
    }
  }

  lemma NoMoreWords(s: Text)
    ensures SkipWhite(s) == [] ==> WordsOf(s) == []
  {
  }

  lemma NextWord(s: Text, before: seq<Text>)
    requires SkipWhite(s) != []
    ensures var w := OneWord(SkipWhite(s)); before + WordsOf(s) == before + [w.text] + WordsOf(w.rest)
  {
    hide OneWord;
  }

  // ---- Quoting ----------------------------------------------------------------------------------

  /** Every closing brace has its opening one, and the other way round. */
  predicate Balanced(s: Text, open: nat)
    decreases |s|
  {
    if s == [] then open == 0
    else if s[0] == '{' then Balanced(s[1..], open + 1)
    else if s[0] == '}' then open > 0 && Balanced(s[1..], open - 1)
    else Balanced(s[1..], open)
  }

  function Quote(w: Text): Text { "{" + w + "}" }

  function QuoteAll(ws: seq<Text>): Text {
    if ws == [] then [] else Quote(ws[0]) + (" " + QuoteAll(ws[1..]))
  }

  lemma {:induction false} BracedBack(w: Text, open: nat, rest: Text)
    requires Balanced(w, open)
    ensures Braced(w + ("}" + rest), open + 1) == Word(w, rest)
    decreases |w|
  {
    var s := w + ("}" + rest);
    if w == [] {
      assert s == "}" + rest && s[1..] == rest;
    } else {
      assert s[1..] == w[1..] + ("}" + rest) && s[0] == w[0];
      var open2 := if w[0] == '{' then open + 1 else if w[0] == '}' then open - 1 else open;
      BracedBack(w[1..], open2, rest);
      assert [w[0]] + w[1..] == w;
    }
  }

  /** A word that is not balanced ends early, or takes more than itself. */
  lemma {:induction false} BracedLost(w: Text, open: nat)
    requires !Balanced(w, open)
    ensures Braced(w + "}", open + 1) != Word(w, [])
    decreases |w|
  {
    var s := w + "}";
    if w == [] {
      assert s == "}" && s[1..] == [];
      assert Braced([], open) == Word([], []);
    } else {
      assert s[1..] == w[1..] + "}" && s[0] == w[0];
      if w[0] == '}' && open == 0 {
        assert Braced(s[1..], 0) == Word([], s[1..]);
      } else {
        var open2 := if w[0] == '{' then open + 1 else if w[0] == '}' then open - 1 else open;
        BracedLost(w[1..], open2);
        var r := Braced(s[1..], open2 + 1);
        assert Braced(s, open + 1) == Join([w[0]], r);
        JoinSame(w, r);
      }
    }
  }

  lemma JoinSame(w: Text, r: Word)
    requires w != [] && r != Word(w[1..], [])
    ensures Join([w[0]], r) != Word(w, [])
  {
    assert ([w[0]] + r.text)[1..] == r.text;
  }

  /** A word in braces is read as the word exactly when its braces are balanced. */
  lemma QuoteBackIff(w: Text)
    ensures WordsOf(Quote(w)) == [w] <==> Balanced(w, 0)
  {
    hide Braced, Balanced;
    var s := Quote(w);
    assert SkipWhite(s) == s && s[1..] == w + "}";
    assert OneWord(s) == Braced(w + "}", 1);
    var r := Braced(w + "}", 1);
    if Balanced(w, 0) {
      assert "}" + [] == "}";
      BracedBack(w, 0, []);
      assert WordsOf([]) == [];
    } else {
      BracedLost(w, 0);
      BracedCounts(w + "}", 1);
    }
    OnlyWord(r, w);
  }

  lemma OnlyWord(r: Word, w: Text)
    requires r.text == w ==> r.rest == []
    ensures [r.text] + WordsOf(r.rest) == [w] <==> r == Word(w, [])
  {
    assert ([r.text] + WordsOf(r.rest))[0] == r.text;
    if r == Word(w, []) {
      assert WordsOf([]) == [];
      assert [w] + [] == [w];
    }
  }

  /** What is left begins behind a brace that is not part of the word. */
  lemma {:induction false} BracedCounts(s: Text, depth: nat)
    requires depth > 0
    ensures var r := Braced(s, depth); r.rest != [] ==> |r.text| + 1 + |r.rest| == |s|
    decreases |s|
  {
    if s != [] {
      var depth2 := if s[0] == '{' then depth + 1 else if s[0] == '}' then depth - 1 else depth;
      if depth2 > 0 {
        BracedCounts(s[1..], depth2);
      }
    }
  }

  /** Words in braces, side by side, are read as the words they were. */
  lemma {:induction false} QuoteAllBack(ws: seq<Text>)
    requires forall w :: w in ws ==> Balanced(w, 0)
    ensures WordsOf(QuoteAll(ws)) == ws
    decreases |ws|
  {
    hide Braced, Balanced, Quoted, Bare;
    if ws != [] {
      var (w, more) := (ws[0], QuoteAll(ws[1..]));
      assert w in ws;
      var s := QuoteAll(ws);
      assert s[1..] == w + ("}" + (" " + more)) && SkipWhite(s) == s;
      BracedBack(w, 0, " " + more);
      assert (" " + more)[1..] == more;
      SpaceFirst(more);
      QuoteAllBack(ws[1..]);
      assert [w] + ws[1..] == ws;
    }
  }

  lemma SpaceFirst(s: Text)
    ensures WordsOf(" " + s) == WordsOf(s)
  {
    hide OneWord;
    assert (" " + s)[1..] == s;
    assert SkipWhite(" " + s) == SkipWhite(s);
  }

  // ---- Words spelled any way ------------------------------------------------------------------------

  /** A word in braces, in quotes, or bare. */
  datatype Spelled = Braces(w: Text) | Quotes(w: Text) | Plain(w: Text)

  /** The white space of Unicode, by its numbers. */
  ghost predicate Separates(c: char) {
    c as int in {9, 10, 11, 12, 13, 32, 0x85, 0xA0, 0x1680, 0x2028, 0x2029, 0x202F, 0x205F, 0x3000} || '\U{2000}' <= c <= '\U{200A}'
  }

  ghost predicate WfSpelled(p: Spelled) {
    match p
    case Braces(w) => Balanced(w, 0)
    case Quotes(w) => '"' !in w
    case Plain(w) => w != [] && w[0] != '"' && w[0] != '{' && forall i :: 0 <= i < |w| ==> !Separates(w[i])
  }

  function Spelling(p: Spelled): Text {
    match p
    case Braces(w) => "{" + w + "}"
    case Quotes(w) => "\"" + w + "\""
    case Plain(w) => w
  }

  /** The words side by side, each with `c` behind it. */
  function Line(ps: seq<Spelled>, c: char): Text {
    if ps == [] then [] else Spelling(ps[0]) + ([c] + Line(ps[1..], c))
  }

  lemma {:induction false} QuotesBack(w: Text, rest: Text)
    requires '"' !in w
    ensures Quoted(w + ("\"" + rest)) == Word(w, rest)
    decreases |w|
  {
    var s := w + ("\"" + rest);
    if w == [] {
      assert s == "\"" + rest && s[1..] == rest;
    } else {
      assert s[1..] == w[1..] + ("\"" + rest) && s[0] == w[0];
      QuotesBack(w[1..], rest);
      assert [w[0]] + w[1..] == w;
    }
  }

  lemma {:induction false} BareBack(w: Text, c: char, rest: Text)
    requires Separates(c) && forall i :: 0 <= i < |w| ==> !Separates(w[i])
    ensures Bare(w + ([c] + rest)) == Word(w, [c] + rest)
    decreases |w|
  {
    var s := w + ([c] + rest);
    if w == [] {
      assert s == [c] + rest;
    } else {
      assert s[1..] == w[1..] + ([c] + rest) && s[0] == w[0];
      BareBack(w[1..], c, rest);
      assert [w[0]] + w[1..] == w;
    }
  }

  lemma OneWordBack(p: Spelled, c: char, rest: Text)
    requires WfSpelled(p) && Separates(c)
    ensures var s := Spelling(p) + ([c] + rest); s != [] && !IsWhite(s[0]) && OneWord(s) == Word(p.w, [c] + rest)
  {
    hide OneWord, IsWhite, Separates, Balanced;
    match p
    case Braces(w) => BracesBack(w, [c] + rest);
    case Quotes(w) => InQuotesBack(w, [c] + rest);
    case Plain(w) => PlainBack(w, c, rest);
  }

  lemma BracesBack(w: Text, rest: Text)
    requires Balanced(w, 0)
    ensures var s := "{" + w + "}" + rest; !IsWhite(s[0]) && OneWord(s) == Word(w, rest)
  {
    hide Braced, Quoted, Bare, Balanced;
    var s := "{" + w + "}" + rest;
    assert s[1..] == w + ("}" + rest);
    BracedBack(w, 0, rest);
  }

  lemma InQuotesBack(w: Text, rest: Text)
    requires '"' !in w
    ensures var s := "\"" + w + "\"" + rest; !IsWhite(s[0]) && OneWord(s) == Word(w, rest)
  {
    hide Braced, Quoted, Bare;
    var s := "\"" + w + "\"" + rest;
    assert s[1..] == w + ("\"" + rest);
    QuotesBack(w, rest);
  }

  lemma PlainBack(w: Text, c: char, rest: Text)
    requires WfSpelled(Plain(w)) && Separates(c)
    ensures var s := w + ([c] + rest); !IsWhite(s[0]) && OneWord(s) == Word(w, [c] + rest)
  {
    hide Braced, Quoted, Bare;
    var s := w + ([c] + rest);
    assert s[1..] == w[1..] + ([c] + rest);
    assert forall i :: 0 <= i < |w[1..]| ==> w[1..][i] == w[i + 1];
    BareBack(w[1..], c, rest);
    assert [w[0]] + w[1..] == w;
  }

  lemma SeparatorFirst(c: char, s: Text)
    requires Separates(c)
    ensures WordsOf([c] + s) == WordsOf(s)
  {
    hide OneWord;
    assert ([c] + s)[1..] == s;
    assert SkipWhite([c] + s) == SkipWhite(s);
  }

  function WordsIn(ps: seq<Spelled>): (r: seq<Text>)
    ensures |r| == |ps| && forall i :: 0 <= i < |r| ==> r[i] == ps[i].w
  {
    seq(|ps|, i requires 0 <= i < |ps| => ps[i].w)
  }

  /** Words in braces, in quotes and bare, between any white space, are the words they spell. */
  lemma {:induction false} LineBack(ps: seq<Spelled>, c: char)
    requires Separates(c) && forall p :: p in ps ==> WfSpelled(p)
    ensures WordsOf(Line(ps, c)) == WordsIn(ps)
    decreases |ps|
  {
    hide OneWord, WfSpelled, Spelling, Separates, IsWhite;
    if ps != [] {
      var (p, more) := (ps[0], Line(ps[1..], c));
      assert p in ps;
      OneWordBack(p, c, more);
      var s := Line(ps, c);
      assert SkipWhite(s) == s;
      SeparatorFirst(c, more);
      LineBack(ps[1..], c);
      assert [p.w] + WordsIn(ps[1..]) == WordsIn(ps);
    }
  }

  // ---- Requests there and back ---------------------------------------------------------------------

  /** The requests as the client sends them. */
  function Payloads(requests: seq<seq<Text>>): (r: seq<Bytes>)
    ensures |r| == |requests| && forall i :: 0 <= i < |r| ==> r[i] == Encode(QuoteAll(requests[i]))
  {
    seq(|requests|, i requires 0 <= i < |requests| => Encode(QuoteAll(requests[i])))
  }

  method Send(requests: seq<seq<Text>>, pipe: Pipe)
    requires !pipe.broken && pipe.data == []
    modifies pipe
    ensures pipe.data == Frames(Payloads(requests))
  {
    hide QuoteAll, Frame, Encode;
    ghost var payloads := Payloads(requests);
    for i := 0 to |requests|
      invariant pipe.data == Frames(payloads[..i])
    {
      var _ := pipe.WriteFrame(Encode(QuoteAll(requests[i])));
      FramesAppend(payloads[..i], payloads[i]);
      assert payloads[..i + 1] == payloads[..i] + [payloads[i]];
    }
    assert payloads[..|requests|] == payloads;
  }

  /** Requests, each a list of words, sent as frames over a pipe that cuts them anywhere,
      come out as the words they were. */
  method SendAndReceive(requests: seq<seq<Text>>, pipe: Pipe) returns (received: seq<seq<Text>>)
    requires !pipe.broken && pipe.data == []
    requires forall r :: r in requests ==> |Encode(QuoteAll(r))| <= MAX_FRAME && forall w :: w in r ==> Balanced(w, 0)
    modifies pipe
    ensures received == requests
  {
    hide WordsOf, QuoteAll, Balanced, Frames, Unframes, Encode, Decode;
    Send(requests, pipe);
    FramesBack(Payloads(requests));
    var got := ReadRequests(pipe);
    received := [];
    for i := 0 to |got|
      invariant received == requests[..i]
    {
      TextBack(QuoteAll(requests[i]));
      var words := ReadWords(got[i]);
      QuoteAllBack(requests[i]);
      received := received + [words];
    }
  }

  lemma {:induction false} FramesAppend(ps: seq<Bytes>, p: Bytes)
    ensures Frames(ps + [p]) == Frames(ps) + Frame(p)
    decreases |ps|
  {
    hide Frame;
    if ps == [] {
      assert Frames([p]) == Frame(p) + Frames([p][1..]) == Frame(p);
      assert ps + [p] == [p] && Frames(ps) + Frame(p) == Frame(p);
    } else {
      FramesAppend(ps[1..], p);
      assert (ps + [p])[1..] == ps[1..] + [p] && (ps + [p])[0] == ps[0];
    }
  }
}
