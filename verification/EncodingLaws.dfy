/** What the codes of type encodings mean, one by one: scalars, qualifiers, objects and
    blocks, pointers, and what is not known. */
module EncodingLaws {
  import opened Ir
  import opened Encoding
  import opened EncodingTrip

  /** The codes of scalars: LP64 widths, long double as double, class, string and selector
      as pointers. */
  const CODES: seq<(char, Scalar)> :=
    [('c', I8), ('C', U8), ('s', I16), ('S', U16), ('i', I32), ('I', U32), ('l', I64), ('L', U64), ('q', I64), ('Q', U64),
     ('f', F32), ('d', F64), ('D', F64), ('B', Boolean), ('*', Ptr), ('#', Ptr), (':', Ptr)]

  /** Every code is read as its scalar, whatever follows. */
  lemma CodesMean(k: nat, rest: Text)
    requires k < |CODES|
    ensures ParseType([CODES[k].0] + rest) == Got(Leaf(CODES[k].1), rest)
  {
    hide ParseType;
    var c := CODES[k].0;
    assert !IsQualifier(c) && c != '{' && c != '(' && c != '[' && c != '^' && c != 'b' && c != '@' && ScalarOf(c) == Leaf(CODES[k].1);
    Plainly(c, rest);
  }

  lemma Plainly(c: char, rest: Text)
    requires !IsQualifier(c) && c != '{' && c != '(' && c != '[' && c != '^' && c != 'b' && c != '@'
    ensures ParseType([c] + rest) == Got(ScalarOf(c), rest)
  {
    hide ScalarOf;
    assert ([c] + rest)[1..] == rest;
  }

  /** Every other code but those with a structure is a type nothing is known about. */
  lemma OtherCodes(c: char, rest: Text)
    requires forall i :: 0 <= i < |"cCsSiIlLqQfBdD*#:{([^b@rnNoORV "| ==> "cCsSiIlLqQfBdD*#:{([^b@rnNoORV "[i] != c
    ensures ParseType([c] + rest) == Got(Unknown(c), rest)
  {
    var known := "cCsSiIlLqQfBdD*#:{([^b@rnNoORV ";
    assert c != known[0] && c != known[1] && c != known[2] && c != known[3] && c != known[4] && c != known[5];
    assert c != known[6] && c != known[7] && c != known[8] && c != known[9] && c != known[10] && c != known[11];
    assert c != known[12] && c != known[13] && c != known[14] && c != known[15] && c != known[16] && c != known[17];
    assert c != known[18] && c != known[19] && c != known[20] && c != known[21] && c != known[22] && c != known[23];
    assert c != known[24] && c != known[25] && c != known[26] && c != known[27] && c != known[28] && c != known[29] && c != known[30];
    Plainly(c, rest);
  }

  /** Qualifiers in front of a type do not matter. */
  lemma QualifiersAreSkipped(c: char, s: Text)
    requires c == 'r' || c == 'n' || c == 'N' || c == 'o' || c == 'O' || c == 'R' || c == 'V' || c == ' '
    ensures ParseType([c] + s) == ParseType(s)
  {
    assert ([c] + s)[1..] == s;
    assert SkipQualifiers([c] + s) == SkipQualifiers(s);
    FromSkipped(s);
    FromSkipped([c] + s);
  }

  lemma FromSkipped(s: Text)
    ensures ParseType(s) == if SkipQualifiers(s) == [] then Got(Unknown(0 as char), []) else ParseType(SkipQualifiers(s))
  {
    hide ParseAggregate, ParseArray, ReadNumber, AfterObject, ScalarOf;
    SkipTwice(s);
  }

  lemma {:induction false} SkipTwice(s: Text)
    ensures SkipQualifiers(SkipQualifiers(s)) == SkipQualifiers(s)
    decreases |s|
  {
    if s != [] && IsQualifier(s[0]) {
      SkipTwice(s[1..]);
    }
  }

  /** A pointer is a pointer whatever it points to, which is read over. */
  lemma PointersAreRead(t: Ty, rest: Text)
    requires Shapely(t) && NoStray(t) && NoDigit(rest)
    ensures ParseType("^" + (Print(t) + rest)) == Got(Pointer, rest)
  {
    hide ParseAggregate, ParseArray, Print, Shapely, NoStray;
    var s := "^" + (Print(t) + rest);
    assert s[1..] == Print(t) + rest;
    RoundTrip(t, rest);
  }

  lemma {:induction false} DigitsSaturate(n: nat, rest: Text)
    ensures ReadNumber(Digits(n) + rest, 0) == ReadNumber(rest, if n < 0x1_0000_0000_0000_0000 then n else 0xFFFF_FFFF_FFFF_FFFF)
    decreases n
  {
    hide Digits;
    if n < 0x1_0000_0000_0000_0000 {
      DigitsBack(n, rest);
    } else {
      var d := [Digit(n % 10)];
      LastDigit(n);
      assert Digits(n) + rest == Digits(n / 10) + (d + rest);
      DigitsSaturate(n / 10, d + rest);
      assert (d + rest)[1..] == rest;
    }
  }

  lemma LastDigit(n: nat)
    requires n >= 10
    ensures Digits(n) == Digits(n / 10) + [Digit(n % 10)]
  {
  }

  /** The length of an array is the number spelled, up to 2^64 - 1, and that for all larger
      ones; the width of a bit-field is what is left of it in 32 bits. */
  lemma NumbersAreRead(n: nat, elem: Ty, rest: Text)
    requires NoDigit(rest) && Shapely(elem) && NoStray(elem)
    ensures var k := if n < 0x1_0000_0000_0000_0000 then n else 0xFFFF_FFFF_FFFF_FFFF;
            && ParseType("b" + (Digits(n) + rest)) == Got(Bitfield(k % 0x1_0000_0000), rest)
            && ParseType("[" + (Digits(n) + (Print(elem) + ("]" + rest)))) == Got(Array(k, elem), rest)
  {
    hide Digits, ParseAggregate, Print, Shapely, NoStray;
    DigitsSaturate(n, rest);
    assert ("b" + (Digits(n) + rest))[1..] == Digits(n) + rest;
    var body := Print(elem) + ("]" + rest);
    var s := "[" + (Digits(n) + body);
    assert s[1..] == Digits(n) + body;
    PrintBegins(elem);
    DigitsSaturate(n, body);
    RoundTrip(elem, "]" + rest);
    assert ("]" + rest)[1..] == rest;
    BracketParses(s);
    NoMoreDigits(rest);
    NoMoreDigits(body);
  }

  lemma NoMoreDigits(rest: Text)
    requires NoDigit(rest)
    ensures forall k: Count64 :: ReadNumber(rest, k) == GotNumber(k, rest)
  {
  }

  // ---- Objects and blocks --------------------------------------------------------------------

  /** Angle brackets come in pairs, `open` of them from before. */
  ghost predicate Paired(s: Text, open: nat)
    decreases |s|
  {
    if s == [] then open == 0
    else if s[0] == '<' then Paired(s[1..], open + 1)
    else if s[0] == '>' then open > 0 && Paired(s[1..], open - 1)
    else Paired(s[1..], open)
  }

  lemma {:induction false} PairedIsSkipped(s: Text, open: nat, rest: Text)
    requires Paired(s, open)
    ensures SkipBalanced(s + (">" + rest), open + 1) == rest
    decreases |s|
  {
    var t := s + (">" + rest);
    if s == [] {
      assert t == ">" + rest && t[1..] == rest;
    } else {
      assert t[1..] == s[1..] + (">" + rest) && t[0] == s[0];
      PairedIsSkipped(s[1..], if s[0] == '<' then open + 1 else if s[0] == '>' then open - 1 else open, rest);
    }
  }

  lemma AtIsObject(s: Text)
    ensures ParseType("@" + s) == Got(Leaf(Ptr), AfterObject(s))
  {
    hide ParseAggregate, ParseArray, ReadNumber, AfterObject;
    assert ("@" + s)[1..] == s;
  }

  /** An object, a block, a block with its signature, and an object of a class are pointers,
      and nothing of them is left to be read. */
  lemma ObjectsAreRead(signature: Text, class_: Text, rest: Text)
    requires Paired(signature, 0) && '"' !in class_
    ensures (rest == [] || (rest[0] != '?' && rest[0] != '"')) ==> ParseType("@" + rest) == Got(Leaf(Ptr), rest)
    ensures (rest == [] || rest[0] != '<') ==> ParseType("@" + ("?" + rest)) == Got(Leaf(Ptr), rest)
    ensures ParseType("@" + ("?<" + (signature + (">" + rest)))) == Got(Leaf(Ptr), rest)
    ensures ParseType("@" + ("\"" + (class_ + ("\"" + rest)))) == Got(Leaf(Ptr), rest)
  {
    hide ParseType, AfterObject, Paired;
    AtIsObject(rest);
    AtIsObject("?" + rest);
    AtIsObject("?<" + (signature + (">" + rest)));
    AtIsObject("\"" + (class_ + ("\"" + rest)));
    AfterPlain(rest);
    AfterBlock(signature, rest);
    AfterClass(class_, rest);
  }

  lemma AfterPlain(rest: Text)
    ensures (rest == [] || (rest[0] != '?' && rest[0] != '"')) ==> AfterObject(rest) == rest
    ensures (rest == [] || rest[0] != '<') ==> AfterObject("?" + rest) == rest
  {
    assert ("?" + rest)[1..] == rest;
  }

  lemma AfterBlock(signature: Text, rest: Text)
    requires Paired(signature, 0)
    ensures AfterObject("?<" + (signature + (">" + rest))) == rest
  {
    hide SkipBalanced, Paired;
    var tail := signature + (">" + rest);
    assert ("?<" + tail)[1..] == "<" + tail;
    PairedIsSkipped(signature, 0, rest);
    BracketOpens(tail);
  }

  lemma AfterClass(class_: Text, rest: Text)
    requires '"' !in class_
    ensures AfterObject("\"" + (class_ + ("\"" + rest))) == rest
  {
    hide QuotedLen, SkipBalanced;
    var end := "\"" + rest;
    var named := "\"" + (class_ + end);
    assert named[1..] == class_ + end;
    NameBack(class_, end);
    assert Drop(named, |class_| + 2) == rest;
  }

  lemma BracketOpens(s: Text)
    ensures SkipBalanced("<" + s, 0) == SkipBalanced(s, 1)
  {
    assert ("<" + s)[1..] == s;
  }

  // ---- Aggregates nothing is known about -------------------------------------------------------

  /** A name alone is an aggregate nothing is known about; so is one without fields; an
      empty name is none. */
  lemma OpaqueAggregates(tag: Text, rest: Text)
    requires forall i :: 0 <= i < |tag| ==> tag[i] != '=' && tag[i] != '}' && tag[i] != ')'
    ensures ParseType("{" + (tag + ("}" + rest))) == Got(Unknown('{'), rest)
    ensures ParseType("(" + (tag + (")" + rest))) == Got(Unknown('('), rest)
    ensures ParseType("{" + (tag + ("=}" + rest))) == Got(Unknown('{'), rest)
    ensures ParseType("{" + ("" + ("=i}" + rest))) == Got(Struct(None, [Field(None, Leaf(I32))]), rest)
  {
    hide ParseType, ParseFields, ParseAggregate;
    Opaque("{", tag, '}', rest);
    Opaque("(", tag, ')', rest);
    assert [')'] + rest == ")" + rest && ['}'] + rest == "}" + rest;
    Fieldless(tag, rest);
    Nameless(rest);
  }

  lemma Opaque(open: Text, tag: Text, close: char, rest: Text)
    requires (open == "{" && close == '}') || (open == "(" && close == ')')
    requires forall i :: 0 <= i < |tag| ==> tag[i] != '=' && tag[i] != '}' && tag[i] != ')'
    ensures ParseType(open + (tag + ([close] + rest))) == Got(Unknown(open[0]), rest)
  {
    hide ParseFields, ParseType, TagLen, ParseAggregate;
    var end := [close] + rest;
    var s := open + (tag + end);
    assert s[1..] == tag + end && s[0] == open[0];
    TagBack(tag, end);
    NoEquals(s, tag, end, close);
    assert end[1..] == rest;
    BracketParses(s);
  }

  lemma NoEquals(s: Text, tag: Text, end: Text, close: char)
    requires s != [] && s[1..] == tag + end && TagLen(tag + end) == |tag| && end != [] && end[0] == close && close != '='
    ensures ParseAggregate(s, close) == Got(Unknown(s[0]), end[1..])
  {
    hide ParseFields, TagLen, Aggregate, TagName;
    assert (tag + end)[|tag|..] == end;
  }

  lemma Fieldless(tag: Text, rest: Text)
    requires forall i :: 0 <= i < |tag| ==> tag[i] != '=' && tag[i] != '}' && tag[i] != ')'
    ensures ParseType("{" + (tag + ("=}" + rest))) == Got(Unknown('{'), rest)
  {
    hide ParseFields, ParseType, TagLen;
    var s := "{" + (tag + ("=}" + rest));
    assert s[1..] == tag + ("=}" + rest);
    TagBack(tag, "=}" + rest);
    assert s[1..][|tag|..] == "=}" + rest && ("=}" + rest)[1..] == "}" + rest;
    assert ['}'] + rest == "}" + rest;
    NoFieldBack('}', rest);
    BracketParses(s);
  }

  lemma Nameless(rest: Text)
    ensures ParseType("{" + ("" + ("=i}" + rest))) == Got(Struct(None, [Field(None, Leaf(I32))]), rest)
  {
    hide ParseFields, ParseType, TagLen, ParseAggregate, ScalarOf;
    var end := "}" + rest;
    var (body, v) := ("i" + end, "=i}" + rest);
    var s := "{" + ("" + v);
    var f := Field(None, Leaf(I32));
    assert s[1..] == "" + v && v[1..] == body;
    TagBack("", v);
    assert ['}'] + rest == end;
    NoFieldBack('}', rest);
    CodesMean(4, end);
    assert [CODES[4].0] + end == body;
    OneBack(f, body, end, '}', [], rest);
    assert PrintName(None) + body == body;
    assert [f] + [] == [f];
    AggregateParses(s, "", v, '}');
    BracketParses(s);
  }
}
