/** Type encodings there and back: the canonical text of a type is parsed back to the
    type, and the parser returns nothing but types with a canonical text. */
module EncodingTrip {
  import opened Ir
  import opened Encoding

  // ---- The canonical text -------------------------------------------------------------------

  function Digit(n: nat): char
    requires n < 10
  {
    '0' + n as char
  }

  function Digits(n: nat): (s: Text)
    ensures s != [] && forall i :: 0 <= i < |s| ==> IsDigit(s[i])
  {
    if n < 10 then [Digit(n)] else Digits(n / 10) + [Digit(n % 10)]
  }

  function ScalarCode(s: Scalar): char {
    match s
    case I8 => 'c'
    case U8 => 'C'
    case I16 => 's'
    case U16 => 'S'
    case I32 => 'i'
    case U32 => 'I'
    case I64 => 'q'
    case U64 => 'Q'
    case F32 => 'f'
    case F64 => 'd'
    case Boolean => 'B'
    case Ptr => '#'
  }

  function Tag(name: Option<Text>): Text {
    if name.Some? then name.value else "?"
  }

  function Print(t: Ty): Text
    decreases t
  {
    match t
    case Leaf(s) => [ScalarCode(s)]
    case Pointer => "^v"
    case Struct(name, fields) => "{" + (Tag(name) + ("=" + (PrintFields(fields) + "}")))
    case Union(name, fields) => "(" + (Tag(name) + ("=" + (PrintFields(fields) + ")")))
    case Array(len, elem) => "[" + (Digits(len) + (Print(elem) + "]"))
    case Bitfield(bits) => "b" + Digits(bits)
    case Unknown(c) => if c == '{' then "{}" else if c == '(' then "()" else [c]
  }

  function PrintFields(fields: seq<Field>): Text
    decreases fields
  {
    if fields == [] then [] else PrintField(fields[0]) + PrintFields(fields[1..])
  }

  function PrintField(f: Field): Text
    decreases f
  {
    PrintName(f.name) + Print(f.ty)
  }

  function PrintName(name: Option<Text>): Text {
    if name.Some? then "\"" + (name.value + "\"") else []
  }

  // ---- Types that have one --------------------------------------------------------------------

  ghost predicate GoodTag(name: Option<Text>) {
    name.Some? ==> TagName(name.value).Some? && forall i :: 0 <= i < |name.value| ==> !EndsTag(name.value[i])
  }

  /** A type of the shape the parser builds. */
  ghost predicate Shapely(t: Ty)
    decreases t
  {
    match t
    case Struct(name, fields) => GoodTag(name) && fields != [] && ShapelyFields(fields)
    case Union(name, fields) => GoodTag(name) && fields != [] && ShapelyFields(fields)
    case Array(_, elem) => Shapely(elem)
    case _ => true
  }

  ghost predicate ShapelyFields(fields: seq<Field>)
    decreases fields
  {
    fields != [] ==> ShapelyField(fields[0]) && ShapelyFields(fields[1..])
  }

  ghost predicate ShapelyField(f: Field)
    decreases f
  {
    GoodName(f.name) && Shapely(f.ty)
  }

  ghost predicate GoodName(name: Option<Text>) {
    name.Some? ==> forall i :: 0 <= i < |name.value| ==> name.value[i] != '"'
  }

  /** A code nothing is known about, that means nothing else where it stands. */
  predicate Stray(c: char) {
    c != '{' && c != '(' && (IsQualifier(c) || IsDigit(c) || c == '"' || c == '}' || c == ')' || c == '[' || c == '^' || c == 'b' || ScalarOf(c) != Unknown(c))
  }

  predicate NoStray(t: Ty)
    decreases t
  {
    match t
    case Struct(_, fields) => NoStrayFields(fields)
    case Union(_, fields) => NoStrayFields(fields)
    case Array(_, elem) => NoStray(elem)
    case Unknown(c) => !Stray(c)
    case _ => true
  }

  predicate NoStrayFields(fields: seq<Field>)
    decreases fields
  {
    fields != [] ==> NoStrayField(fields[0]) && NoStrayFields(fields[1..])
  }

  predicate NoStrayField(f: Field)
    decreases f
  {
    NoStray(f.ty)
  }

  // ---- There and back ---------------------------------------------------------------------------

  predicate NoDigit(s: Text) {
    s == [] || !IsDigit(s[0])
  }

  lemma {:induction false} DigitsBack(n: nat, rest: Text)
    requires n <= MAXU64
    ensures ReadNumber(Digits(n) + rest, 0) == ReadNumber(rest, n)
    decreases n
  {
    if n < 10 {
      assert (Digits(n) + rest)[1..] == rest;
    } else {
      var d := [Digit(n % 10)];
      assert Digits(n) + rest == Digits(n / 10) + (d + rest);
      DigitsBack(n / 10, d + rest);
      assert (d + rest)[1..] == rest;
    }
  }

  lemma NumberBack(n: nat, rest: Text)
    requires n <= MAXU64 && NoDigit(rest)
    ensures ReadNumber(Digits(n) + rest, 0) == GotNumber(n, rest)
  {
    DigitsBack(n, rest);
  }

  lemma {:induction false} TagBack(s: Text, rest: Text)
    requires forall i :: 0 <= i < |s| ==> !EndsTag(s[i])
    requires rest != [] && EndsTag(rest[0])
    ensures TagLen(s + rest) == |s|
    decreases |s|
  {
    if s == [] {
      assert s + rest == rest;
    } else {
      assert (s + rest)[1..] == s[1..] + rest;
      TagBack(s[1..], rest);
    }
  }

  lemma {:induction false} NameBack(s: Text, rest: Text)
    requires forall i :: 0 <= i < |s| ==> s[i] != '"'
    requires rest != [] && rest[0] == '"'
    ensures QuotedLen(s + rest) == |s|
    decreases |s|
  {
    if s == [] {
      assert s + rest == rest;
    } else {
      assert (s + rest)[1..] == s[1..] + rest;
      NameBack(s[1..], rest);
    }
  }

  /** A printed type begins with its code, which is none of the other things that may stand there. */
  predicate TypeCode(c: char) {
    !IsQualifier(c) && !IsDigit(c) && c != '"' && c != '}' && c != ')'
  }

  lemma PrintBegins(t: Ty)
    requires NoStray(t)
    ensures Print(t) != [] && TypeCode(Print(t)[0])
  {
    hide PrintFields, Digits;
  }

  /** The canonical text of a type, and what follows, is read as the type, and up to what follows. */
  lemma {:induction false} RoundTrip(t: Ty, rest: Text)
    requires Shapely(t) && NoStray(t) && NoDigit(rest)
    ensures ParseType(Print(t) + rest) == Got(t, rest)
    decreases t
  {
    hide Digits, PrintFields, ParseType;
    match t
    case Leaf(s) => LeafBack(s, rest);
    case Pointer => PointerBack(rest);
    case Bitfield(bits) => BitfieldBack(bits, rest);
    case Unknown(c) => UnknownBack(c, rest);
    case Array(len, elem) =>
      RoundTrip(elem, "]" + rest);
      ArrayBack(len, elem, rest);
    case Struct(name, fields) =>
      FieldsBack(fields, '}', rest);
      AggregateBack("{", Tag(name), PrintFields(fields), '}', rest, fields);
    case Union(name, fields) =>
      FieldsBack(fields, ')', rest);
      AggregateBack("(", Tag(name), PrintFields(fields), ')', rest, fields);
  }

  lemma LeafBack(s: Scalar, rest: Text)
    ensures ParseType(Print(Leaf(s)) + rest) == Got(Leaf(s), rest)
  {
    hide ParseAggregate, ParseArray, AfterObject;
    assert (Print(Leaf(s)) + rest)[1..] == rest;
  }

  lemma PointerBack(rest: Text)
    ensures ParseType("^v" + rest) == Got(Pointer, rest)
  {
    hide ParseAggregate, ParseArray, AfterObject;
    assert ("^v" + rest)[1..] == "v" + rest && ("v" + rest)[1..] == rest;
  }

  lemma BitfieldBack(bits: Count32, rest: Text)
    requires NoDigit(rest)
    ensures ParseType("b" + Digits(bits) + rest) == Got(Bitfield(bits), rest)
  {
    hide Digits, ParseAggregate, ParseArray, AfterObject;
    NumberBack(bits, rest);
    assert ("b" + Digits(bits) + rest)[1..] == Digits(bits) + rest;
  }

  lemma UnknownBack(c: char, rest: Text)
    requires !Stray(c)
    ensures ParseType(Print(Unknown(c)) + rest) == Got(Unknown(c), rest)
  {
    hide ParseFields;
    var s := Print(Unknown(c)) + rest;
    if c == '{' {
      assert s[1..] == "}" + rest && ("}" + rest)[1..] == rest;
    } else if c == '(' {
      assert s[1..] == ")" + rest && (")" + rest)[1..] == rest;
    } else {
      assert s[1..] == rest;
    }
  }

  lemma ArrayBack(len: Count64, elem: Ty, rest: Text)
    requires NoStray(elem)
    requires ParseType(Print(elem) + ("]" + rest)) == Got(elem, "]" + rest)
    ensures ParseType(Print(Array(len, elem)) + rest) == Got(Array(len, elem), rest)
  {
    hide ParseType, Print, Digits;
    var body := Print(elem) + ("]" + rest);
    var s := "[" + (Digits(len) + (Print(elem) + "]")) + rest;
    assert Print(Array(len, elem)) + rest == s by { PrintArray(len, elem); }
    assert s[1..] == Digits(len) + body;
    PrintBegins(elem);
    NumberBack(len, body);
    assert ("]" + rest)[1..] == rest;
    BracketParses(s);
  }

  lemma PrintArray(len: Count64, elem: Ty)
    ensures Print(Array(len, elem)) == "[" + (Digits(len) + (Print(elem) + "]"))
  {
  }

  lemma BracketParses(s: Text)
    requires s != []
    ensures s[0] == '[' ==> ParseType(s) == ParseArray(s)
    ensures s[0] == '{' ==> ParseType(s) == ParseAggregate(s, '}')
    ensures s[0] == '(' ==> ParseType(s) == ParseAggregate(s, ')')
  {
    hide ParseArray, ParseAggregate;
  }

  lemma AggregateBack(open: Text, tag: Text, body: Text, close: char, rest: Text, fields: seq<Field>)
    requires (open == "{" && close == '}') || (open == "(" && close == ')')
    requires forall i :: 0 <= i < |tag| ==> !EndsTag(tag[i])
    requires ParseFields(body + ([close] + rest), close) == GotFields(fields, rest)
    ensures ParseType(open + (tag + ("=" + (body + [close]))) + rest) == Got(Aggregate(open[0], TagName(tag), fields, close), rest)
  {
    hide ParseFields, ParseType, ParseAggregate, Aggregate, TagName, TagLen;
    var s := open + (tag + ("=" + (body + [close]))) + rest;
    var more := body + ([close] + rest);
    var v := "=" + more;
    assert s == open + (tag + v) && s[1..] == tag + v;
    TagBack(tag, v);
    assert (tag + v)[..|tag|] == tag && (tag + v)[|tag|..] == v && v[1..] == more;
    AggregateParses(s, tag, v, close);
    BracketParses(s);
  }

  lemma AggregateParses(s: Text, tag: Text, v: Text, close: char)
    requires s != [] && s[1..] == tag + v && TagLen(tag + v) == |tag| && "=" <= v
    ensures var f := ParseFields(v[1..], close); ParseAggregate(s, close) == Got(Aggregate(s[0], TagName(tag), f.fields, close), f.rest)
  {
    hide ParseFields, Aggregate, TagName, TagLen;
    assert (tag + v)[..|tag|] == tag && (tag + v)[|tag|..] == v;
  }

  lemma {:induction false} FieldsBack(fields: seq<Field>, close: char, rest: Text)
    requires (close == '}' || close == ')') && ShapelyFields(fields) && NoStrayFields(fields)
    ensures ParseFields(PrintFields(fields) + ([close] + rest), close) == GotFields(fields, rest)
    decreases fields
  {
    hide PrintField, ParseFields;
    var end := [close] + rest;
    if fields == [] {
      assert PrintFields(fields) + end == end;
      NoFieldBack(close, rest);
    } else {
      var (f, more) := (fields[0], fields[1..]);
      var tail := PrintFields(more) + end;
      FieldsBack(more, close, rest);
      TailBegins(more, close, rest);
      assert PrintFields(fields) + end == PrintField(f) + tail;
      FieldBack(f, tail, close, more, rest);
      assert [f] + more == fields;
    }
  }

  lemma NoFieldBack(close: char, rest: Text)
    requires close == '}' || close == ')'
    ensures ParseFields([close] + rest, close) == GotFields([], rest)
  {
    assert ([close] + rest)[1..] == rest;
  }

  lemma {:induction false} FieldBack(f: Field, tail: Text, close: char, more: seq<Field>, rest: Text)
    requires (close == '}' || close == ')') && ShapelyField(f) && NoStrayField(f) && NoDigit(tail)
    requires ParseFields(tail, close) == GotFields(more, rest)
    ensures ParseFields(PrintField(f) + tail, close) == GotFields([f] + more, rest)
    decreases f
  {
    hide Print, ParseType, ParseFields, NoStray, Shapely;
    RoundTrip(f.ty, tail);
    PrintBegins(f.ty);
    assert PrintField(f) + tail == PrintName(f.name) + (Print(f.ty) + tail);
    OneBack(f, Print(f.ty) + tail, tail, close, more, rest);
  }

  lemma TailBegins(fields: seq<Field>, close: char, rest: Text)
    requires (close == '}' || close == ')') && NoStrayFields(fields)
    ensures NoDigit(PrintFields(fields) + ([close] + rest))
  {
    if fields != [] {
      var f := fields[0];
      PrintBegins(f.ty);
      assert PrintField(f) != [] && NoDigit(PrintField(f));
    }
  }

  lemma OneBack(f: Field, body: Text, tail: Text, close: char, more: seq<Field>, rest: Text)
    requires GoodName(f.name)
    requires body != [] && TypeCode(body[0]) && (close == '}' || close == ')')
    requires ParseType(body) == Got(f.ty, tail) && ParseFields(tail, close) == GotFields(more, rest)
    ensures ParseFields(PrintName(f.name) + body, close) == GotFields([f] + more, rest)
  {
    hide ParseType, ParseFields;
    var s := PrintName(f.name) + body;
    if f.name.Some? {
      var n := f.name.value;
      var t := "\"" + body;
      assert s == "\"" + (n + t) && s[1..] == n + t;
      NameBack(n, t);
      assert (n + t)[..|n|] == n && s[|n| + 2..] == body;
    } else {
      assert s == body;
    }
    assert SkipQualifiers(s) == s;
    OneFieldHere(s, close, f, tail, more, rest);
  }

  lemma OneFieldHere(s: Text, close: char, f: Field, tail: Text, more: seq<Field>, rest: Text)
    requires s != [] && SkipQualifiers(s) == s && s[0] != close
    requires ParseFields(tail, close) == GotFields(more, rest)
    requires s[0] != '"' ==> f.name.None? && ParseType(s) == Got(f.ty, tail)
    requires s[0] == '"' ==> f.name == Some(s[1..][..QuotedLen(s[1..])]) && ParseType(Drop(s, QuotedLen(s[1..]) + 2)) == Got(f.ty, tail)
    ensures ParseFields(s, close) == GotFields([f] + more, rest)
  {
    hide ParseType, ParseFields, QuotedLen;
    OneField(s, close, []);
    assert [] + ParseFields(s, close).fields == ParseFields(s, close).fields;
    assert [] + [f] + more == [f] + more;
  }

  /** So no two types share a text, and none has a text that begins another's, but for a digit. */
  lemma TextsDiffer(t: Ty, u: Ty, rest: Text)
    requires Shapely(t) && NoStray(t) && Shapely(u) && NoStray(u) && NoDigit(rest)
    requires Print(t) == Print(u) + rest
    ensures t == u && rest == []
  {
    hide Print, ParseType, Shapely, NoStray;
    RoundTrip(t, []);
    assert Print(t) + [] == Print(t);
    RoundTrip(u, rest);
  }

  /** Where a field of object type has no name, the name of the next one is taken for its class. */
  lemma ObjectTakesName(name: Text, rest: Text)
    requires GoodName(Some(name))
    ensures ParseType("@" + PrintName(Some(name)) + rest) == Got(Leaf(Ptr), rest)
  {
    hide ParseAggregate, ParseArray;
    var t := "\"" + rest;
    var s := "@" + PrintName(Some(name)) + rest;
    assert s[1..] == "\"" + (name + t) && s[1..][1..] == name + t;
    NameBack(name, t);
    assert Drop(s[1..], |name| + 2) == rest;
  }

  // ---- What the parser returns ----------------------------------------------------------------------

  /** Whatever the text, the parser returns a type of the shape above. */
  lemma {:induction false} ParsesShapely(s: Text)
    ensures Shapely(ParseType(s).ty)
    decreases |s|, 2
  {
    hide ParseAggregate, ParseArray, ReadNumber;
    var t := SkipQualifiers(s);
    if t != [] {
      if t[0] == '{' || t[0] == '(' {
        AggregateShapely(t, if t[0] == '{' then '}' else ')');
      } else if t[0] == '[' {
        ParsesShapely(ReadNumber(t[1..], 0).rest);
        ArrayShapely(t);
      }
    }
  }

  lemma ArrayShapely(t: Text)
    requires t != [] && Shapely(ParseType(ReadNumber(t[1..], 0).rest).ty)
    ensures Shapely(ParseArray(t).ty)
  {
    hide ReadNumber, ParseType;
  }

  lemma {:induction false} AggregateShapely(t: Text, close: char)
    requires t != []
    ensures Shapely(ParseAggregate(t, close).ty)
    decreases |t|, 1
  {
    hide ParseFields;
    var u := t[1..];
    var n := TagLen(u);
    var v := u[n..];
    if "=" <= v {
      FieldsShapely(v[1..], close);
    }
  }

  lemma {:induction false} FieldsShapely(s: Text, close: char)
    ensures ShapelyFields(ParseFields(s, close).fields)
    decreases |s|, 3
  {
    hide ParseType, Shapely, QuotedLen;
    var t := SkipQualifiers(s);
    if t != [] && t[0] != close {
      var n := QuotedLen(t[1..]);
      var named := t[0] == '"';
      var from := if named then Drop(t, n + 2) else t;
      ParsesShapely(from);
      var e := ParseType(from);
      FieldsShapely(e.rest, close);
      var more := ParseFields(e.rest, close).fields;
      var f := Field(if named then Some(t[1..][..n]) else None, e.ty);
      assert ParseFields(s, close).fields == [f] + more;
      assert ([f] + more)[1..] == more;
    }
  }

  /** A parsed type is put back in canonical text, unless a stray code was among its leaves. */
  lemma Reparses(s: Text)
    requires NoStray(ParseType(s).ty)
    ensures ParseType(Print(ParseType(s).ty)) == Got(ParseType(s).ty, [])
  {
    hide Print, ParseType, Shapely, NoStray;
    ParsesShapely(s);
    var t := ParseType(s).ty;
    RoundTrip(t, []);
    assert Print(t) + [] == Print(t);
  }
}
