/** Objective-C type encodings: the tree, and the parser as a function of the text
    still to be read. Characters stand for the bytes of the encoding. */
module Encoding {
  import opened Ir

  type Text = seq<char>

  const MAXU64: nat := 0xFFFF_FFFF_FFFF_FFFF
  const TWO32: nat := 0x1_0000_0000

  type Count32 = n: nat | n < TWO32
  type Count64 = n: nat | n <= MAXU64

  datatype Scalar = I8 | U8 | I16 | U16 | I32 | U32 | I64 | U64 | F32 | F64 | Boolean | Ptr

  datatype Ty =
    | Leaf(scalar: Scalar)
    | Pointer
    | Struct(name: Option<Text>, fields: seq<Field>)
    | Union(name: Option<Text>, fields: seq<Field>)
    | Array(len: Count64, elem: Ty)
    | Bitfield(bits: Count32)
    | Unknown(code: char)

  datatype Field = Field(name: Option<Text>, ty: Ty)

  // ---- The parser -------------------------------------------------------------------------

  datatype Got = Got(ty: Ty, rest: Text)
  datatype GotFields = GotFields(fields: seq<Field>, rest: Text)
  datatype GotNumber = GotNumber(n: Count64, rest: Text)

  predicate IsDigit(c: char) { '0' <= c <= '9' }

  predicate IsQualifier(c: char) {
    c == 'r' || c == 'n' || c == 'N' || c == 'o' || c == 'O' || c == 'R' || c == 'V' || c == ' '
  }

  function SkipQualifiers(s: Text): (r: Text)
    ensures |r| <= |s| && (r != [] ==> !IsQualifier(r[0]))
  {
    if s != [] && IsQualifier(s[0]) then SkipQualifiers(s[1..]) else s
  }

  function Saturate(n: nat): Count64 {
    if n <= MAXU64 then n else MAXU64
  }

  /** One more digit, in saturating 64-bit arithmetic. */
  function PushDigit(n: nat, c: char): Count64
    requires IsDigit(c)
  {
    Saturate(Saturate(n * 10) + (c - '0') as nat)
  }

  function ReadNumber(s: Text, n: Count64): (r: GotNumber)
    ensures |r.rest| <= |s|
    decreases |s|
  {
    if s != [] && IsDigit(s[0]) then ReadNumber(s[1..], PushDigit(n, s[0])) else GotNumber(n, s)
  }

  predicate EndsTag(c: char) { c == '=' || c == '}' || c == ')' }

  function TagLen(s: Text): (n: nat)
    ensures n <= |s| && (n < |s| ==> EndsTag(s[n])) && forall i :: 0 <= i < n ==> !EndsTag(s[i])
  {
    if s == [] || EndsTag(s[0]) then 0 else 1 + TagLen(s[1..])
  }

  function TagName(s: Text): Option<Text> {
    if s == "" || s == "?" then None else Some(s)
  }

  function QuotedLen(s: Text): (n: nat)
    ensures n <= |s| && (n < |s| ==> s[n] == '"') && forall i :: 0 <= i < n ==> s[i] != '"'
  {
    if s == [] || s[0] == '"' then 0 else 1 + QuotedLen(s[1..])
  }

  function Drop(s: Text, n: nat): (r: Text)
    ensures r == if n <= |s| then s[n..] else []
  {
    if n <= |s| then s[n..] else []
  }

  /** Behind the angle bracket that closes the first one. */
  function SkipBalanced(s: Text, depth: nat): (r: Text)
    ensures |r| <= |s|
  {
    if s == [] then []
    else if s[0] == '<' then SkipBalanced(s[1..], depth + 1)
    else if s[0] == '>' then if depth <= 1 then s[1..] else SkipBalanced(s[1..], depth - 1)
    else SkipBalanced(s[1..], depth)
  }

  /** Behind an object: plain, a block with or without its signature, or of a named class. */
  function AfterObject(s: Text): (r: Text)
    ensures |r| <= |s|
  {
    if s == [] then []
    else if s[0] == '?' then if |s| > 1 && s[1] == '<' then SkipBalanced(s[1..], 0) else s[1..]
    else if s[0] == '"' then Drop(s, QuotedLen(s[1..]) + 2)
    else s
  }

  function ScalarOf(c: char): Ty {
    match c
    case 'c' => Leaf(I8)
    case 'C' => Leaf(U8)
    case 's' => Leaf(I16)
    case 'S' => Leaf(U16)
    case 'i' => Leaf(I32)
    case 'I' => Leaf(U32)
    case 'l' => Leaf(I64)
    case 'q' => Leaf(I64)
    case 'L' => Leaf(U64)
    case 'Q' => Leaf(U64)
    case 'f' => Leaf(F32)
    case 'd' => Leaf(F64)
    case 'D' => Leaf(F64)
    case 'B' => Leaf(Boolean)
    case '@' => Leaf(Ptr)
    case '#' => Leaf(Ptr)
    case '*' => Leaf(Ptr)
    case ':' => Leaf(Ptr)
    case _ => Unknown(c)
  }

  function ParseType(s: Text): (r: Got)
    ensures |r.rest| <= |s| && (s != [] ==> |r.rest| < |s|)
    decreases |s|, 2
  {
    var t := SkipQualifiers(s);
    if t == [] then Got(Unknown(0 as char), [])
    else if t[0] == '{' then ParseAggregate(t, '}')
    else if t[0] == '(' then ParseAggregate(t, ')')
    else if t[0] == '[' then ParseArray(t)
    else if t[0] == '^' then Got(Pointer, ParseType(t[1..]).rest)
    else if t[0] == 'b' then
      var n := ReadNumber(t[1..], 0);
      Got(Bitfield(n.n % TWO32), n.rest)
    else if t[0] == '@' then Got(Leaf(Ptr), AfterObject(t[1..]))
    else Got(ScalarOf(t[0]), t[1..])
  }

  function ParseArray(t: Text): (r: Got)
    requires t != []
    ensures |r.rest| < |t|
    decreases |t|, 1
  {
    var n := ReadNumber(t[1..], 0);
    var e := ParseType(n.rest);
    Got(Array(n.n, e.ty), if "]" <= e.rest then e.rest[1..] else e.rest)
  }

  function ParseAggregate(t: Text, close: char): (r: Got)
    requires t != []
    ensures |r.rest| < |t|
    decreases |t|, 1
  {
    var u := t[1..];
    var n := TagLen(u);
    var v := u[n..];
    if "=" <= v then
      var f := ParseFields(v[1..], close);
      Got(Aggregate(t[0], TagName(u[..n]), f.fields, close), f.rest)
    else Got(Unknown(t[0]), if [close] <= v then v[1..] else v)
  }

  /** An aggregate without fields is a type nothing is known about. */
  function Aggregate(open: char, name: Option<Text>, fields: seq<Field>, close: char): Ty {
    if fields == [] then Unknown(open) else if close == '}' then Struct(name, fields) else Union(name, fields)
  }

  function ParseFields(s: Text, close: char): (r: GotFields)
    ensures |r.rest| <= |s|
    decreases |s|, 3
  {
    var t := SkipQualifiers(s);
    if t == [] then GotFields([], [])
    else if t[0] == close then GotFields([], t[1..])
    else if t[0] == '"' then
      var n := QuotedLen(t[1..]);
      var e := ParseType(Drop(t, n + 2));
      var more := ParseFields(e.rest, close);
      GotFields([Field(Some(t[1..][..n]), e.ty)] + more.fields, more.rest)
    else
      var e := ParseType(t);
      var more := ParseFields(e.rest, close);
      GotFields([Field(None, e.ty)] + more.fields, more.rest)
  }

  lemma FieldsEnd(s: Text, close: char)
    requires SkipQualifiers(s) != [] ==> SkipQualifiers(s)[0] == close
    ensures ParseFields(s, close) == GotFields([], Drop(SkipQualifiers(s), 1))
  {
  }

  /** What reading one field leaves to be read. */
  lemma OneField(s: Text, close: char, before: seq<Field>)
    requires SkipQualifiers(s) != [] && SkipQualifiers(s)[0] != close
    ensures var t := SkipQualifiers(s);
            var n := QuotedLen(t[1..]);
            var named := t[0] == '"';
            var e := ParseType(if named then Drop(t, n + 2) else t);
            && before + ParseFields(s, close).fields ==
               before + [Field(if named then Some(t[1..][..n]) else None, e.ty)] + ParseFields(e.rest, close).fields
            && ParseFields(s, close).rest == ParseFields(e.rest, close).rest
  {
    hide ParseType, QuotedLen, SkipQualifiers;
  }

  // ---- The parser, step by step -----------------------------------------------------------------

  class Parser {
    const src: Text
    var pos: nat

    /** The cursor is never behind the end. */
    ghost predicate Valid()
      reads this
    {
      pos <= |src|
    }

    ghost function Ahead(): Text
      reads this
      requires Valid()
    {
      src[pos..]
    }

    constructor (src: Text)
      ensures Valid() && this.src == src && Ahead() == src
    {
      this.src, pos := src, 0;
    }

    method Peek() returns (c: Option<char>)
      requires Valid()
      ensures c == if Ahead() == [] then None else Some(Ahead()[0])
    {
      c := if pos < |src| then Some(src[pos]) else None;
    }

    method Bump() returns (c: Option<char>)
      requires Valid()
      modifies this
      ensures Valid() && Ahead() == Drop(old(Ahead()), 1)
      ensures c == if old(Ahead()) == [] then None else Some(old(Ahead())[0])
    {
      c := Peek();
      if c.Some? {
        pos := pos + 1;
      }
    }

    method SkipPrefixes()
      requires Valid()
      modifies this
      ensures Valid() && Ahead() == SkipQualifiers(old(Ahead()))
    {
      while pos < |src| && IsQualifier(src[pos])
        invariant Valid() && SkipQualifiers(Ahead()) == SkipQualifiers(old(Ahead()))
      {
        assert src[pos..][1..] == src[pos + 1..];
        pos := pos + 1;
      }
    }

    method Number() returns (n: Count64)
      requires Valid()
      modifies this
      ensures Valid() && GotNumber(n, Ahead()) == ReadNumber(old(Ahead()), 0)
    {
      n := 0;
      while pos < |src| && IsDigit(src[pos])
        invariant Valid() && ReadNumber(Ahead(), n) == ReadNumber(old(Ahead()), 0)
      {
        n := PushDigit(n, src[pos]);
        assert src[pos..][1..] == src[pos + 1..];
        pos := pos + 1;
      }
    }

    method ReadTag() returns (name: Option<Text>)
      requires Valid()
      modifies this
      ensures var s := old(Ahead()); Valid() && name == TagName(s[..TagLen(s)]) && Ahead() == s[TagLen(s)..]
    {
      var start := pos;
      while pos < |src| && !EndsTag(src[pos])
        invariant Valid() && start <= pos && TagLen(src[start..]) == pos - start + TagLen(Ahead())
      {
        assert src[pos..][1..] == src[pos + 1..];
        pos := pos + 1;
      }
      assert src[start..][..pos - start] == src[start..pos];
      name := TagName(src[start..pos]);
    }

    method ReadQuotedName() returns (name: Text)
      requires Valid() && Ahead() != []
      modifies this
      ensures var s := old(Ahead()); var n := QuotedLen(s[1..]);
              Valid() && name == s[1..][..n] && Ahead() == Drop(s, n + 2)
    {
      var _ := Bump();
      var start := pos;
      while pos < |src| && src[pos] != '"'
        invariant Valid() && old(pos) < start <= pos && QuotedLen(src[start..]) == pos - start + QuotedLen(Ahead())
        invariant start == old(pos) + 1
      {
        assert src[pos..][1..] == src[pos + 1..];
        pos := pos + 1;
      }
      assert src[start..][..pos - start] == src[start..pos];
      name := src[start..pos];
      var _ := Bump();
      assert old(Ahead())[1..] == src[start..];
    }

    method SkipBalancedText()
      requires Valid() && "<" <= Ahead()
      modifies this
      ensures Valid() && Ahead() == SkipBalanced(old(Ahead()), 0)
    {
      var depth: nat := 0;
      var done := false;
      while !done && pos < |src|
        invariant Valid() && (pos > old(pos) && !done ==> depth >= 1)
        invariant SkipBalanced(old(Ahead()), 0) == if done then Ahead() else SkipBalanced(Ahead(), depth)
        invariant pos == old(pos) ==> !done && depth == 0
        decreases |src| - pos, !done
      {
        var c := Bump();
        if c == Some('<') {
          depth := depth + 1;
        } else if c == Some('>') {
          depth := depth - 1;
          done := depth == 0;
        }
      }
    }

    method Object()
      requires Valid()
      modifies this
      ensures Valid() && Ahead() == AfterObject(old(Ahead()))
    {
      var c := Peek();
      if c == Some('?') {
        var _ := Bump();
        var d := Peek();
        if d == Some('<') {
          SkipBalancedText();
        }
      } else if c == Some('"') {
        var _ := ReadQuotedName();
      }
    }

    method Type() returns (ty: Ty)
      requires Valid()
      modifies this
      ensures Valid() && pos >= old(pos) && Got(ty, Ahead()) == ParseType(old(Ahead()))
      decreases |src| - pos, 2
    {
      SkipPrefixes();
      var c := Peek();
      match c
      case None => ty := Unknown(0 as char);
      case Some('{') => ty := AggregateType('}');
      case Some('(') => ty := AggregateType(')');
      case Some('[') => ty := ArrayType();
      case Some('^') =>
        var _ := Bump();
        var _ := Type();
        ty := Pointer;
      case Some('b') =>
        var _ := Bump();
        var n := Number();
        ty := Bitfield(n % TWO32);
      case Some('@') =>
        var _ := Bump();
        Object();
        ty := Leaf(Ptr);
      case Some(d) =>
        var _ := Bump();
        ty := ScalarOf(d);
    }

    method ArrayType() returns (ty: Ty)
      requires Valid() && Ahead() != []
      modifies this
      ensures Valid() && pos > old(pos) && Got(ty, Ahead()) == ParseArray(old(Ahead()))
      decreases |src| - pos, 1
    {
      var _ := Bump();
      var n := Number();
      var e := Type();
      var c := Peek();
      if c == Some(']') {
        var _ := Bump();
      }
      ty := Array(n, e);
    }

    method AggregateType(close: char) returns (ty: Ty)
      requires Valid() && Ahead() != []
      modifies this
      ensures Valid() && pos > old(pos) && Got(ty, Ahead()) == ParseAggregate(old(Ahead()), close)
      decreases |src| - pos, 1
    {
      var open := Bump();
      var name := ReadTag();
      var c := Peek();
      if c != Some('=') {
        if c == Some(close) {
          var _ := Bump();
        }
        return Unknown(open.value);
      }
      var _ := Bump();
      var fields := Fields(close);
      ty := Aggregate(open.value, name, fields, close);
    }

    method Fields(close: char) returns (fields: seq<Field>)
      requires Valid()
      modifies this
      ensures Valid() && pos >= old(pos) && GotFields(fields, Ahead()) == ParseFields(old(Ahead()), close)
      decreases |src| - pos, 3
    {
      hide ParseFields, ParseType, QuotedLen, SkipQualifiers;
      fields := [];
      ghost var all := ParseFields(Ahead(), close);
      var done := false;
      while !done
        invariant Valid() && pos >= old(pos)
        invariant if done then all == GotFields(fields, Ahead())
                  else all == GotFields(fields + ParseFields(Ahead(), close).fields, ParseFields(Ahead(), close).rest)
        decreases |src| - pos, !done
      {
        ghost var s := Ahead();
        SkipPrefixes();
        var c := Peek();
        match c
        case None =>
          FieldsEnd(s, close);
          done := true;
        case Some(d) =>
          if d == close {
            FieldsEnd(s, close);
            var _ := Bump();
            done := true;
            continue;
          }
          OneField(s, close, fields);
          if d == '"' {
            var name := ReadQuotedName();
            var ty := Type();
            fields := fields + [Field(Some(name), ty)];
          } else {
            var ty := Type();
            fields := fields + [Field(None, ty)];
          }
      }
    }
  }

  /** The type at the front of an encoding. */
  method Parse(enc: Text) returns (ty: Ty)
    ensures ty == ParseType(enc).ty
  {
    var p := new Parser(enc);
    ty := p.Type();
  }
}
