/** Text as bytes and back: UTF-8 (section 3 of RFC 3629), and the reading that puts the
    replacement character wherever the bytes are not UTF-8. */
module Lossy {
  type Byte = b: int | 0 <= b < 256
  type Bytes = seq<Byte>
  type Text = seq<char>

  const REPLACEMENT: char := '\U{FFFD}'

  // ---- Writing ---------------------------------------------------------------------------------

  function Tail(n: nat): Byte { 0x80 + n % 64 }

  function Encoded(c: char): (s: Bytes)
    ensures |s| >= 1
  {
    var n := c as int;
    if n < 0x80 then [n]
    else if n < 0x800 then [0xC0 + n / 64, Tail(n)]
    else if n < 0x1_0000 then [0xE0 + n / 0x1000, Tail(n / 64), Tail(n)]
    else [0xF0 + n / 0x4_0000, Tail(n / 0x1000), Tail(n / 64), Tail(n)]
  }

  function Encode(t: Text): Bytes {
    if t == [] then [] else Encoded(t[0]) + Encode(t[1..])
  }

  // ---- Reading ---------------------------------------------------------------------------------

  /** How many bytes the character has that this byte starts; none starts with it if 0. */
  function Width(b: Byte): nat {
    if b < 0x80 then 1
    else if 0xC2 <= b <= 0xDF then 2
    else if 0xE0 <= b <= 0xEF then 3
    else if 0xF0 <= b <= 0xF4 then 4
    else 0
  }

  predicate Follows(b: Byte) { 0x80 <= b < 0xC0 }

  /** No longer than need be, no surrogates, nothing behind the last character there is. */
  predicate SecondFits(first: Byte, second: Byte) {
    match first
    case 0xE0 => second >= 0xA0
    case 0xED => second < 0xA0
    case 0xF0 => second >= 0x90
    case 0xF4 => second < 0x90
    case _ => true
  }

  /** How many bytes at the front can belong to one character. */
  function Matched(s: Bytes): (n: nat)
    requires s != []
    ensures 1 <= n <= |s| && n <= 4 && (Width(s[0]) > 0 ==> n <= Width(s[0]))
  {
    var w := Width(s[0]);
    if w <= 1 || |s| < 2 || !Follows(s[1]) || !SecondFits(s[0], s[1]) then 1
    else if w == 2 || |s| < 3 || !Follows(s[2]) then 2
    else if w == 3 || |s| < 4 || !Follows(s[3]) then 3
    else 4
  }

  /** Is there a whole character at the front? */
  predicate Whole(s: Bytes)
    requires s != []
  {
    Width(s[0]) > 0 && Matched(s) == Width(s[0])
  }

  function Six(b: Byte): int { b - 0x80 }

  function Decoded(s: Bytes): char
    requires s != [] && Whole(s)
  {
    match Width(s[0])
    case 1 => s[0] as char
    case 2 => (64 * (s[0] - 0xC0) + Six(s[1])) as char
    case 3 => (0x1000 * (s[0] - 0xE0) + 64 * Six(s[1]) + Six(s[2])) as char
    case _ => (0x4_0000 * (s[0] - 0xF0) + 0x1000 * Six(s[1]) + 64 * Six(s[2]) + Six(s[3])) as char
  }

  /** Reading what may not be UTF-8: every longest piece that begins a character and does
      not end it, and every byte that begins none, is one replacement character. */
  function Decode(s: Bytes): Text
    decreases |s|
  {
    if s == [] then [] else [if Whole(s) then Decoded(s) else REPLACEMENT] + Decode(s[Matched(s)..])
  }

  // ---- There and back ------------------------------------------------------------------------------

  lemma {:induction false} EncodedBack(c: char, rest: Bytes)
    ensures var s := Encoded(c) + rest; Whole(s) && Matched(s) == |Encoded(c)| && Decoded(s) == c
  {
    var n := c as int;
    if n < 0x80 {
    } else if n < 0x800 {
      TwoBack(n);
    } else if n < 0x1_0000 {
      ThreeBack(c, rest);
    } else {
      FourBack(c, rest);
    }
  }

  lemma TwoBack(n: nat)
    requires 0x80 <= n < 0x800
    ensures 0xC2 <= 0xC0 + n / 64 <= 0xDF && 64 * (n / 64) + n % 64 == n
  {
  }

  lemma ThreeBack(c: char, rest: Bytes)
    requires 0x800 <= c as int < 0x1_0000
    ensures var s := Encoded(c) + rest; Whole(s) && Matched(s) == 3 && Decoded(s) == c
  {
    var n: nat := c as int;
    var m: nat := n / 64;
    var k: nat := m / 64;
    assert n == 64 * m + n % 64 && m == 64 * k + m % 64 && n / 0x1000 == k;
    assert k == 0 ==> m % 64 >= 32;
    assert k == 13 ==> m % 64 < 32;
  }

  lemma FourBack(c: char, rest: Bytes)
    requires 0x1_0000 <= c as int
    ensures var s := Encoded(c) + rest; Whole(s) && Matched(s) == 4 && Decoded(s) == c
  {
    var n: nat := c as int;
    var m: nat := n / 64;
    var k: nat := m / 64;
    var j: nat := k / 64;
    assert n == 64 * m + n % 64 && m == 64 * k + m % 64 && k == 64 * j + k % 64;
    assert n / 0x1000 == k && n / 0x4_0000 == j;
    assert j == 0 ==> k % 64 >= 16;
    assert j == 4 ==> k % 64 < 16;
  }

  /** Text written and read is the text. */
  lemma {:induction false} TextBack(t: Text)
    ensures Decode(Encode(t)) == t
    decreases |t|
  {
    hide Encoded, Whole, Matched, Decoded;
    if t != [] {
      var rest := Encode(t[1..]);
      EncodedBack(t[0], rest);
      TextBack(t[1..]);
      assert (Encoded(t[0]) + rest)[|Encoded(t[0])|..] == rest;
    }
  }

  /** The beginning of a character that is cut off is one replacement, however long it is. */
  lemma CutIsOneReplacement(c: char, k: nat, rest: Bytes)
    requires 1 <= k < |Encoded(c)| && (rest == [] || rest[0] < 0x80 || rest[0] >= 0xC0)
    ensures Decode(Encoded(c)[..k] + rest) == ['\U{FFFD}'] + Decode(rest)
  {
    hide Decoded, Encoded;
    var (e, s) := (Encoded(c), Encoded(c)[..k] + rest);
    EncodedBack(c, []);
    assert e + [] == e;
    assert forall i :: 0 <= i < k ==> s[i] == e[i];
    assert |s| > k ==> s[k] == rest[0];
    assert s[k..] == rest;
  }

  /** A byte that begins no character is one replacement. */
  lemma StrayIsOneReplacement(b: Byte, rest: Bytes)
    requires 0x80 <= b < 0xC2 || b >= 0xF5
    ensures Decode([b] + rest) == ['\U{FFFD}'] + Decode(rest)
  {
    assert ([b] + rest)[1..] == rest;
  }

  /** Bytes below 0x80 are themselves. */
  lemma AsciiIsItself(b: Byte, rest: Bytes)
    requires b < 0x80
    ensures Decode([b] + rest) == [b as char] + Decode(rest) && Encoded(b as char) == [b]
  {
    assert ([b] + rest)[1..] == rest;
  }

  /** The bytes are whole characters, one after the other. */
  predicate Valid(s: Bytes)
    decreases |s|
  {
    s == [] || (Whole(s) && Valid(s[Matched(s)..]))
  }

  lemma DecodedBack(s: Bytes)
    requires s != [] && Whole(s)
    ensures Encoded(Decoded(s)) == s[..Matched(s)]
  {
    match Width(s[0])
    case 1 =>
    case 2 => TailBack(s[0] - 0xC0, s[1]);
    case 3 =>
      var m := 64 * (s[0] - 0xE0) + Six(s[1]);
      TailBack(s[0] - 0xE0, s[1]);
      TailBack(m, s[2]);
      assert Decoded(s) as int == 64 * m + Six(s[2]);
      Slashed(64 * m + Six(s[2]));
    case _ =>
      var k := 64 * (s[0] - 0xF0) + Six(s[1]);
      var m := 64 * k + Six(s[2]);
      TailBack(s[0] - 0xF0, s[1]);
      TailBack(k, s[2]);
      TailBack(m, s[3]);
      assert Decoded(s) as int == 64 * m + Six(s[3]);
      Slashed(64 * m + Six(s[3]));
  }

  lemma TailBack(k: nat, b: Byte)
    requires Follows(b)
    ensures (64 * k + Six(b)) / 64 == k && Tail(64 * k + Six(b)) == b
  {
  }

  lemma Slashed(n: nat)
    ensures n / 0x1000 == n / 64 / 64 && n / 0x4_0000 == n / 64 / 64 / 64
  {
  }

  lemma {:induction false} EncodeIsValid(t: Text)
    ensures Valid(Encode(t))
    decreases |t|
  {
    hide Encoded, Whole, Matched;
    if t != [] {
      var rest := Encode(t[1..]);
      EncodedBack(t[0], rest);
      EncodeIsValid(t[1..]);
      assert (Encoded(t[0]) + rest)[|Encoded(t[0])|..] == rest;
    }
  }

  lemma {:induction false} ValidIsKept(s: Bytes)
    requires Valid(s)
    ensures Encode(Decode(s)) == s
    decreases |s|
  {
    hide Encoded, Whole, Matched, Decoded;
    if s != [] {
      var t := Decode(s);
      DecodedBack(s);
      ValidIsKept(s[Matched(s)..]);
      assert t[1..] == Decode(s[Matched(s)..]);
      assert s[..Matched(s)] + s[Matched(s)..] == s;
    }
  }

  /** Nothing is lost by reading if and only if the bytes are whole characters. */
  lemma KeptIff(s: Bytes)
    ensures Encode(Decode(s)) == s <==> Valid(s)
  {
    hide Encode, Decode, Valid;
    EncodeIsValid(Decode(s));
    if Valid(s) {
      ValidIsKept(s);
    }
  }
}
