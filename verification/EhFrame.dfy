/** The walk over an .eh_frame section (section 10.6.1 of the Linux Standard Base Core
    Specification 5.0): little-endian records with lengths of 32 or of 64 bits. */
module EhFrame {
  import opened Ir
  import opened Server
  import opened Lossy

  const EXTENDED: nat := 0xFFFF_FFFF
  const TWO64: nat := 0x1_0000_0000_0000_0000

  /** A record: a CIE, whose id is zero, or an FDE, whose id is not. */
  datatype Record = Record(wide: bool, id: nat, body: Bytes)

  predicate IsFde(r: Record) { r.id != 0 }

  /** The length counts the id and what follows it. */
  function LengthOf(r: Record): nat { 4 + |r.body| }

  predicate WfRecord(r: Record) {
    r.id < TWO32 && if r.wide then LengthOf(r) < TWO64 else LengthOf(r) < EXTENDED
  }

  function Le8(n: nat): (s: Bytes)
    ensures |s| == 8
  {
    Le4(n % TWO32) + Le4(n / TWO32)
  }

  function FromLe8(s: Bytes): nat
    requires |s| == 8
  {
    FromLe4(s[..4]) + TWO32 * FromLe4(s[4..])
  }

  lemma Le8Back(n: nat)
    requires n < TWO64
    ensures FromLe8(Le8(n)) == n
  {
    hide Le4, FromLe4;
    Le4Back(n % TWO32);
    Le4Back(n / TWO32);
    assert Le8(n)[..4] == Le4(n % TWO32) && Le8(n)[4..] == Le4(n / TWO32);
  }

  function Header(r: Record): Bytes {
    if r.wide then Le4(EXTENDED) + Le8(LengthOf(r)) else Le4(LengthOf(r))
  }

  function RecordBytes(r: Record): Bytes { Header(r) + (Le4(r.id) + r.body) }

  function BytesOf(rs: seq<Record>): Bytes {
    if rs == [] then Le4(0) else RecordBytes(rs[0]) + BytesOf(rs[1..])
  }

  /** What a record is, byte by byte: a length of four bytes, or four bytes of ones and a
      length of eight; four bytes of id; the rest. */
  lemma RecordIs(r: Record)
    requires WfRecord(r)
    ensures var n := 4 + |r.body|;
            var (k, m) := (n % 0x1_0000_0000, n / 0x1_0000_0000);
            var id := [r.id % 256, r.id / 256 % 256, r.id / 0x1_0000 % 256, r.id / 0x100_0000 % 256];
            var low := [k % 256, k / 256 % 256, k / 0x1_0000 % 256, k / 0x100_0000 % 256];
            var high := [m % 256, m / 256 % 256, m / 0x1_0000 % 256, m / 0x100_0000 % 256];
            RecordBytes(r) == if r.wide then [255, 255, 255, 255] + (low + high) + (id + r.body) else low + (id + r.body)
    ensures BytesOf([]) == [0, 0, 0, 0] && (IsFde(r) <==> r.id != 0)
  {
    hide Le4;
    var n := LengthOf(r);
    Le4Is(n);
    Le4Is(n % TWO32);
    Le4Is(n / TWO32);
    Le4Is(r.id);
    Le4Is(0xFFFF_FFFF);
    Le4Is(0);
    assert !r.wide ==> n % TWO32 == n;
  }

  /** Where the FDEs lie in a section of these records that begins at `at`. */
  function FdesAt(rs: seq<Record>, at: nat): seq<nat> {
    if rs == [] then []
    else (if IsFde(rs[0]) then [at] else []) + FdesAt(rs[1..], at + |RecordBytes(rs[0])|)
  }

  /** Reads are inside the section, or there is no proof. */
  function Read4(s: Bytes, p: nat): nat
    requires p + 4 <= |s|
  {
    FromLe4(s[p..p + 4])
  }

  function Read8(s: Bytes, p: nat): nat
    requires p + 8 <= |s|
  {
    FromLe8(s[p..p + 8])
  }

  /** Calls the visitor on every FDE: the places of the calls, in order. The section is one
      the linker wrote, ending in a record of length zero. */
  method EachFde(s: Bytes, ghost rs: seq<Record>) returns (calls: seq<nat>)
    requires s == BytesOf(rs) && forall r :: r in rs ==> WfRecord(r)
    ensures calls == FdesAt(rs, 0)
  {
    hide BytesOf, RecordBytes, Header, Le4, FromLe4, FromLe8, Read4, Read8, FdesAt;
    calls := [];
    var p: nat := 0;
    ghost var left := rs;
    assert s[0..] == s;
    while true
      invariant p <= |s| && s[p..] == BytesOf(left) && (forall r :: r in left ==> WfRecord(r))
      invariant FdesAt(rs, 0) == calls + FdesAt(left, p)
      decreases |left|
    {
      FirstLength(s, p, left);
      var len := Read4(s, p);
      if len == 0 {
        NoFdes(p);
        break;
      }
      assert left[0] in left;
      FirstRecord(s, p, left);
      var body;
      if len == EXTENDED {
        len, body := Read8(s, p + 4), p + 12;
      } else {
        body := p + 4;
      }
      var id := Read4(s, body);
      if id != 0 {
        calls := calls + [p];
      }
      p := body + len;
      left := left[1..];
    }
  }

  lemma NoFdes(p: nat)
    ensures FdesAt([], p) == []
  {
  }

  /** Cutting a piece out of a section that begins somewhere else. */
  lemma Cut(s: Bytes, p: nat, a: Bytes, b: Bytes, c: Bytes)
    requires p <= |s| && s[p..] == a + b + c
    ensures p + |a| + |b| <= |s| && s[p + |a|..p + |a| + |b|] == b && s[p + |a| + |b|..] == c
  {
    var t := s[p..];
    assert s[p + |a|..p + |a| + |b|] == t[|a|..|a| + |b|];
    assert s[p + |a| + |b|..] == t[|a| + |b|..];
  }

  lemma FirstLength(s: Bytes, p: nat, rs: seq<Record>)
    requires p <= |s| && s[p..] == BytesOf(rs) && forall r :: r in rs ==> WfRecord(r)
    ensures p + 4 <= |s|
    ensures Read4(s, p) == if rs == [] then 0 else if rs[0].wide then EXTENDED else LengthOf(rs[0])
    ensures rs == [] <==> Read4(s, p) == 0
  {
    hide Le4, FromLe4, FromLe8, Le8;
    if rs == [] {
      Le4Back(0);
      assert s[p..] == [] + Le4(0) + [];
      Cut(s, p, [], Le4(0), []);
    } else {
      var r := rs[0];
      assert r in rs;
      var n := if r.wide then EXTENDED else LengthOf(r);
      Le4Back(n);
      var rest := (if r.wide then Le8(LengthOf(r)) else []) + (Le4(r.id) + r.body + BytesOf(rs[1..]));
      assert s[p..] == [] + Le4(n) + rest;
      Cut(s, p, [], Le4(n), rest);
    }
  }

  /** The fields of the record in front, and what lies behind it. */
  lemma FirstRecord(s: Bytes, p: nat, rs: seq<Record>)
    requires rs != [] && p <= |s| && s[p..] == BytesOf(rs) && WfRecord(rs[0])
    ensures var r := rs[0];
            var body := p + if r.wide then 12 else 4;
            && body + LengthOf(r) <= |s|
            && (r.wide ==> Read8(s, p + 4) == LengthOf(r))
            && Read4(s, body) == r.id
            && s[body + LengthOf(r)..] == BytesOf(rs[1..])
            && FdesAt(rs, p) == (if IsFde(r) then [p] else []) + FdesAt(rs[1..], body + LengthOf(r))
  {
    hide Le4, FromLe4, FromLe8, Le8;
    var r := rs[0];
    var h := Header(r);
    assert |h| == if r.wide then 12 else 4;
    assert s[p..] == h + Le4(r.id) + (r.body + BytesOf(rs[1..]));
    Cut(s, p, h, Le4(r.id), r.body + BytesOf(rs[1..]));
    Le4Back(r.id);
    Cut(s, p, h, Le4(r.id) + r.body, BytesOf(rs[1..]));
    if r.wide {
      Le8Back(LengthOf(r));
      Cut(s, p, Le4(EXTENDED), Le8(LengthOf(r)), Le4(r.id) + r.body + BytesOf(rs[1..]));
    }
  }
}
