/** The daemon's pipe and the frames that go through it. */
module Server {
  import opened Ir
  import opened Lossy

  const MAX_FRAME: nat := 64 * 1024 * 1024
  const TWO32: nat := 0x1_0000_0000

  // ---- Frames --------------------------------------------------------------------------------

  function Le4(n: nat): (s: Bytes)
    ensures |s| == 4
  {
    var b: nat := n / 0x100;
    var c: nat := b / 0x100;
    var d: nat := c / 0x100;
    [Low(n), Low(b), Low(c), Low(d)]
  }

  function Low(n: nat): Byte { n % 256 }

  function FromLe4(s: Bytes): nat
    requires |s| == 4
  {
    s[0] as int + 0x100 * (s[1] as int) + 0x1_0000 * (s[2] as int) + 0x100_0000 * (s[3] as int)
  }

  lemma Le4Back(n: nat)
    ensures FromLe4(Le4(n)) == n % TWO32
  {
    var b: nat := n / 0x100;
    var c: nat := b / 0x100;
    var d: nat := c / 0x100;
    var e: nat := d / 0x100;
    var (i, j, k, l) := (n % 0x100, b % 0x100, c % 0x100, d % 0x100);
    assert n == 0x100 * b + i && b == 0x100 * c + j && c == 0x100 * d + k && d == 0x100 * e + l;
    assert n == TWO32 * e + (i + 0x100 * j + 0x1_0000 * k + 0x100_0000 * l);
  }

  /** The lowest byte comes first. */
  lemma Le4Is(n: nat)
    ensures Le4(n) == [n % 256, n / 256 % 256, n / 0x1_0000 % 256, n / 0x100_0000 % 256]
  {
    var b: nat := n / 0x100;
    assert b / 0x100 == n / 0x1_0000 && n / 0x1_0000 / 0x100 == n / 0x100_0000;
  }

  function Frame(payload: Bytes): Bytes {
    Le4(|payload| % TWO32) + payload
  }

  datatype Unframed = Unframed(payload: Bytes, rest: Bytes)

  /** The frame at the front of what has arrived. */
  function Unframe(data: Bytes): Option<Unframed> {
    if |data| < 4 then None
    else
      var len := FromLe4(data[..4]);
      if len == 0 then Some(Unframed([], data[4..]))
      else if len > MAX_FRAME || |data| - 4 < len then None
      else Some(Unframed(data[4..][..len], data[4..][len..]))
  }

  /** A pipe: bytes go in and come out in order, in pieces of any size; a broken one may
      fail at any time. */
  class Pipe {
    var data: Bytes
    const broken: bool

    constructor (broken: bool)
      ensures data == [] && this.broken == broken
    {
      data, this.broken := [], broken;
    }

    /** At least one byte and at most `max`, or nothing at all. */
    method ReadFile(max: nat) returns (got: Bytes)
      modifies this
      ensures |got| <= max && old(data) == got + data
      ensures got == [] ==> broken || max == 0 || data == []
    {
      got := [];
      if max > 0 && data != [] {
        var fails: bool :| fails ==> broken;
        if !fails {
          var n: nat :| 1 <= n <= max && n <= |data| by {
            assert 1 <= 1 <= max && 1 <= |data|;
          }
          got, data := data[..n], data[n..];
        }
      }
    }

    method WriteFile(buf: Bytes) returns (n: nat)
      modifies this
      ensures n <= |buf| && data == old(data) + buf[..n]
      ensures n == 0 ==> broken || buf == []
    {
      n := 0;
      if buf != [] {
        var fails: bool :| fails ==> broken;
        if !fails {
          n :| 1 <= n <= |buf| by {
            assert 1 <= 1 <= |buf|;
          }
          data := data + buf[..n];
        }
      }
    }

    /** Exactly `len` bytes, whatever the pieces they come in. */
    method ReadExact(len: nat) returns (ok: bool, buf: Bytes)
      modifies this
      ensures old(data) == buf + data && (ok ==> |buf| == len)
      ensures !ok ==> broken || |old(data)| < len
    {
      buf := [];
      while |buf| < len
        invariant |buf| <= len && old(data) == buf + data
      {
        var piece := ReadFile(len - |buf|);
        if piece == [] {
          return false, buf;
        }
        buf := buf + piece;
      }
      ok := true;
    }

    method WriteAll(buf: Bytes) returns (ok: bool)
      modifies this
      ensures ok ==> data == old(data) + buf
      ensures !ok ==> broken
    {
      var sent := 0;
      while sent < |buf|
        invariant 0 <= sent <= |buf| && data == old(data) + buf[..sent]
      {
        var n := WriteFile(buf[sent..]);
        if n == 0 {
          return false;
        }
        assert buf[..sent] + buf[sent..][..n] == buf[..sent + n];
        sent := sent + n;
      }
      assert buf[..sent] == buf;
      ok := true;
    }

    method ReadFrame() returns (text: Option<Text>)
      modifies this
      ensures text.Some? ==> Unframe(old(data)).Some? && text.value == Decode(Unframe(old(data)).value.payload) && data == Unframe(old(data)).value.rest
      ensures text.None? ==> broken || Unframe(old(data)).None?
    {
      var ok, head := ReadExact(4);
      if !ok {
        return None;
      }
      assert old(data)[..4] == head && old(data)[4..] == data;
      var len := FromLe4(head);
      if len == 0 {
        return Some([]);
      }
      if len > MAX_FRAME {
        return None;
      }
      ghost var body := data;
      var ok2, buf := ReadExact(len);
      if !ok2 {
        return None;
      }
      assert body[..len] == buf && body[len..] == data;
      text := Some(Decode(buf));
    }

    method WriteFrame(payload: Bytes) returns (ok: bool)
      modifies this
      ensures ok ==> data == old(data) + Frame(payload)
      ensures !ok ==> broken
    {
      ok := WriteAll(Le4(|payload| % TWO32));
      if ok {
        ok := WriteAll(payload);
        assert old(data) + Le4(|payload| % TWO32) + payload == old(data) + Frame(payload);
      }
    }
  }

  /** A frame is given back, and nothing behind it touched, exactly when it is not too long. */
  lemma FrameBackIff(payload: Bytes, rest: Bytes)
    ensures Unframe(Frame(payload) + rest) == Some(Unframed(payload, rest)) <==> |payload| <= 0x400_0000
  {
    hide Le4, FromLe4;
    var s := Frame(payload) + rest;
    var n := |payload| % TWO32;
    Le4Back(n);
    assert s[..4] == Le4(n) && s[4..] == payload + rest;
    if |payload| <= MAX_FRAME {
      assert (payload + rest)[..|payload|] == payload && (payload + rest)[|payload|..] == rest;
    }
  }

  /** What a frame is, byte by byte: the length, lowest byte first, and the payload. */
  lemma FrameIs(payload: Bytes)
    requires |payload| <= 0x400_0000
    ensures var n := |payload|; Frame(payload) == [n % 256, n / 256 % 256, n / 0x1_0000 % 256, n / 0x100_0000 % 256] + payload
  {
    hide Le4;
    Le4Is(|payload|);
    assert |payload| % TWO32 == |payload|;
  }

  function Frames(payloads: seq<Bytes>): Bytes {
    if payloads == [] then [] else Frame(payloads[0]) + Frames(payloads[1..])
  }

  /** Frames taken off, one after the other, until one is missing or not whole. */
  function Unframes(data: Bytes): seq<Bytes>
    decreases |data|
  {
    match Unframe(data)
    case None => []
    case Some(u) => [u.payload] + Unframes(u.rest)
  }

  lemma {:induction false} FramesBack(payloads: seq<Bytes>)
    requires forall p :: p in payloads ==> |p| <= MAX_FRAME
    ensures Unframes(Frames(payloads)) == payloads
    decreases |payloads|
  {
    hide Frame, Unframe;
    if payloads == [] {
      assert Unframe([]).None? by { NoFrame(); }
    } else {
      assert payloads[0] in payloads;
      FramesBack(payloads[1..]);
      FrameBackIff(payloads[0], Frames(payloads[1..]));
    }
  }

  lemma NoFrame()
    ensures Unframe([]).None?
  {
  }

  /** What a list of frames says. */
  function Texts(payloads: seq<Bytes>): (r: seq<Text>)
    ensures |r| == |payloads| && forall i :: 0 <= i < |r| ==> r[i] == Decode(payloads[i])
  {
    seq(|payloads|, i requires 0 <= i < |payloads| => Decode(payloads[i]))
  }

  /** The daemon's side of one connection: requests until no whole one comes. */
  method ReadRequests(pipe: Pipe) returns (requests: seq<Text>)
    modifies pipe
    ensures requests <= Texts(Unframes(old(pipe.data)))
    ensures !pipe.broken ==> requests == Texts(Unframes(old(pipe.data)))
    decreases |pipe.data|
  {
    hide Unframe, Decode;
    requests := [];
    var more := true;
    while more
      invariant more ==> Texts(Unframes(old(pipe.data))) == requests + Texts(Unframes(pipe.data))
      invariant !more ==> requests <= Texts(Unframes(old(pipe.data))) && (!pipe.broken ==> requests == Texts(Unframes(old(pipe.data))))
      decreases more, |pipe.data|
    {
      ghost var before := pipe.data;
      var request := pipe.ReadFrame();
      match request
      case None => more := false;
      case Some(text) =>
        UnframeShrinks(before);
        requests := requests + [text];
    }
  }

  lemma UnframeShrinks(data: Bytes)
    ensures Unframe(data).Some? ==> |Unframe(data).value.rest| < |data|
  {
  }
}
