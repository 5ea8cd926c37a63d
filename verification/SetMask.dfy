/** Set constructors: elements and ranges as masks over 256 bits. */
module SetMask {
  import opened Ir

  const WIDTH: nat := 256

  type Bits = s: seq<bool> | |s| == WIDTH witness seq(WIDTH, _ => false)

  /** Element values, as the unsigned numbers they are widened to. */
  datatype Elem = Single(n: nat) | Range(lo: nat, hi: nat)

  const NOTHING: Bits := seq(WIDTH, _ => false)
  const ONES: Bits := seq(WIDTH, _ => true)
  const ONE: Bits := seq(WIDTH, i requires 0 <= i < WIDTH => i == 0)

  // A shift by the width or more has no value.
  function Shl(s: Bits, n: nat): Option<Bits> {
    if n >= WIDTH then None else Some(seq(WIDTH, k requires 0 <= k < WIDTH => k >= n && s[k - n]))
  }

  function Shr(s: Bits, n: nat): Option<Bits> {
    if n >= WIDTH then None else Some(seq(WIDTH, k requires 0 <= k < WIDTH => k + n < WIDTH && s[k + n]))
  }

  function Or(a: Bits, b: Bits): Bits { seq(WIDTH, k requires 0 <= k < WIDTH => a[k] || b[k]) }

  function And(a: Bits, b: Bits): Bits { seq(WIDTH, k requires 0 <= k < WIDTH => a[k] && b[k]) }

  /** 255 - hi in 256 bits: a huge number when `hi` is too large. */
  function UpTo(hi: nat): nat { if hi < WIDTH then WIDTH - 1 - hi else WIDTH }

  predicate InWidth(e: Elem) {
    match e
    case Single(n) => n < 256
    case Range(lo, hi) => lo < 256 && hi < 256
  }

  predicate Has(e: Elem, k: nat) {
    match e
    case Single(n) => k == n
    case Range(lo, hi) => lo <= k <= hi
  }

  /** The masks of the elements, one after the other. A value exists exactly when every
      element lies in the type, and its bits are those of the elements; a range that
      ends before it begins has none. */
  method Construct(elems: seq<Elem>) returns (bits: Option<Bits>)
    ensures bits.Some? <==> forall e :: e in elems ==> InWidth(e)
    ensures bits.Some? ==> forall k :: 0 <= k < WIDTH ==> (bits.value[k] <==> exists e :: e in elems && Has(e, k))
  {
    var acc := NOTHING;
    for i := 0 to |elems|
      invariant forall e :: e in elems[..i] ==> InWidth(e)
      invariant forall k :: 0 <= k < WIDTH ==> (acc[k] <==> exists e :: e in elems[..i] && Has(e, k))
    {
      var e := elems[i];
      assert elems[..i + 1] == elems[..i] + [e];
      var mask := Mask(e);
      if mask.None? {
        assert e in elems;
        return None;
      }
      ghost var was := acc;
      acc := Or(acc, mask.value);
      forall k | 0 <= k < WIDTH
        ensures acc[k] <==> exists f :: f in elems[..i + 1] && Has(f, k)
      {
        if mask.value[k] {
          assert e in elems[..i + 1] && Has(e, k);
        }
      }
    }
    assert elems[..|elems|] == elems;
    bits := Some(acc);
  }

  method Mask(e: Elem) returns (mask: Option<Bits>)
    ensures mask.Some? <==> InWidth(e)
    ensures mask.Some? ==> forall k :: 0 <= k < WIDTH ==> (mask.value[k] <==> Has(e, k))
  {
    match e
    case Single(n) => mask := Shl(ONE, n);
    case Range(lo, hi) =>
      var low := Shl(ONES, lo);
      var high := Shr(ONES, UpTo(hi));
      if low.None? || high.None? {
        return None;
      }
      mask := Some(And(low.value, high.value));
  }

  /** INCL and EXCL change the one element they name. */
  method InclExcl(was: Bits, n: nat, incl: bool) returns (r: Option<Bits>)
    ensures r.Some? <==> n < 256
    ensures r.Some? ==> forall k :: 0 <= k < WIDTH ==> r.value[k] == if k == n then incl else was[k]
  {
    var mask := Shl(ONE, n);
    if mask.None? {
      return None;
    }
    var not: Bits := seq(WIDTH, k requires 0 <= k < WIDTH => mask.value[k] != ONES[k]);
    r := Some(if incl then Or(was, mask.value) else And(was, not));
  }
}
