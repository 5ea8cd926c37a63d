/** 64-bit arithmetic. A value of the compiled code is kept as the signed number its
    bits stand for; CARDINAL operands are read as unsigned. */
module Arith {
  const TWO63: int := 0x8000_0000_0000_0000
  const TWO64: int := 0x1_0000_0000_0000_0000
  const MIN64: int := -TWO63
  const MAX64: int := TWO63 - 1

  predicate IsInt64(n: int) {
    MIN64 <= n <= MAX64
  }

  type I64 = n: int | MIN64 <= n <= MAX64

  /** Two's-complement truncation to 64 bits. */
  function Wrap(n: int): (r: I64)
    ensures IsInt64(n) ==> r == n
  {
    var m := n % TWO64;
    if m >= TWO63 then m - TWO64 else m
  }

  /** The same 64 bits read as an unsigned number. */
  function Unsigned(n: int): (r: int)
    ensures 0 <= r < TWO64
  {
    n % TWO64
  }

  /** Division rounded towards minus infinity (the DIV of Wirth's report). */
  function FloorDiv(a: int, b: int): int
    requires b != 0
  {
    if b > 0 then a / b else (-a) / (-b)
  }

  /** MOD of Wirth's report: what DIV leaves, with the sign of the divisor. */
  function Modulo(a: I64, b: I64): (r: I64)
    requires b != 0
    ensures a == b * FloorDiv(a, b) + r && (if b > 0 then 0 <= r < b else b < r <= 0)
  {
    FloorBound(a, b);
    a - b * FloorDiv(a, b)
  }

  lemma FloorBound(a: int, b: int)
    requires b != 0
    ensures var r := a - b * FloorDiv(a, b); if b > 0 then 0 <= r < b else b < r <= 0
  {
    if b > 0 {
      assert a == b * (a / b) + a % b;
    } else {
      assert -a == (-b) * ((-a) / (-b)) + (-a) % (-b);
    }
  }

  /** Division rounded towards zero. */
  function TruncDiv(a: int, b: int): int
    requires b != 0
  {
    if a >= 0 then (if b > 0 then a / b else -(a / (-b)))
    else (if b > 0 then -((-a) / b) else (-a) / (-b))
  }

  /** What division towards zero leaves, with the sign of the dividend. */
  function TruncRem(a: I64, b: I64): (r: I64)
    requires b != 0
    ensures a == b * TruncDiv(a, b) + r && (if a >= 0 then 0 <= r < Abs(b) else -Abs(b) < r <= 0)
  {
    TruncBound(a, b);
    a - b * TruncDiv(a, b)
  }

  function Abs(n: int): int {
    if n < 0 then -n else n
  }

  lemma TruncBound(a: int, b: int)
    requires b != 0
    ensures var r := a - b * TruncDiv(a, b); if a >= 0 then 0 <= r < Abs(b) else -Abs(b) < r <= 0
  {
    var (x, y) := (Abs(a), Abs(b));
    assert x == y * (x / y) + x % y;
    assert b * TruncDiv(a, b) == (if a >= 0 then y * (x / y) else -(y * (x / y))) by {
      if b > 0 {
        assert b * -(x / y) == -(b * (x / y));
      } else {
        assert b * -(x / y) == -b * (x / y);
        assert b * (x / y) == -(-b * (x / y));
      }
    }
  }

  function FromBool(b: bool): I64 {
    if b then 1 else 0
  }
}
