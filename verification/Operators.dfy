/** The integer operators: the machine's instruction for each against what the operator
    means, and where `/` on INTEGER operands is the quotient it should be. */
module Operators {
  import opened Arith
  import opened Ir
  import opened Machine
  import opened Source
  import opened LowerSpec

  // ---- Wrapping ------------------------------------------------------------------------------

  /** Numbers that differ by a multiple of 2^64 are kept as the same 64 bits. */
  lemma WrapTurns(n: int, k: int)
    ensures Wrap(n + k * TWO64) == Wrap(n)
  {
    assert (n + k * TWO64) % TWO64 == n % TWO64;
  }

  lemma WrapBy(n: int) returns (k: int)
    ensures Wrap(n) == n + k * TWO64
  {
    var m := n % TWO64;
    assert n == TWO64 * (n / TWO64) + m;
    k := if m >= TWO63 then -(n / TWO64) - 1 else -(n / TWO64);
  }

  lemma Unwrapped(n: I64)
    ensures Wrap(n) == n
  {
  }

  /** Wrapping in the middle of a difference does not show. */
  lemma WrapMinus(a: int, n: int)
    ensures Wrap(a - Wrap(n)) == Wrap(a - n)
  {
    var k := WrapBy(n);
    WrapTurns(a - n, -k);
  }

  // ---- DIV and MOD ---------------------------------------------------------------------------

  /** Rounding down is rounding towards zero, one less when the signs differ and
      something is left over. */
  lemma FloorFromTrunc(a: I64, b: I64)
    requires b != 0
    ensures FloorDiv(a, b) == TruncDiv(a, b) - (if TruncRem(a, b) != 0 && (a < 0) != (b < 0) then 1 else 0)
  {
    var (f, q) := (FloorDiv(a, b), TruncDiv(a, b));
    var r: int := Modulo(a, b);
    var s: int := TruncRem(a, b);
    assert b * (f - q) == s - r by {
      assert b * (f - q) == b * f - b * q;
    }
    Between(b, f - q, s - r);
  }

  /** A multiple of `b` that is less than twice its size away from zero. */
  lemma Between(b: int, k: int, n: int)
    requires b != 0 && b * k == n && -2 * Abs(b) < n < 2 * Abs(b)
    ensures (n == 0 <==> k == 0) && (n == b <==> k == 1) && (n == -b <==> k == -1) && -1 <= k <= 1
  {
    if k >= 2 || k <= -2 { AtLeastTwice(b, k); }
  }

  lemma AtLeastTwice(b: int, k: int)
    requires k >= 2 || k <= -2
    ensures Abs(b * k) >= 2 * Abs(b)
  {
    if k >= 2 {
      assert b >= 0 ==> b * k >= b * 2;
      assert b < 0 ==> b * k <= b * 2;
    } else {
      assert b >= 0 ==> b * k <= b * -2;
      assert b < 0 ==> b * k >= b * -2;
    }
  }

  lemma WrapMinusOne(t: int)
    ensures Wrap(Wrap(t) - 1) == Wrap(t - 1)
  {
    hide Wrap;
    var k := WrapBy(t);
    WrapTurns(t - 1, k);
  }

  lemma FlooredIs(a: I64, b: I64)
    requires b != 0
    ensures Floored(a, b) == Wrap(FloorDiv(a, b))
  {
    hide TruncDiv, FloorDiv, Wrap;
    var t := TruncDiv(a, b);
    var rest: int := TruncRem(a, b);
    FloorFromTrunc(a, b);
    assert a - b * t == rest;
    ScaledBack(a, b, t, rest, Wrap(t));
    WrapMinusOne(t);
  }

  lemma ModIs(a: I64, b: I64)
    requires b != 0
    ensures Wrap(a - Wrap(Floored(a, b) * b)) == Modulo(a, b)
  {
    hide Floored, FloorDiv, Wrap;
    FlooredIs(a, b);
    ScaledBack(a, b, FloorDiv(a, b), Modulo(a, b), Floored(a, b));
  }

  /** What is left over does not depend on whether the quotient was wrapped. */
  lemma ScaledBack(a: I64, b: I64, t: int, rest: I64, q: int)
    requires q == Wrap(t) && rest == a - b * t
    ensures Wrap(a - Wrap(q * b)) == rest
  {
    hide Wrap;
    var k := WrapBy(t);
    WrapMinus(a, q * b);
    assert a - q * b == rest + (-k * b) * TWO64 by {
      assert q * b == t * b + (k * TWO64) * b;
      assert (k * TWO64) * b == (k * b) * TWO64;
    }
    WrapTurns(rest, -k * b);
    Unwrapped(rest);
  }

  /** The one signed division whose quotient is no 64-bit number, so that an instruction
      set may leave it undefined; here it wraps. */
  lemma QuotientFitsIff(a: I64, b: I64)
    requires b != 0
    ensures IsInt64(TruncDiv(a, b)) <==> !(a == MIN64 && b == -1)
  {
    QuotientBounds(Abs(a), Abs(b));
  }

  // ---- CARDINAL ------------------------------------------------------------------------------

  lemma UnsignedBy(a: int) returns (k: int)
    ensures Unsigned(a) == a + k * TWO64
  {
    k := -(a / TWO64);
  }

  /** Sums, differences and products are the same bits, signed or unsigned. */
  lemma SameBits(a: I64, b: I64)
    ensures Wrap(a + b) == Wrap(Unsigned(a) + Unsigned(b))
    ensures Wrap(a - b) == Wrap(Unsigned(a) - Unsigned(b))
    ensures Wrap(a * b) == Wrap(Unsigned(a) * Unsigned(b))
    ensures a == b <==> Unsigned(a) == Unsigned(b)
  {
    hide Wrap, Unsigned;
    var j := UnsignedBy(a);
    var k := UnsignedBy(b);
    WrapTurns(a + b, j + k);
    WrapTurns(a - b, j - k);
    ProductTurns(a, b, j, k);
    UnsignedIs(a);
    UnsignedIs(b);
  }

  lemma ProductTurns(a: int, b: int, j: int, k: int)
    ensures Wrap((a + j * TWO64) * (b + k * TWO64)) == Wrap(a * b)
  {
    hide Wrap;
    var d := b + k * TWO64;
    assert (a + j * TWO64) * d == a * d + (j * d) * TWO64;
    assert a * d == a * b + (a * k) * TWO64;
    WrapTurns(a * d, j * d);
    WrapTurns(a * b, a * k);
  }

  lemma UnsignedIs(a: I64)
    ensures Unsigned(a) == if a >= 0 then a else a + TWO64
  {
  }

  // ---- Every operator --------------------------------------------------------------------------

  lemma OnIntegersAgrees(op: ArithOp, a: I64, b: I64)
    requires !op.cardinal && (Divides(op) ==> b != 0)
    ensures BinaryOf(IrOp(op), a, b) == Some(Meaning(op, a, b))
  {
    hide Floored, Modulo, TruncRem, FloorDiv, Wrap;
    if b != 0 {
      FlooredIs(a, b);
      ModIs(a, b);
    }
  }

  lemma OnCardinalsAgrees(op: ArithOp, a: I64, b: I64)
    requires op.cardinal && (Divides(op) ==> b != 0)
    ensures BinaryOf(IrOp(op), a, b) == Some(Meaning(op, a, b))
  {
    hide Floored, Modulo, TruncRem, FloorDiv, Unsigned, Wrap;
    SameBits(a, b);
    UnsignedIs(0);
    if b != 0 { SameBits(b, 0); }
  }

  /** The instruction chosen for an operator computes the operator: DIV and MOD rounded
      down though the hardware rounds towards zero, CARDINAL operands unsigned. */
  lemma OperatorsAgree(op: ArithOp, a: I64, b: I64)
    requires Divides(op) ==> b != 0
    ensures BinaryOf(IrOp(op), a, b) == Some(Meaning(op, a, b))
  {
    if op.cardinal { OnCardinalsAgrees(op, a, b); } else { OnIntegersAgrees(op, a, b); }
  }

  // ---- The quotient `/` --------------------------------------------------------------------------

  /** What `/` is in a constant expression: the quotient towards zero. */
  function Quotient(a: I64, b: I64): I64
    requires b != 0
  {
    Wrap(TruncDiv(a, b))
  }

  /** The same `/` at run time, on INTEGER operands, gives that quotient if and only if
      neither operand is negative, or the divisor is 1, or a negative divisor is the
      dividend or larger in size than a dividend that is not negative. */
  lemma SlashIsRightIff(a: I64, b: I64)
    requires b != 0
    ensures OnIntegers(Slash, a, b) == Quotient(a, b) <==> (a >= 0 && b > 0) || b == 1 || a == b || (a >= 0 && b < -a)
  {
    if a >= 0 && b > 0 {
      UnsignedIs(a);
      UnsignedIs(b);
    } else if b > 0 {
      NegativeByPositive(a, b);
    } else if a >= 0 {
      PositiveByNegative(a, b);
    } else {
      NegativeByNegative(a, b);
    }
  }

  lemma NegativeByPositive(a: I64, b: I64)
    requires a < 0 < b
    ensures OnIntegers(Slash, a, b) == Quotient(a, b) <==> b == 1
  {
    hide Unsigned;
    UnsignedIs(a);
    UnsignedIs(b);
    QuotientBounds(a + TWO64, b);
    QuotientBounds(Abs(a), b);
    WrapTurns(a, 1);
  }

  lemma PositiveByNegative(a: I64, b: I64)
    requires b < 0 <= a
    ensures OnIntegers(Slash, a, b) == Quotient(a, b) <==> b < -a
  {
    hide Unsigned;
    UnsignedIs(a);
    UnsignedIs(b);
    QuotientBounds(a, b + TWO64);
    QuotientBounds(a, Abs(b));
  }

  lemma NegativeByNegative(a: I64, b: I64)
    requires a < 0 && b < 0
    ensures OnIntegers(Slash, a, b) == Quotient(a, b) <==> a == b
  {
    hide Unsigned, Wrap;
    UnsignedIs(a);
    UnsignedIs(b);
    QuotientBounds(a + TWO64, b + TWO64);
    QuotientBounds(Abs(a), Abs(b));
    SmallWraps(Abs(a) / Abs(b));
  }

  /** Wrapping keeps the numbers below 2^63 and makes 2^63 negative. */
  lemma SmallWraps(n: int)
    requires 0 <= n <= TWO63
    ensures Wrap(n) == if n == TWO63 then MIN64 else n
    ensures Wrap(0) == 0 && Wrap(1) == 1
  {
  }

  /** The quotients that can be told without dividing. */
  lemma QuotientBounds(x: nat, y: nat)
    requires y > 0
    ensures 0 <= x / y <= x && (x < y ==> x / y == 0) && (y == 1 ==> x / y == x)
    ensures y <= x < 2 * y ==> x / y == 1
    ensures y <= x ==> x / y >= 1
    ensures y >= 2 ==> 2 * (x / y) <= x
  {
    assert x == y * (x / y) + x % y;
    ProductBounds(y, x / y);
  }

  lemma ProductBounds(y: nat, q: nat)
    requires y > 0
    ensures q <= y * q && (q >= 1 ==> y <= y * q) && (q >= 2 ==> 2 * y <= y * q) && (y >= 2 ==> 2 * q <= y * q)
    ensures (q == 0 ==> y * q == 0) && (y == 1 ==> y * q == q)
  {
    if q >= 2 { assert y * q >= y * 2; }
    if y >= 2 { assert y * q >= 2 * q; }
  }

  /** -6 / 2, which is -3 as a constant, is 2^63 - 3 at run time. */
  lemma SlashGoesWrong()
    ensures Quotient(-6, 2) == -3 && OnIntegers(Slash, -6, 2) == MAX64 - 2
  {
  }
}
