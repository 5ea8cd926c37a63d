/** Sizes and alignments told by the widths of scalars in bits and by least multiples:
    a law for every kind of type, which together leave no choice, and the return class of
    a struct of scalars counted in bits. */
module Measures {
  import opened Ir
  import opened Encoding
  import opened Layout
  import opened Leaves
  import opened HfaReturn

  // ---- One law for each kind of type ----------------------------------------------------------

  /** `r` is the first multiple of `a` from `x` on. */
  ghost predicate LeastMultiple(r: nat, x: nat, a: nat) {
    a >= 1 && x <= r && r % a == 0 && forall y: nat :: x <= y < r ==> y % a != 0
  }

  lemma NotBetween(r: nat, y: nat, a: nat)
    requires IsAlign(a) && r % a == 0 && y < r < y + a
    ensures y % a != 0
  {
  }

  lemma RoundUpIsLeast(x: nat, a: nat)
    requires IsAlign(a)
    ensures LeastMultiple(RoundUp(x, a), x, a)
  {
    RoundUpIs(x, a);
    var r := RoundUp(x, a);
    forall y: nat | x <= y < r
      ensures y % a != 0
    {
      NotBetween(r, y, a);
    }
  }

  /** Scalars have the widths of arm64, and are aligned to them. */
  lemma ScalarsMeasure()
    ensures forall s :: s in [I8, U8, Boolean] ==> Size(Leaf(s)) == 1 && Align(Leaf(s)) == 1
    ensures forall s :: s in [I16, U16] ==> Size(Leaf(s)) == 2 && Align(Leaf(s)) == 2
    ensures forall s :: s in [I32, U32, F32] ==> Size(Leaf(s)) == 4 && Align(Leaf(s)) == 4
    ensures forall s :: s in [I64, U64, F64, Ptr] ==> Size(Leaf(s)) == 8 && Align(Leaf(s)) == 8
    ensures Size(Pointer) == 8 && Align(Pointer) == 8
    ensures forall c :: Size(Unknown(c)) == 0 && Align(Unknown(c)) == 1
  {
  }

  /** A bit-field takes as many whole bytes as its bits need, and at least one. */
  lemma BitfieldMeasures(bits: Count32)
    ensures var n := Size(Bitfield(bits)); n >= 1 && bits <= 8 * n && (n > 1 ==> 8 * (n - 1) < bits)
    ensures Align(Bitfield(bits)) == 1
  {
  }

  /** Elements stand next to each other, without padding. */
  lemma ArrayMeasures(len: Count64, elem: Ty)
    ensures Align(Array(len, elem)) == Align(elem) && Size(Array(len, elem)) == Size(elem) * len
  {
    SizeIsMultiple(elem);
    AlreadyRound(Size(elem), Align(elem));
  }

  /** `m` is 1 or the alignment of a field, and no field's is larger. */
  ghost predicate WidestOf(fields: seq<Field>, m: nat) {
    && (m == 1 || exists i :: 0 <= i < |fields| && m == Align(fields[i].ty)) && m >= 1
    && forall i :: 0 <= i < |fields| ==> Align(fields[i].ty) <= m
  }

  lemma {:induction false} MaxAlignIsWidest(fields: seq<Field>, n: nat)
    requires n <= |fields|
    ensures WidestOf(fields[..n], MaxAlign(fields, n))
    decreases n
  {
    if n > 0 {
      MaxAlignIsWidest(fields, n - 1);
      var init := fields[..n - 1];
      assert forall i :: 0 <= i < n - 1 ==> fields[..n][i] == init[i];
      assert fields[..n][n - 1] == fields[n - 1];
      var m := MaxAlign(fields, n - 1);
      if m != 1 {
        var i :| 0 <= i < |init| && m == Align(init[i].ty);
        assert fields[..n][i].ty == init[i].ty;
      }
    }
  }

  /** Each field comes as early as its alignment allows behind the one before it, and
      the struct ends as early as its own does. */
  lemma StructMeasures(name: Option<Text>, fields: seq<Field>)
    ensures WidestOf(fields, Align(Struct(name, fields)))
    ensures fields == [] ==> Size(Struct(name, fields)) == 0
    ensures fields != [] ==> OffsetOf(fields, 0) == 0
    ensures forall i :: 1 <= i < |fields| ==>
              LeastMultiple(OffsetOf(fields, i), OffsetOf(fields, i - 1) + Size(fields[i - 1].ty), Align(fields[i].ty))
    ensures fields != [] ==>
              var n := |fields| - 1;
              LeastMultiple(Size(Struct(name, fields)), OffsetOf(fields, n) + Size(fields[n].ty), Align(Struct(name, fields)))
  {
    hide Size, Align, RoundUp, LeastMultiple, OffsetOf, EndOf, MaxAlign, WidestOf;
    forall i | 1 <= i < |fields|
      ensures LeastMultiple(OffsetOf(fields, i), OffsetOf(fields, i - 1) + Size(fields[i - 1].ty), Align(fields[i].ty))
    {
      OffsetMeasures(fields, i);
    }
    StructIsRounded(name, fields);
    StructAligns(fields);
    EndMeasures(fields);
    ZeroRounds();
    NothingIsFirst(fields);
    if fields != [] {
      OffsetIsRounded(fields, 0);
    }
  }

  lemma OffsetMeasures(fields: seq<Field>, i: nat)
    requires 1 <= i < |fields|
    ensures LeastMultiple(OffsetOf(fields, i), OffsetOf(fields, i - 1) + Size(fields[i - 1].ty), Align(fields[i].ty))
  {
    hide Size, Align, RoundUp, LeastMultiple, OffsetOf, EndOf;
    EndIsBehind(fields, i);
    RoundUpIsLeast(EndOf(fields, i), FieldAlign(fields[i]));
    OffsetIsRounded(fields, i);
  }

  lemma EndMeasures(fields: seq<Field>)
    ensures fields != [] ==>
              var n := |fields| - 1;
              LeastMultiple(RoundUp(EndOf(fields, |fields|), MaxAlign(fields, |fields|)), OffsetOf(fields, n) + Size(fields[n].ty), MaxAlign(fields, |fields|))
  {
    hide Size, Align, RoundUp, LeastMultiple, OffsetOf, EndOf, MaxAlign;
    RoundUpIsLeast(EndOf(fields, |fields|), MaxAlign(fields, |fields|));
    if fields != [] {
      EndIsBehind(fields, |fields|);
    }
  }

  lemma StructAligns(fields: seq<Field>)
    ensures WidestOf(fields, MaxAlign(fields, |fields|))
  {
    hide Align, MaxAlign, WidestOf;
    MaxAlignIsWidest(fields, |fields|);
    assert fields[..|fields|] == fields;
  }

  lemma EndIsBehind(fields: seq<Field>, i: nat)
    requires 1 <= i <= |fields|
    ensures EndOf(fields, i) == OffsetOf(fields, i - 1) + Size(fields[i - 1].ty)
  {
  }

  lemma OffsetIsRounded(fields: seq<Field>, i: nat)
    requires i < |fields|
    ensures OffsetOf(fields, i) == RoundUp(EndOf(fields, i), FieldAlign(fields[i])) && FieldAlign(fields[i]) == Align(fields[i].ty)
  {
  }

  lemma NothingIsFirst(fields: seq<Field>)
    ensures EndOf(fields, 0) == 0
  {
  }

  lemma StructIsRounded(name: Option<Text>, fields: seq<Field>)
    ensures Size(Struct(name, fields)) == RoundUp(EndOf(fields, |fields|), MaxAlign(fields, |fields|))
    ensures Align(Struct(name, fields)) == MaxAlign(fields, |fields|)
  {
  }

  lemma ZeroRounds()
    ensures forall a: nat :: RoundUp(0, a) == 0
  {
  }

  /** `m` is the largest of the fields' sizes, 0 if there is none. */
  ghost predicate LargestOf(fields: seq<Field>, m: nat) {
    && (m == 0 || exists i :: 0 <= i < |fields| && m == Size(fields[i].ty))
    && forall i :: 0 <= i < |fields| ==> Size(fields[i].ty) <= m
  }

  lemma {:induction false} MaxSizeIsLargest(fields: seq<Field>, n: nat)
    requires n <= |fields|
    ensures LargestOf(fields[..n], MaxSize(fields, n))
    decreases n
  {
    if n > 0 {
      MaxSizeIsLargest(fields, n - 1);
      var init := fields[..n - 1];
      assert forall i :: 0 <= i < n - 1 ==> fields[..n][i] == init[i];
      assert fields[..n][n - 1] == fields[n - 1];
      var m := MaxSize(fields, n - 1);
      if m != 0 {
        var i :| 0 <= i < |init| && m == Size(init[i].ty);
        assert fields[..n][i].ty == init[i].ty;
      }
    }
  }

  /** A union is as large as its largest field, rounded up to its alignment. */
  lemma UnionMeasures(name: Option<Text>, fields: seq<Field>) returns (m: nat)
    ensures LargestOf(fields, m) && WidestOf(fields, Align(Union(name, fields)))
    ensures LeastMultiple(Size(Union(name, fields)), m, Align(Union(name, fields)))
  {
    MaxAlignIsWidest(fields, |fields|);
    MaxSizeIsLargest(fields, |fields|);
    assert fields[..|fields|] == fields;
    m := MaxSize(fields, |fields|);
    RoundUpIsLeast(m, MaxAlign(fields, |fields|));
  }

  // ---- Structs of scalars, in bits --------------------------------------------------------------

  ghost function Width(s: Scalar): (w: nat)
    ensures w in {8, 16, 32, 64}
  {
    match s
    case I8 => 8
    case U8 => 8
    case Boolean => 8
    case I16 => 16
    case U16 => 16
    case I32 => 32
    case U32 => 32
    case F32 => 32
    case I64 => 64
    case U64 => 64
    case F64 => 64
    case Ptr => 64
  }

  /** The first multiple of `w` from `x` on. */
  ghost function UpTo(x: nat, w: nat): nat
    requires w >= 1
  {
    (x + w - 1) / w * w
  }

  /** The bits the scalars take one behind the other. */
  ghost function EndBits(ss: seq<Scalar>): nat {
    if ss == [] then 0
    else
      var w := Width(ss[|ss| - 1]);
      UpTo(EndBits(ss[..|ss| - 1]), w) + w
  }

  ghost function Widest(ss: seq<Scalar>): (w: nat)
    ensures w in {8, 16, 32, 64}
  {
    if ss == [] then 8
    else
      var (v, w) := (Widest(ss[..|ss| - 1]), Width(ss[|ss| - 1]));
      if v < w then w else v
  }

  ghost predicate Holding(fields: seq<Field>, ss: seq<Scalar>) {
    |fields| == |ss| && forall i :: 0 <= i < |ss| ==> fields[i].ty == Leaf(ss[i])
  }

  lemma UpTo8(y: nat)
    ensures y <= UpTo(y, 8) < y + 8 && UpTo(y, 8) % 8 == 0
  {
    var (n, q) := (y + 7, (y + 7) / 8);
    assert n == q * 8 + n % 8 && q * 8 % 8 == 0;
  }

  lemma UpTo16(y: nat)
    ensures y <= UpTo(y, 16) < y + 16 && UpTo(y, 16) % 16 == 0
  {
    var (n, q) := (y + 15, (y + 15) / 16);
    assert n == q * 16 + n % 16 && q * 16 % 16 == 0;
  }

  lemma UpTo32(y: nat)
    ensures y <= UpTo(y, 32) < y + 32 && UpTo(y, 32) % 32 == 0
  {
    var (n, q) := (y + 31, (y + 31) / 32);
    assert n == q * 32 + n % 32 && q * 32 % 32 == 0;
  }

  lemma UpTo64(y: nat)
    ensures y <= UpTo(y, 64) < y + 64 && UpTo(y, 64) % 64 == 0
  {
    var (n, q) := (y + 63, (y + 63) / 64);
    assert n == q * 64 + n % 64 && q * 64 % 64 == 0;
  }

  lemma UpToIs(y: nat, w: nat)
    requires w == 8 || w == 16 || w == 32 || w == 64
    ensures y <= UpTo(y, w) < y + w && UpTo(y, w) % w == 0
  {
    hide UpTo;
    if w == 8 {
      UpTo8(y);
    } else if w == 16 {
      UpTo16(y);
    } else if w == 32 {
      UpTo32(y);
    } else {
      UpTo64(y);
    }
  }

  lemma OneMultiple(p: nat, q: nat, y: nat, w: nat)
    requires w == 8 || w == 16 || w == 32 || w == 64
    requires y <= p < y + w && y <= q < y + w && p % w == 0 && q % w == 0
    ensures p == q
  {
    if w == 8 {
    } else if w == 16 {
    } else if w == 32 {
    } else {
    }
  }

  lemma TimesEight(r: nat, a: nat)
    requires IsAlign(a) && Multiple(r, a)
    ensures 8 * r % (8 * a) == 0
  {
    MultiplesOf(r / 1, r / 2, r / 4, r / 8);
    assert a == 2 ==> r == 2 * (r / 2);
    assert a == 4 ==> r == 4 * (r / 4);
    assert a == 8 ==> r == 8 * (r / 8);
  }

  lemma MultiplesOf(i: nat, j: nat, k: nat, l: nat)
    ensures 8 * i % 8 == 0 && 16 * j % 16 == 0 && 32 * k % 32 == 0 && 64 * l % 64 == 0
  {
  }

  lemma EightTimes(x: nat, a: nat)
    requires IsAlign(a)
    ensures UpTo(8 * x, 8 * a) == 8 * RoundUp(x, a)
  {
    hide UpTo, RoundUp, Multiple;
    RoundUpIs(x, a);
    TimesEight(RoundUp(x, a), a);
    UpToIs(8 * x, 8 * a);
    OneMultiple(UpTo(8 * x, 8 * a), 8 * RoundUp(x, a), 8 * x, 8 * a);
  }

  lemma ScalarIsWidth(s: Scalar)
    ensures 8 * Size(Leaf(s)) == Width(s) && 8 * Align(Leaf(s)) == Width(s)
  {
  }

  lemma {:induction false} EndIsBits(fields: seq<Field>, ss: seq<Scalar>, n: nat)
    requires Holding(fields, ss) && n <= |ss|
    ensures 8 * EndOf(fields, n) == EndBits(ss[..n]) && 8 * MaxAlign(fields, n) == Widest(ss[..n])
    decreases n
  {
    hide RoundUp, UpTo, Size, Align;
    if n > 0 {
      EndIsBits(fields, ss, n - 1);
      ScalarIsWidth(ss[n - 1]);
      assert ss[..n][..n - 1] == ss[..n - 1] && ss[..n][n - 1] == ss[n - 1];
      EightTimes(EndOf(fields, n - 1), FieldAlign(fields[n - 1]));
    }
  }

  /** The size of a struct of scalars is what their bits come to. */
  lemma StructIsBits(name: Option<Text>, fields: seq<Field>, ss: seq<Scalar>)
    requires Holding(fields, ss)
    ensures 8 * Size(Struct(name, fields)) == UpTo(EndBits(ss), Widest(ss))
  {
    hide RoundUp, UpTo, Size, Align;
    EndIsBits(fields, ss, |ss|);
    assert ss[..|ss|] == ss;
    StructIsRounded(name, fields);
    EightTimes(EndOf(fields, |fields|), MaxAlign(fields, |fields|));
  }

  ghost predicate AllAre(ss: seq<Scalar>, s: Scalar) {
    forall i :: 0 <= i < |ss| ==> ss[i] == s
  }

  lemma OneFound(f: Field, s: Scalar)
    requires f.ty == Leaf(s)
    ensures HfaField(f) == if s == F32 then Some(Hfa(32, 1)) else if s == F64 then Some(Hfa(64, 1)) else None
  {
  }

  lemma {:induction false} FloatsAreFound(fields: seq<Field>, ss: seq<Scalar>, n: nat, s: Scalar, w: nat)
    requires Holding(fields, ss) && 1 <= n <= |ss| && IsFloat(Leaf(s), w) && forall i :: 0 <= i < n ==> ss[i] == s
    ensures HfaFields(fields, n) == Some(Hfa(w, n % TWO32))
    decreases n
  {
    OneFound(fields[n - 1], ss[n - 1]);
    if n > 1 {
      hide HfaField, HfaOf;
      FloatsAreFound(fields, ss, n - 1, s, w);
      ModPlus(n - 1, 1);
    }
  }

  lemma {:induction false} FoundAreFloats(fields: seq<Field>, ss: seq<Scalar>, n: nat)
    requires Holding(fields, ss) && 1 <= n <= |ss| && HfaFields(fields, n).Some?
    ensures HfaFields(fields, n).value.width in {32, 64}
    ensures forall i :: 0 <= i < n ==> ss[i] == if HfaFields(fields, n).value.width == 32 then F32 else F64
    decreases n
  {
    OneFound(fields[n - 1], ss[n - 1]);
    if n > 1 {
      FoundAreFloats(fields, ss, n - 1);
    }
  }

  /** A struct of scalars is returned in registers if and only if it is of 1 to 4 floats
      of one kind, as the code counts, or no more than 128 bits. */
  lemma ScalarStructClass(name: Option<Text>, fields: seq<Field>, ss: seq<Scalar>)
    requires Holding(fields, ss)
    ensures AbiOf(Struct(name, fields)) == Registers <==>
            (1 <= |ss| % 0x1_0000_0000 <= 4 && (AllAre(ss, F32) || AllAre(ss, F64))) || UpTo(EndBits(ss), Widest(ss)) <= 128
  {
    hide Size, HfaFields, UpTo;
    StructIsBits(name, fields, ss);
    if ss != [] {
      if AllAre(ss, F32) {
        FloatsAreFound(fields, ss, |ss|, F32, 32);
      } else if AllAre(ss, F64) {
        FloatsAreFound(fields, ss, |ss|, F64, 64);
      } else if HfaFields(fields, |ss|).Some? {
        FoundAreFloats(fields, ss, |ss|);
        assert false;
      }
    }
  }
}
