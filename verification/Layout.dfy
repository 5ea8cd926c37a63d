/** The C layout of a parsed type and the way it is returned: sizes and offsets
    without bound, and the saturating 64-bit code that computes them. */
module Layout {
  import opened Ir
  import opened Encoding

  // ---- The layout, in numbers without bound ------------------------------------------------------

  function ScalarSize(s: Scalar): nat {
    match s
    case I8 | U8 | Boolean => 1
    case I16 | U16 => 2
    case I32 | U32 | F32 => 4
    case I64 | U64 | F64 | Ptr => 8
  }

  function Max(a: nat, b: nat): nat { if a < b then b else a }

  function CeilDiv(x: nat, a: nat): nat
    requires a >= 1
  {
    if x % a == 0 then x / a else x / a + 1
  }

  function RoundUp(x: nat, a: nat): nat {
    if a <= 1 then x else CeilDiv(x, a) * a
  }

  predicate IsAlign(a: nat) { a == 1 || a == 2 || a == 4 || a == 8 }

  predicate Multiple(x: nat, a: nat) {
    a >= 1 && x % a == 0
  }

  function Align(t: Ty): (a: nat)
    ensures IsAlign(a)
    decreases t
  {
    match t
    case Leaf(s) => ScalarSize(s)
    case Pointer => 8
    case Bitfield(_) => 1
    case Unknown(_) => 1
    case Array(_, elem) => Align(elem)
    case Struct(_, fields) => MaxAlign(fields, |fields|)
    case Union(_, fields) => MaxAlign(fields, |fields|)
  }

  function FieldAlign(f: Field): (a: nat)
    ensures IsAlign(a)
    decreases f
  {
    Align(f.ty)
  }

  /** The widest alignment among the first `n` fields. */
  function MaxAlign(fields: seq<Field>, n: nat): (a: nat)
    requires n <= |fields|
    ensures IsAlign(a)
    decreases fields, n
  {
    if n == 0 then 1 else Max(MaxAlign(fields, n - 1), FieldAlign(fields[n - 1]))
  }

  function Size(t: Ty): nat
    decreases t
  {
    match t
    case Leaf(s) => ScalarSize(s)
    case Pointer => 8
    case Bitfield(bits) => Max(CeilDiv(bits, 8), 1)
    case Unknown(_) => 0
    case Array(len, elem) => Copies(RoundUp(Size(elem), Align(elem)), len)
    case Struct(_, fields) => RoundUp(EndOf(fields, |fields|), MaxAlign(fields, |fields|))
    case Union(_, fields) => RoundUp(MaxSize(fields, |fields|), MaxAlign(fields, |fields|))
  }

  function Copies(size: nat, n: nat): nat { size * n }

  function FieldSize(f: Field): nat
    decreases f
  {
    Size(f.ty)
  }

  function MaxSize(fields: seq<Field>, n: nat): nat
    requires n <= |fields|
    decreases fields, n
  {
    if n == 0 then 0 else Max(MaxSize(fields, n - 1), FieldSize(fields[n - 1]))
  }

  /** Behind the first `n` fields of a struct. */
  function EndOf(fields: seq<Field>, n: nat): nat
    requires n <= |fields|
    decreases fields, n
  {
    if n == 0 then 0 else RoundUp(EndOf(fields, n - 1), FieldAlign(fields[n - 1])) + FieldSize(fields[n - 1])
  }

  function OffsetOf(fields: seq<Field>, n: nat): nat
    requires n < |fields|
  {
    RoundUp(EndOf(fields, n), FieldAlign(fields[n]))
  }

  // ---- The code: unsigned 64-bit, saturating ------------------------------------------------------

  function RoundUp64(x: nat, a: nat): nat {
    if a <= 1 then x else Saturate(CeilDiv(x, a) * a)
  }

  datatype LaidField = LaidField(name: Option<Text>, offset: nat, size: nat, align: nat)

  /** The least multiple of the alignment that is not smaller. */
  lemma RoundUpIs(x: nat, a: nat)
    requires IsAlign(a)
    ensures var r := RoundUp(x, a); x <= r < x + a && Multiple(r, a)
  {
  }

  lemma RoundUp64Is(x: nat, a: nat)
    requires IsAlign(a)
    ensures RoundUp64(Saturate(x), a) == Saturate(RoundUp(x, a))
  {
    RoundUpIs(x, a);
  }

  lemma AddSaturates(x: nat, y: nat)
    ensures Saturate(Saturate(x) + Saturate(y)) == Saturate(x + y)
  {
  }

  lemma MulSaturates(x: nat, n: nat)
    ensures Saturate(Saturate(x) * n) == Saturate(x * n)
  {
    if x > MAXU64 && n >= 1 {
      assert x * n >= x && MAXU64 * n >= MAXU64;
    }
  }

  lemma CapIs(n: nat)
    ensures Saturate(n) == if n < 0x1_0000_0000_0000_0000 then n else 0xFFFF_FFFF_FFFF_FFFF
  {
  }

  /** Size and alignment, exact as long as the size fits 64 bits, and capped beyond. */
  method SizeAlign(t: Ty) returns (size: nat, align: nat)
    ensures size == Saturate(Size(t)) && align == Align(t)
    ensures size == if Size(t) < 0x1_0000_0000_0000_0000 then Size(t) else 0xFFFF_FFFF_FFFF_FFFF
    decreases t
  {
    hide RoundUp, RoundUp64, CeilDiv, Saturate;
    CapIs(Size(t));
    if !t.Array? && !t.Struct? && !t.Union? {
      SmallSizes(t);
    }
    match t
    case Leaf(s) => size, align := ScalarSize(s), ScalarSize(s);
    case Pointer => size, align := 8, 8;
    case Bitfield(bits) => size, align := Max(CeilDiv(bits, 8), 1), 1;
    case Unknown(_) => size, align := 0, 1;
    case Array(len, elem) =>
      var es, ea := SizeAlign(elem);
      size, align := Saturate(RoundUp64(es, ea) * len), Max(ea, 1);
      RoundUp64Is(Size(elem), ea);
      MulSaturates(RoundUp(Size(elem), ea), len);
    case Struct(_, fields) =>
      var laid;
      laid, size, align := LayStruct(fields);
    case Union(_, fields) =>
      size, align := LayUnion(fields);
  }

  lemma SmallSizes(t: Ty)
    requires t.Leaf? || t.Pointer? || t.Bitfield? || t.Unknown?
    ensures Saturate(Size(t)) == Size(t)
  {
  }

  method FieldSizeAlign(f: Field) returns (size: nat, align: nat)
    ensures size == Saturate(FieldSize(f)) && align == FieldAlign(f)
    decreases f
  {
    size, align := SizeAlign(f.ty);
  }

  /** The fields of a struct in order, each at the next multiple of its alignment. */
  method LayStruct(fields: seq<Field>) returns (laid: seq<LaidField>, size: nat, align: nat)
    ensures |laid| == |fields|
    ensures forall i :: 0 <= i < |fields| ==>
      laid[i] == LaidField(fields[i].name, Saturate(OffsetOf(fields, i)), Saturate(FieldSize(fields[i])), FieldAlign(fields[i]))
    ensures size == Saturate(RoundUp(EndOf(fields, |fields|), MaxAlign(fields, |fields|))) && align == MaxAlign(fields, |fields|)
    decreases fields
  {
    hide RoundUp, Saturate, RoundUp64, FieldSize, FieldAlign;
    var off: nat := 0;
    align := 1;
    laid := [];
    ZeroIsSmall();
    for i := 0 to |fields|
      invariant off == Saturate(EndOf(fields, i)) && align == MaxAlign(fields, i) && |laid| == i
      invariant forall j :: 0 <= j < i ==>
        laid[j] == LaidField(fields[j].name, Saturate(OffsetOf(fields, j)), Saturate(FieldSize(fields[j])), FieldAlign(fields[j]))
    {
      var fs, fa := FieldSizeAlign(fields[i]);
      assert Max(fa, 1) == fa;
      RoundUp64Is(EndOf(fields, i), fa);
      off := RoundUp64(off, Max(fa, 1));
      laid := laid + [LaidField(fields[i].name, off, fs, fa)];
      AddSaturates(OffsetOf(fields, i), FieldSize(fields[i]));
      off := Saturate(off + fs);
      align := Max(align, fa);
    }
    RoundUp64Is(EndOf(fields, |fields|), align);
    size := RoundUp64(off, align);
  }

  lemma ZeroIsSmall()
    ensures Saturate(0) == 0
  {
  }

  method LayUnion(fields: seq<Field>) returns (size: nat, align: nat)
    ensures size == Saturate(RoundUp(MaxSize(fields, |fields|), MaxAlign(fields, |fields|))) && align == MaxAlign(fields, |fields|)
    decreases fields
  {
    size, align := 0, 1;
    for i := 0 to |fields|
      invariant size == Saturate(MaxSize(fields, i)) && align == MaxAlign(fields, i)
    {
      var fs, fa := FieldSizeAlign(fields[i]);
      size := Max(size, fs);
      align := Max(align, Max(fa, 1));
    }
    RoundUp64Is(MaxSize(fields, |fields|), align);
    size := RoundUp64(size, align);
  }

  // ---- Fields -----------------------------------------------------------------------------------

  lemma FieldPacked(fields: seq<Field>, i: nat)
    requires i < |fields|
    ensures Multiple(OffsetOf(fields, i), FieldAlign(fields[i]))
    ensures EndOf(fields, i) <= OffsetOf(fields, i) < EndOf(fields, i) + FieldAlign(fields[i])
    ensures EndOf(fields, i + 1) == OffsetOf(fields, i) + FieldSize(fields[i])
  {
    hide RoundUp, FieldSize, FieldAlign, Multiple;
    RoundUpIs(EndOf(fields, i), FieldAlign(fields[i]));
  }

  lemma {:induction false} EndGrows(fields: seq<Field>, i: nat, n: nat)
    requires i <= n <= |fields|
    ensures EndOf(fields, i) <= EndOf(fields, n)
    decreases n
  {
    hide EndOf, OffsetOf, FieldSize;
    if i < n {
      EndGrows(fields, i, n - 1);
      FieldPacked(fields, n - 1);
    }
  }

  /** Fields are aligned, in order, apart, as close as alignment lets them be, and inside
      the struct, which ends at the first multiple of its alignment behind them. */
  lemma FieldsPacked(fields: seq<Field>, i: nat, j: nat)
    requires i < j <= |fields|
    ensures Multiple(OffsetOf(fields, i), FieldAlign(fields[i]))
    ensures OffsetOf(fields, i) < EndOf(fields, i) + FieldAlign(fields[i])
    ensures OffsetOf(fields, i) + FieldSize(fields[i]) <= (if j < |fields| then OffsetOf(fields, j) else EndOf(fields, j))
    ensures var size := Size(Struct(None, fields)); EndOf(fields, |fields|) <= size < EndOf(fields, |fields|) + MaxAlign(fields, |fields|)
  {
    hide EndOf, OffsetOf, FieldSize, FieldAlign, RoundUp, MaxAlign;
    FieldPacked(fields, i);
    EndGrows(fields, i + 1, j);
    if j < |fields| {
      FieldPacked(fields, j);
    }
    RoundUpIs(EndOf(fields, |fields|), MaxAlign(fields, |fields|));
  }

  /** A size is a multiple of the alignment, at every depth. */
  lemma SizeIsMultiple(t: Ty)
    ensures Multiple(Size(t), Align(t))
    decreases t
  {
    hide RoundUp, Multiple, EndOf, MaxSize, MaxAlign;
    match t
    case Array(len, elem) =>
      RoundUpIs(Size(elem), Align(elem));
      MultipleTimes(RoundUp(Size(elem), Align(elem)), len, Align(elem));
    case Struct(_, fields) =>
      RoundUpIs(EndOf(fields, |fields|), Align(t));
    case Union(_, fields) =>
      RoundUpIs(MaxSize(fields, |fields|), Align(t));
    case _ => LeafIsMultiple(t);
  }

  lemma LeafIsMultiple(t: Ty)
    requires t.Leaf? || t.Pointer? || t.Bitfield? || t.Unknown?
    ensures Multiple(Size(t), Align(t))
  {
  }

  lemma MultipleTimes(x: nat, n: nat, a: nat)
    requires IsAlign(a) && Multiple(x, a)
    ensures Multiple(x * n, a)
  {
    var k := x / a;
    assert x * n == a * (k * n) by {
      assert x == a * k;
    }
  }
}
