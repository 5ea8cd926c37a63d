/** The leaves of a laid-out type, with their places at every depth. */
module Leaves {
  import opened Ir
  import opened Encoding
  import opened Layout

  datatype Placed = Placed(at: nat, ty: Ty)

  function Shift(s: seq<Placed>, d: nat): (r: seq<Placed>)
    ensures |r| == |s| && forall i :: 0 <= i < |s| ==> r[i] == Placed(s[i].at + d, s[i].ty)
  {
    seq(|s|, i requires 0 <= i < |s| => Placed(s[i].at + d, s[i].ty))
  }

  /** How far apart the elements of an array are. */
  function Stride(elem: Ty): nat { RoundUp(Size(elem), Align(elem)) }

  /** Behind the first `n` elements. */
  function ElemsEnd(elem: Ty, n: nat): nat { n * Stride(elem) }

  /** The leaves of a type, those of array elements one by one, those of a union side by side. */
  function Flat(t: Ty): seq<Placed>
    decreases t, 0
  {
    match t
    case Array(len, elem) => FlatArray(elem, len)
    case Struct(_, fields) => FlatStruct(fields, |fields|)
    case Union(_, fields) => FlatUnion(fields, |fields|)
    case _ => [Placed(0, t)]
  }

  function FlatField(f: Field): seq<Placed>
    decreases f, 0
  {
    Flat(f.ty)
  }

  function FlatArray(elem: Ty, n: nat): seq<Placed>
    decreases elem, n + 1
  {
    if n == 0 then [] else FlatArray(elem, n - 1) + Shift(Flat(elem), ElemsEnd(elem, n - 1))
  }

  function FlatStruct(fields: seq<Field>, n: nat): seq<Placed>
    requires n <= |fields|
    decreases fields, n
  {
    if n == 0 then [] else FlatStruct(fields, n - 1) + Shift(FlatField(fields[n - 1]), OffsetOf(fields, n - 1))
  }

  function FlatUnion(fields: seq<Field>, n: nat): seq<Placed>
    requires n <= |fields|
    decreases fields, n
  {
    if n == 0 then [] else FlatUnion(fields, n - 1) + FlatField(fields[n - 1])
  }

  // ---- Inside and aligned ----------------------------------------------------------------------

  /** The leaf lies below `size`, and wherever a multiple of `align` is added to its
      place, it is aligned. */
  predicate Fits(p: Placed, size: nat, align: nat) {
    p.at + Size(p.ty) <= size && Multiple(p.at, Align(p.ty)) && Align(p.ty) <= align
  }

  ghost predicate AllFit(s: seq<Placed>, size: nat, align: nat) {
    forall i :: 0 <= i < |s| ==> Fits(s[i], size, align)
  }

  lemma FitsShifted(p: Placed, size: nat, align: nat, d: nat, size2: nat, align2: nat)
    requires Fits(p, size, align) && Multiple(d, align) && IsAlign(align) && d + size <= size2 && align <= align2
    ensures Fits(Placed(p.at + d, p.ty), size2, align2)
  {
    hide Size, Align, Multiple, IsAlign;
    Coarser(d, align, Align(p.ty));
    SumOfMultiples(p.at, d, Align(p.ty));
  }

  lemma Coarser(d: nat, align: nat, a: nat)
    requires IsAlign(align) && IsAlign(a) && a <= align && Multiple(d, align)
    ensures Multiple(d, a)
  {
    assert d == align * (d / align);
  }

  lemma SumOfMultiples(x: nat, d: nat, a: nat)
    requires IsAlign(a) && Multiple(x, a) && Multiple(d, a)
    ensures Multiple(x + d, a)
  {
  }

  lemma AllFitShifted(s: seq<Placed>, size: nat, align: nat, d: nat, size2: nat, align2: nat)
    requires AllFit(s, size, align) && Multiple(d, align) && IsAlign(align) && d + size <= size2 && align <= align2
    ensures AllFit(Shift(s, d), size2, align2)
  {
    hide Fits, Multiple, Shift;
    forall i | 0 <= i < |s|
      ensures Fits(Shift(s, d)[i], size2, align2)
    {
      FitsShifted(s[i], size, align, d, size2, align2);
    }
  }

  lemma AllFitMore(s: seq<Placed>, size: nat, align: nat, size2: nat, align2: nat)
    requires AllFit(s, size, align) && size <= size2 && align <= align2
    ensures AllFit(s, size2, align2)
  {
    hide Size, Align, Multiple;
  }

  lemma AllFitJoin(a: seq<Placed>, b: seq<Placed>, size: nat, align: nat)
    requires AllFit(a, size, align) && AllFit(b, size, align)
    ensures AllFit(a + b, size, align)
  {
    hide Fits;
  }

  /** Every leaf, at every depth, is aligned and inside. */
  lemma {:induction false} LeavesFit(t: Ty)
    ensures AllFit(Flat(t), Size(t), Align(t))
    decreases t, 0
  {
    hide AllFit, Fits, Size, Align, FlatArray, FlatStruct, FlatUnion;
    match t
    case Array(len, elem) =>
      ArrayFits(elem, len);
      ArraySize(len, elem);
    case Struct(name, fields) =>
      StructFits(fields, |fields|);
      StructSize(name, fields);
      AllFitMore(Flat(t), EndOf(fields, |fields|), MaxAlign(fields, |fields|), Size(t), Align(t));
    case Union(name, fields) =>
      UnionFits(fields, |fields|);
      UnionSize(name, fields);
      AllFitMore(Flat(t), MaxSize(fields, |fields|), MaxAlign(fields, |fields|), Size(t), Align(t));
    case _ => LeafFits(t);
  }

  lemma LeafFits(t: Ty)
    ensures AllFit([Placed(0, t)], Size(t), Align(t))
  {
    hide Size, Align;
  }

  lemma ArraySize(len: Count64, elem: Ty)
    ensures Size(Array(len, elem)) == ElemsEnd(elem, len) && Align(Array(len, elem)) == Align(elem)
  {
  }

  lemma StructSize(name: Option<Text>, fields: seq<Field>)
    ensures Size(Struct(name, fields)) >= EndOf(fields, |fields|) && Align(Struct(name, fields)) == MaxAlign(fields, |fields|)
  {
    RoundUpIs(EndOf(fields, |fields|), MaxAlign(fields, |fields|));
  }

  lemma UnionSize(name: Option<Text>, fields: seq<Field>)
    ensures Size(Union(name, fields)) >= MaxSize(fields, |fields|) && Align(Union(name, fields)) == MaxAlign(fields, |fields|)
  {
    RoundUpIs(MaxSize(fields, |fields|), MaxAlign(fields, |fields|));
  }

  lemma StrideIs(elem: Ty)
    ensures Stride(elem) == Size(elem) && Multiple(Stride(elem), Align(elem))
  {
    hide Size, Align, RoundUp;
    SizeIsMultiple(elem);
    AlreadyRound(Size(elem), Align(elem));
  }

  lemma AlreadyRound(x: nat, a: nat)
    requires IsAlign(a) && Multiple(x, a)
    ensures RoundUp(x, a) == x
  {
    RoundUpIs(x, a);
  }

  lemma ElemsFromZero(elem: Ty)
    ensures ElemsEnd(elem, 0) == 0
  {
  }

  lemma ElemsEndIs(elem: Ty, n: nat)
    requires n > 0
    ensures ElemsEnd(elem, n - 1) + Size(elem) == ElemsEnd(elem, n) && Multiple(ElemsEnd(elem, n - 1), Align(elem))
  {
    hide Stride, Size, Align, Multiple;
    StrideIs(elem);
    MultipleTimes(Stride(elem), n - 1, Align(elem));
  }

  lemma {:induction false} ArrayFits(elem: Ty, n: nat)
    ensures AllFit(FlatArray(elem, n), ElemsEnd(elem, n), Align(elem))
    decreases elem, n + 1
  {
    hide AllFit, ElemsEnd, Size, Align, Flat, Multiple;
    ElemsFromZero(elem);
    if n == 0 {
      NothingFits(0, Align(elem));
    } else {
      ArrayFits(elem, n - 1);
      LeavesFit(elem);
      var d := ElemsEnd(elem, n - 1);
      ElemsEndIs(elem, n);
      AllFitShifted(Flat(elem), Size(elem), Align(elem), d, ElemsEnd(elem, n), Align(elem));
      AllFitMore(FlatArray(elem, n - 1), d, Align(elem), ElemsEnd(elem, n), Align(elem));
      AllFitJoin(FlatArray(elem, n - 1), Shift(Flat(elem), d), ElemsEnd(elem, n), Align(elem));
    }
  }

  lemma NothingFits(size: nat, align: nat)
    ensures AllFit([], size, align)
  {
  }

  lemma {:induction false} FieldFits(f: Field)
    ensures AllFit(FlatField(f), FieldSize(f), FieldAlign(f))
    decreases f, 0
  {
    hide AllFit, Flat;
    LeavesFit(f.ty);
  }

  lemma {:induction false} StructFits(fields: seq<Field>, n: nat)
    requires n <= |fields|
    ensures AllFit(FlatStruct(fields, n), EndOf(fields, n), MaxAlign(fields, n))
    decreases fields, n
  {
    hide AllFit, FlatField, FieldAlign, FieldSize, EndOf, OffsetOf, Multiple;
    if n == 0 {
      NothingFits(EndOf(fields, 0), MaxAlign(fields, 0));
    } else {
      StructFits(fields, n - 1);
      var f := fields[n - 1];
      FieldFits(f);
      FieldPacked(fields, n - 1);
      var d := OffsetOf(fields, n - 1);
      AllFitShifted(FlatField(f), FieldSize(f), FieldAlign(f), d, EndOf(fields, n), MaxAlign(fields, n));
      AllFitMore(FlatStruct(fields, n - 1), EndOf(fields, n - 1), MaxAlign(fields, n - 1), EndOf(fields, n), MaxAlign(fields, n));
      AllFitJoin(FlatStruct(fields, n - 1), Shift(FlatField(f), d), EndOf(fields, n), MaxAlign(fields, n));
    }
  }

  lemma {:induction false} UnionFits(fields: seq<Field>, n: nat)
    requires n <= |fields|
    ensures AllFit(FlatUnion(fields, n), MaxSize(fields, n), MaxAlign(fields, n))
    decreases fields, n
  {
    hide AllFit, FlatField, FieldAlign, FieldSize;
    if n == 0 {
      NothingFits(MaxSize(fields, 0), MaxAlign(fields, 0));
    } else {
      UnionFits(fields, n - 1);
      var f := fields[n - 1];
      FieldFits(f);
      AllFitMore(FlatField(f), FieldSize(f), FieldAlign(f), MaxSize(fields, n), MaxAlign(fields, n));
      AllFitMore(FlatUnion(fields, n - 1), MaxSize(fields, n - 1), MaxAlign(fields, n - 1), MaxSize(fields, n), MaxAlign(fields, n));
      AllFitJoin(FlatUnion(fields, n - 1), FlatField(f), MaxSize(fields, n), MaxAlign(fields, n));
    }
  }

  // ---- In order and apart --------------------------------------------------------------------------

  predicate NoUnion(t: Ty)
    decreases t
  {
    match t
    case Struct(_, fields) => NoUnions(fields, |fields|)
    case Array(_, elem) => NoUnion(elem)
    case Union(_, _) => false
    case _ => true
  }

  predicate NoUnions(fields: seq<Field>, n: nat)
    requires n <= |fields|
    decreases fields, n
  {
    n > 0 ==> NoUnionField(fields[n - 1]) && NoUnions(fields, n - 1)
  }

  predicate NoUnionField(f: Field)
    decreases f
  {
    NoUnion(f.ty)
  }

  ghost predicate Apart(s: seq<Placed>) {
    forall i, j :: 0 <= i < j < |s| ==> s[i].at + Size(s[i].ty) <= s[j].at
  }

  lemma ApartJoin(a: seq<Placed>, b: seq<Placed>, d: nat, size: nat, align: nat)
    requires Apart(a) && Apart(b) && AllFit(a, size, align) && size <= d
    ensures Apart(a + Shift(b, d))
  {
    hide Size, Align, Multiple;
    var s := a + Shift(b, d);
    forall i, j | 0 <= i < j < |s|
      ensures s[i].at + Size(s[i].ty) <= s[j].at
    {
      if j < |a| {
      } else if i < |a| {
        assert Fits(a[i], size, align);
      } else {
        assert b[i - |a|].at + Size(b[i - |a|].ty) <= b[j - |a|].at;
      }
    }
  }

  lemma OneApart(p: Placed)
    ensures Apart([p]) && Apart([])
  {
  }

  /** Without unions the leaves lie one behind the other, none over another. */
  lemma {:induction false} LeavesApart(t: Ty)
    requires NoUnion(t)
    ensures Apart(Flat(t))
    decreases t, 0
  {
    hide Apart, FlatArray, FlatStruct;
    match t
    case Array(len, elem) => ArrayApart(elem, len);
    case Struct(_, fields) => StructApart(fields, |fields|);
    case Union(_, _) =>
    case _ => OneApart(Placed(0, t));
  }

  lemma {:induction false} ArrayApart(elem: Ty, n: nat)
    requires NoUnion(elem)
    ensures Apart(FlatArray(elem, n))
    decreases elem, n + 1
  {
    hide Apart, AllFit, Flat, ElemsEnd, Align;
    if n == 0 {
      OneApart(Placed(0, elem));
    } else {
      ArrayApart(elem, n - 1);
      LeavesApart(elem);
      ArrayFits(elem, n - 1);
      ApartJoin(FlatArray(elem, n - 1), Flat(elem), ElemsEnd(elem, n - 1), ElemsEnd(elem, n - 1), Align(elem));
    }
  }

  lemma {:induction false} FieldApart(f: Field)
    requires NoUnionField(f)
    ensures Apart(FlatField(f))
    decreases f, 0
  {
    hide Apart, Flat;
    LeavesApart(f.ty);
  }

  lemma {:induction false} StructApart(fields: seq<Field>, n: nat)
    requires n <= |fields| && NoUnions(fields, n)
    ensures Apart(FlatStruct(fields, n))
    decreases fields, n
  {
    hide Apart, AllFit, FlatField, OffsetOf, EndOf, MaxAlign, NoUnionField, Multiple, FieldAlign, FieldSize;
    if n == 0 {
      OneApart(Placed(0, Pointer));
    } else {
      var f := fields[n - 1];
      StructApart(fields, n - 1);
      FieldApart(f);
      StructFits(fields, n - 1);
      FieldPacked(fields, n - 1);
      ApartJoin(FlatStruct(fields, n - 1), FlatField(f), OffsetOf(fields, n - 1), EndOf(fields, n - 1), MaxAlign(fields, n - 1));
    }
  }
}
