/** Where the choice between registers and memory is right: the code against section
    6.9 of the AAPCS64, for every type. */
module AbiClass {
  import opened Ir
  import opened Encoding
  import opened Layout
  import opened Leaves
  import opened HfaReturn

  // ---- What the standard asks for ------------------------------------------------------------

  /** How many members of a type have places of their own: those of a struct together,
      those of an array's elements each, those of a union's widest field. */
  function Members(t: Ty): nat
    decreases t
  {
    match t
    case Array(len, elem) => Copies(Members(elem), len)
    case Struct(_, fields) => SumMembers(fields, |fields|)
    case Union(_, fields) => MaxMembers(fields, |fields|)
    case _ => 1
  }

  function FieldMembers(f: Field): nat
    decreases f
  {
    Members(f.ty)
  }

  function SumMembers(fields: seq<Field>, n: nat): nat
    requires n <= |fields|
    decreases fields, n
  {
    if n == 0 then 0 else SumMembers(fields, n - 1) + FieldMembers(fields[n - 1])
  }

  function MaxMembers(fields: seq<Field>, n: nat): nat
    requires n <= |fields|
    decreases fields, n
  {
    if n == 0 then 0 else Max(MaxMembers(fields, n - 1), FieldMembers(fields[n - 1]))
  }

  /** All there is in the type are floating-point numbers of `w` bits; its size is theirs
      together, its alignment that of one. */
  ghost predicate Homogeneous(t: Ty, w: nat) {
    AllFloat(Flat(t), w) && Size(t) == Copies(w / 8, Members(t)) && Align(t) == w / 8
  }

  /** Up to four floating-point members of one width, or up to 16 bytes. */
  ghost predicate InRegisters(t: Ty) {
    Size(t) <= 16 || exists w :: Homogeneous(t, w) && 1 <= Members(t) <= 4
  }

  // ---- The class --------------------------------------------------------------------------------------

  /** Without unions every leaf is a member. */
  lemma {:induction false} MembersAreLeaves(t: Ty)
    requires NoUnion(t)
    ensures Members(t) == |Flat(t)|
    decreases t, 0
  {
    hide FlatArray, FlatStruct, Copies;
    match t
    case Array(len, elem) =>
      MembersAreLeaves(elem);
      ArrayLeaves(elem, len, 32);
    case Struct(_, fields) => FieldMembersAreLeaves(fields, |fields|);
    case Union(_, _) =>
    case _ =>
  }

  lemma {:induction false} FieldMembersAreLeaves(fields: seq<Field>, n: nat)
    requires n <= |fields| && NoUnions(fields, n)
    ensures SumMembers(fields, n) == |FlatStruct(fields, n)|
    decreases fields, n
  {
    hide OffsetOf, NoUnionField, FieldMembers, FlatField;
    if n > 0 {
      OneFieldsMembers(fields[n - 1]);
      FieldMembersAreLeaves(fields, n - 1);
    }
  }

  lemma {:induction false} OneFieldsMembers(f: Field)
    requires NoUnionField(f)
    ensures FieldMembers(f) == |FlatField(f)|
    decreases f, 0
  {
    MembersAreLeaves(f.ty);
  }

  /** What the code sees through meets the standard's definition. */
  lemma StrictIsHomogeneous(t: Ty, w: nat)
    requires Strict(t, w)
    ensures Homogeneous(t, w) && Members(t) == |Flat(t)| && (|Flat(t)| > 4 ==> Size(t) > 16)
  {
    hide Flat, Strict, NoUnion, Members, Align, Size, AllFloat, Evenly;
    StrictIsFloat(t, w);
    MembersAreLeaves(t);
    FloatsFill(t, w);
    if |Flat(t)| > 4 {
      assert IsFloat(Flat(t)[0].ty, w) by { FirstIsFloat(Flat(t), w); }
    }
  }

  lemma FirstIsFloat(s: seq<Placed>, w: nat)
    requires AllFloat(s, w) && s != []
    ensures IsFloat(s[0].ty, w)
  {
  }

  /** A count of 2^32 or more that has come round to 1 to 4. */
  ghost predicate WrapsSmall(t: Ty) {
    |Flat(t)| >= TWO32 && 1 <= |Flat(t)| % TWO32 <= 4 && exists w :: Strict(t, w) && CountsFit(t)
  }

  /** One to four members of one width, over 16 bytes, that the code does not see. */
  ghost predicate Missed(t: Ty) {
    Size(t) > 16 && 1 <= Members(t) <= 4 && exists w :: Homogeneous(t, w) && (Odd(t, w) || !CountsFit(t))
  }

  lemma OneWidth(t: Ty, w: nat, v: nat)
    requires Homogeneous(t, w) && Homogeneous(t, v) && |Flat(t)| >= 1
    ensures w == v
  {
    hide Flat, Size, Members;
    assert IsFloat(Flat(t)[0].ty, w) && IsFloat(Flat(t)[0].ty, v);
  }

  /** A type the code sees through. */
  lemma SeenIsRightIff(t: Ty, w: nat)
    requires Strict(t, w) && CountsFit(t)
    ensures !Missed(t)
    ensures (AbiOf(t) == Registers <==> InRegisters(t)) <==> !WrapsSmall(t)
  {
    hide Size, Flat, HfaOf, Strict, CountsFit, Members, Homogeneous, Odd, NoUnion;
    FoundExactly(t, w);
    StrictIsHomogeneous(t, w);
    if |Flat(t)| >= 1 {
      forall v | Homogeneous(t, v)
        ensures !Odd(t, v)
      {
        OneWidth(t, w, v);
        SeenIsNotOdd(t, w);
      }
    }
  }

  /** A type it does not. */
  lemma UnseenIsRightIff(t: Ty)
    requires forall w :: !(Strict(t, w) && CountsFit(t))
    ensures !WrapsSmall(t)
    ensures (AbiOf(t) == Registers <==> InRegisters(t)) <==> !Missed(t)
  {
    hide Size, Flat, HfaOf, Strict, CountsFit, Members, Homogeneous, Odd;
    if HfaOf(t).Some? {
      FoundExactly(t, HfaOf(t).value.width);
    }
    forall w | Homogeneous(t, w)
      ensures Odd(t, w) || !CountsFit(t)
    {
      if !Odd(t, w) {
        HomogeneousIsSeen(t, w);
      }
    }
  }

  lemma SeenIsNotOdd(t: Ty, w: nat)
    requires Strict(t, w)
    ensures !Odd(t, w)
  {
    hide Flat, Strict, Odd, AllFloat, NoUnion;
    StrictIsFloat(t, w);
    StrictUnlessOdd(t, w);
  }

  lemma HomogeneousIsSeen(t: Ty, w: nat)
    requires Homogeneous(t, w) && !Odd(t, w)
    ensures Strict(t, w)
  {
    hide Flat, Strict, Odd, AllFloat, Size, Members;
    StrictUnlessOdd(t, w);
  }

  /** For every type: the class is the standard's if and only if no count has come round
      to a small one, and no small number of members hides behind a union, a struct without
      fields, an array without elements or an array that cannot be counted. */
  lemma AbiIsRightIff(t: Ty)
    ensures (AbiOf(t) == Registers <==> InRegisters(t)) <==> !WrapsSmall(t) && !Missed(t)
  {
    hide WrapsSmall, Missed, AbiOf, InRegisters, Strict, CountsFit;
    if w :| Strict(t, w) && CountsFit(t) {
      SeenIsRightIff(t, w);
    } else {
      UnseenIsRightIff(t);
    }
  }

  // ---- Types it goes wrong for -------------------------------------------------------------------------

  /** A struct of three fields, in full. */
  lemma ThreeFields(a: Ty, b: Ty, c: Ty, w: nat)
    ensures var f := [Field(None, a), Field(None, b), Field(None, c)];
            var t := Struct(None, f);
            && HfaOf(t) == Both(Both(HfaOf(a), HfaOf(b)), HfaOf(c))
            && |Flat(t)| == |Flat(a)| + |Flat(b)| + |Flat(c)|
            && (AllFloat(Flat(t), w) <==> AllFloat(Flat(a), w) && AllFloat(Flat(b), w) && AllFloat(Flat(c), w))
  {
    hide Flat, HfaOf, OffsetOf, AllFloat;
    var f := [Field(None, a), Field(None, b), Field(None, c)];
    assert HfaFields(f, 1) == HfaField(f[0]) == HfaOf(a);
    assert HfaFields(f, 2) == Both(HfaFields(f, 1), HfaField(f[1]));
    assert HfaFields(f, 3) == Both(HfaFields(f, 2), HfaField(f[2]));
    NoneFloat(w);
    StructGrows(f, 0, w);
    StructGrows(f, 1, w);
    StructGrows(f, 2, w);
    StructIs(f);
  }

  lemma StructGrows(f: seq<Field>, n: nat, w: nat)
    requires n < |f|
    ensures n == 0 ==> FlatStruct(f, n) == []
    ensures |FlatStruct(f, n + 1)| == |FlatStruct(f, n)| + |Flat(f[n].ty)|
    ensures AllFloat(FlatStruct(f, n + 1), w) <==> AllFloat(FlatStruct(f, n), w) && AllFloat(Flat(f[n].ty), w)
  {
    hide Flat, AllFloat, OffsetOf;
    AllFloatJoin(FlatStruct(f, n), FlatField(f[n]), OffsetOf(f, n), w);
  }

  lemma StructIs(f: seq<Field>)
    requires f != []
    ensures HfaOf(Struct(None, f)) == HfaFields(f, |f|) && Flat(Struct(None, f)) == FlatStruct(f, |f|)
  {
  }

  /** 2^32 + 1 floats are counted as one and returned in a register. */
  lemma CountWraps()
    ensures var f := Leaf(F32);
            var t := Struct(None, [Field(None, Array(TWO32 - 1, f)), Field(None, f), Field(None, f)]);
            |Flat(t)| == TWO32 + 1 && AbiOf(t) == Registers
  {
    hide Size;
    var f := Leaf(F32);
    var a := Array(TWO32 - 1, f);
    ThreeFields(a, f, f, 32);
    ArrayLeaves(f, TWO32 - 1, 32);
    assert |Flat(f)| == 1;
    assert HfaOf(a) == Some(Hfa(32, TWO32 - 1));
    assert Both(HfaOf(a), HfaOf(f)) == Some(Hfa(32, 0));
  }

  /** An array without elements hides from the code that the rest are numbers of one width. */
  lemma EmptyArrayHides()
    ensures var four := Array(4, Leaf(F64));
            var none := Array(0, Leaf(F32));
            var t := Struct(None, [Field(None, none), Field(None, four), Field(None, none)]);
            Homogeneous(t, 64) && Members(t) == 4 && AbiOf(t) == IndirectSret && InRegisters(t)
  {
    hide Size, Align, Flat, HfaOf, AllFloat;
    var four := Array(4, Leaf(F64));
    var none := Array(0, Leaf(F32));
    var t := Struct(None, [Field(None, none), Field(None, four), Field(None, none)]);
    ThreeFields(none, four, none, 64);
    LeavesOfArray(Leaf(F64), 4, 64);
    LeavesOfArray(Leaf(F32), 0, 64);
    assert HfaOf(t).None? && Size(t) == 32 && Align(t) == 8 by { EmptyArraySizes(); }
    EmptyArrayMembers(none, four);
  }

  lemma EmptyArrayMembers(none: Ty, four: Ty)
    requires none == Array(0, Leaf(F32)) && four == Array(4, Leaf(F64))
    ensures Members(Struct(None, [Field(None, none), Field(None, four), Field(None, none)])) == 4
  {
    var f := [Field(None, none), Field(None, four), Field(None, none)];
    assert Members(none) == 0 && Members(four) == 4;
    assert SumMembers(f, 1) == 0;
    assert SumMembers(f, 2) == 4;
    assert SumMembers(f, 3) == 4;
  }

  lemma LeavesOfArray(t: Ty, n: Count64, w: nat)
    requires t.Leaf?
    ensures |Flat(Array(n, t))| == n && (AllFloat(Flat(Array(n, t)), w) <==> n == 0 || IsFloat(t, w))
  {
    ArrayLeaves(t, n, w);
    OneLeaf(t, w);
  }

  lemma EmptyArraySizes()
    ensures var four := Array(4, Leaf(F64));
            var none := Array(0, Leaf(F32));
            var f := [Field(None, none), Field(None, four), Field(None, none)];
            HfaOf(Struct(None, f)).None? && Size(Struct(None, f)) == 32 && Align(Struct(None, f)) == 8
  {
    var four := Array(4, Leaf(F64));
    var none := Array(0, Leaf(F32));
    var f := [Field(None, none), Field(None, four), Field(None, none)];
    WidthsDiffer(none, four);
    EmptyArrayMeasures(none, four);
    hide Size, Align, HfaOf, Both, RoundUp;
    assert EndOf(f, 1) == RoundUp(0, 4) + 0;
    assert EndOf(f, 2) == RoundUp(EndOf(f, 1), 8) + 32;
    assert EndOf(f, 3) == RoundUp(EndOf(f, 2), 4) + 0;
    assert MaxAlign(f, 1) == 4;
    assert MaxAlign(f, 2) == 8;
    assert MaxAlign(f, 3) == 8;
    StructSizeIs(f);
    assert RoundUp(0, 4) == 0 && RoundUp(0, 8) == 0 && RoundUp(32, 4) == 32 && RoundUp(32, 8) == 32 by { Rounds(); }
  }

  lemma Rounds()
    ensures RoundUp(0, 4) == 0 && RoundUp(0, 8) == 0 && RoundUp(32, 4) == 32 && RoundUp(32, 8) == 32
  {
  }

  lemma StructSizeIs(f: seq<Field>)
    ensures Size(Struct(None, f)) == RoundUp(EndOf(f, |f|), MaxAlign(f, |f|)) && Align(Struct(None, f)) == MaxAlign(f, |f|)
  {
  }

  lemma WidthsDiffer(none: Ty, four: Ty)
    requires none == Array(0, Leaf(F32)) && four == Array(4, Leaf(F64))
    ensures HfaOf(Struct(None, [Field(None, none), Field(None, four), Field(None, none)])).None?
  {
    ThreeFields(none, four, none, 64);
  }

  lemma EmptyArrayMeasures(none: Ty, four: Ty)
    requires none == Array(0, Leaf(F32)) && four == Array(4, Leaf(F64))
    ensures Size(none) == 0 && Align(none) == 4 && Size(four) == 32 && Align(four) == 8
  {
    AlreadyRound(8, 8);
  }

  /** A union of three numbers and one has three members, and is returned in memory. */
  lemma UnionIsMissed()
    ensures var t := Union(None, [Field(None, Array(3, Leaf(F64))), Field(None, Leaf(F64))]);
            Homogeneous(t, 64) && Members(t) == 3 && AbiOf(t) == IndirectSret && InRegisters(t)
  {
    var three := Array(3, Leaf(F64));
    var f := [Field(None, three), Field(None, Leaf(F64))];
    var t := Union(None, f);
    UnionMeasures(f);
    LeavesOfArray(Leaf(F64), 3, 64);
    UnionLeaves(f);
    assert Homogeneous(t, 64);
  }

  lemma UnionMeasures(f: seq<Field>)
    requires f == [Field(None, Array(3, Leaf(F64))), Field(None, Leaf(F64))]
    ensures Size(Union(None, f)) == 24 && Align(Union(None, f)) == 8 && Members(Union(None, f)) == 3
  {
    AlreadyRound(8, 8);
    AlreadyRound(24, 8);
    assert Size(f[0].ty) == 24 && Align(f[0].ty) == 8;
    assert MaxSize(f, 1) == 24 && MaxAlign(f, 1) == 8;
    assert MaxSize(f, 2) == 24 && MaxAlign(f, 2) == 8;
    assert MaxMembers(f, 1) == 3;
    assert MaxMembers(f, 2) == 3;
  }

  lemma UnionLeaves(f: seq<Field>)
    requires f == [Field(None, Array(3, Leaf(F64))), Field(None, Leaf(F64))] && AllFloat(Flat(f[0].ty), 64)
    ensures AllFloat(Flat(Union(None, f)), 64)
  {
    hide FlatArray, Flat;
    OneMore(f, 0);
    OneMore(f, 1);
    UnionFlat(f);
    OneLeaf(Leaf(F64), 64);
    assert Flat(f[1].ty) == [Placed(0, Leaf(F64))] by { LeafFlat(F64); }
  }

  lemma LeafFlat(s: Scalar)
    ensures Flat(Leaf(s)) == [Placed(0, Leaf(s))]
  {
  }

  lemma UnionFlat(f: seq<Field>)
    ensures Flat(Union(None, f)) == FlatUnion(f, |f|)
  {
  }

  /** The leaves of one field more. */
  lemma OneMore(f: seq<Field>, n: nat)
    requires n < |f|
    ensures n == 0 ==> FlatUnion(f, n) == []
    ensures AllFloat(FlatUnion(f, n), 64) && AllFloat(Flat(f[n].ty), 64) ==> AllFloat(FlatUnion(f, n + 1), 64)
  {
    hide Flat;
  }

  /** Four floats with padding around them are no homogeneous aggregate: an array without
      elements only aligns the struct. Code and standard agree on memory. */
  lemma PaddedIsInMemory()
    ensures var t := Struct(None, [Field(None, Leaf(F32)), Field(None, Array(0, Leaf(F64))), Field(None, Array(3, Leaf(F32)))]);
            AllFloat(Flat(t), 32) && Members(t) == 4 && AbiOf(t) == IndirectSret && !InRegisters(t)
  {
    hide Size, Align, Flat, HfaOf, AllFloat, Members;
    var (one, none, three) := (Leaf(F32), Array(0, Leaf(F64)), Array(3, Leaf(F32)));
    var t := Struct(None, [Field(None, one), Field(None, none), Field(None, three)]);
    ThreeFields(one, none, three, 32);
    LeavesOfArray(Leaf(F32), 3, 32);
    LeavesOfArray(Leaf(F64), 0, 32);
    PaddedFloat();
    PaddedMeasures(one, none, three);
    forall w | Homogeneous(t, w)
      ensures false
    {
      PaddedWidth(t, w);
    }
  }

  lemma PaddedFloat()
    ensures AllFloat(Flat(Leaf(F32)), 32) && |Flat(Leaf(F32))| == 1
  {
  }

  lemma PaddedWidth(t: Ty, w: nat)
    requires AllFloat(Flat(t), 32) && AllFloat(Flat(t), w) && |Flat(t)| >= 1
    ensures w == 32
  {
    hide Flat;
    assert IsFloat(Flat(t)[0].ty, w) && IsFloat(Flat(t)[0].ty, 32);
  }

  lemma PaddedMeasures(one: Ty, none: Ty, three: Ty)
    requires one == Leaf(F32) && none == Array(0, Leaf(F64)) && three == Array(3, Leaf(F32))
    ensures var t := Struct(None, [Field(None, one), Field(None, none), Field(None, three)]);
            Size(t) == 24 && Members(t) == 4 && HfaOf(t).None?
  {
    var f := [Field(None, one), Field(None, none), Field(None, three)];
    ThreeFields(one, none, three, 32);
    assert Members(one) == 1 && Members(none) == 0 && Members(three) == 3;
    assert SumMembers(f, 1) == 1;
    assert SumMembers(f, 2) == 1;
    assert SumMembers(f, 3) == 4;
    PaddedEnd(f);
  }

  lemma PaddedEnd(f: seq<Field>)
    requires f == [Field(None, Leaf(F32)), Field(None, Array(0, Leaf(F64))), Field(None, Array(3, Leaf(F32)))]
    ensures Size(Struct(None, f)) == 24
  {
    AlreadyRound(4, 4);
    assert Size(f[0].ty) == 4 && Align(f[0].ty) == 4;
    assert Size(f[1].ty) == 0 && Align(f[1].ty) == 8;
    assert Size(f[2].ty) == 12 && Align(f[2].ty) == 4;
    hide Size, Align, RoundUp;
    assert EndOf(f, 1) == RoundUp(0, 4) + 4;
    assert EndOf(f, 2) == RoundUp(EndOf(f, 1), 8) + 0;
    assert EndOf(f, 3) == RoundUp(EndOf(f, 2), 4) + 12;
    assert MaxAlign(f, 1) == 4;
    assert MaxAlign(f, 2) == 8;
    assert MaxAlign(f, 3) == 8;
    StructSizeIs(f);
    assert RoundUp(0, 4) == 0 && RoundUp(4, 8) == 8 && RoundUp(8, 4) == 8 && RoundUp(20, 8) == 24 by { PaddedRounds(); }
  }

  lemma PaddedRounds()
    ensures RoundUp(0, 4) == 0 && RoundUp(4, 8) == 8 && RoundUp(8, 4) == 8 && RoundUp(20, 8) == 24
  {
  }
}
