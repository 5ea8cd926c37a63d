/** Homogeneous floating-point aggregates, and which types are returned in registers. */
module HfaReturn {
  import opened Ir
  import opened Encoding
  import opened Layout
  import opened Leaves

  datatype Hfa = Hfa(width: nat, count: nat)

  /** What the code finds: the width in bits and, in 32 bits, the number of its members. */
  function HfaOf(t: Ty): (r: Option<Hfa>)
    ensures r.Some? ==> r.value.count < TWO32
    decreases t
  {
    match t
    case Leaf(F32) => Some(Hfa(32, 1))
    case Leaf(F64) => Some(Hfa(64, 1))
    case Array(len, elem) => Repeated(HfaOf(elem), len)
    case Struct(_, fields) => if fields == [] then None else HfaFields(fields, |fields|)
    case _ => None
  }

  function HfaField(f: Field): (r: Option<Hfa>)
    ensures r.Some? ==> r.value.count < TWO32
    decreases f
  {
    HfaOf(f.ty)
  }

  /** More members than 32 bits can count are none. */
  function Repeated(r: Option<Hfa>, len: nat): Option<Hfa> {
    if r.None? || Copies(r.value.count, len) >= TWO32 then None else Some(Hfa(r.value.width, Copies(r.value.count, len)))
  }

  /** The sum of two counts wraps around. */
  function Both(a: Option<Hfa>, b: Option<Hfa>): Option<Hfa> {
    if a.None? || b.None? || a.value.width != b.value.width then None
    else Some(Hfa(a.value.width, (a.value.count + b.value.count) % TWO32))
  }

  function HfaFields(fields: seq<Field>, n: nat): (r: Option<Hfa>)
    requires 1 <= n <= |fields|
    ensures r.Some? ==> r.value.count < TWO32
    decreases fields, n
  {
    if n == 1 then HfaField(fields[0]) else Both(HfaFields(fields, n - 1), HfaField(fields[n - 1]))
  }

  /** Counts are multiplied in 64 bits, checked, then narrowed. */
  method FindHfa(t: Ty) returns (r: Option<Hfa>)
    ensures r == HfaOf(t)
    decreases t
  {
    match t
    case Leaf(F32) => r := Some(Hfa(32, 1));
    case Leaf(F64) => r := Some(Hfa(64, 1));
    case Array(len, elem) =>
      var e := FindHfa(elem);
      if e.None? {
        return None;
      }
      var total := Copies(e.value.count, len);
      if total > MAXU64 || total >= TWO32 {
        return None;
      }
      r := Some(Hfa(e.value.width, total));
    case Struct(_, fields) => r := FindHfaOfFields(fields);
    case _ => r := None;
  }

  lemma {:induction false} NoneStays(fields: seq<Field>, i: nat, n: nat)
    requires 1 <= i <= n <= |fields| && HfaFields(fields, i).None?
    ensures HfaFields(fields, n).None?
    decreases n
  {
    if i < n {
      NoneStays(fields, i, n - 1);
    }
  }

  method FindHfaOfFields(fields: seq<Field>) returns (acc: Option<Hfa>)
    ensures acc == if fields == [] then None else HfaFields(fields, |fields|)
    decreases fields
  {
    acc := None;
    for i := 0 to |fields|
      invariant i == 0 ==> acc.None?
      invariant i > 0 ==> acc.Some? && acc == HfaFields(fields, i)
    {
      var f := FindHfaOfField(fields[i]);
      if f.None? || (acc.Some? && acc.value.width != f.value.width) {
        NoneStays(fields, i + 1, |fields|);
        return None;
      }
      acc := if acc.None? then f else Some(Hfa(f.value.width, (acc.value.count + f.value.count) % TWO32));
    }
  }

  method FindHfaOfField(f: Field) returns (r: Option<Hfa>)
    ensures r == HfaField(f)
    decreases f
  {
    r := FindHfa(f.ty);
  }

  datatype AbiReturn = Registers | IndirectSret

  function AbiOf(t: Ty): AbiReturn {
    var h := HfaOf(t);
    if (h.Some? && 1 <= h.value.count <= 4) || Saturate(Size(t)) <= 16 then Registers else IndirectSret
  }

  method ReturnClass(t: Ty) returns (r: AbiReturn)
    ensures r == AbiOf(t)
  {
    var h := FindHfa(t);
    if h.Some? && 1 <= h.value.count <= 4 {
      return Registers;
    }
    var size, align := SizeAlign(t);
    r := if size <= 16 then Registers else IndirectSret;
  }

  // ---- Against the leaves --------------------------------------------------------------------------

  predicate IsFloat(t: Ty, w: nat) {
    (w == 32 && t == Leaf(F32)) || (w == 64 && t == Leaf(F64))
  }

  ghost predicate AllFloat(s: seq<Placed>, w: nat) {
    forall i :: 0 <= i < |s| ==> IsFloat(s[i].ty, w)
  }

  /** Nothing but floating-point numbers of `w` bits, and no union. */
  ghost predicate FloatsOnly(t: Ty, w: nat) {
    NoUnion(t) && AllFloat(Flat(t), w)
  }

  lemma AllFloatJoin(a: seq<Placed>, b: seq<Placed>, d: nat, w: nat)
    ensures AllFloat(a + Shift(b, d), w) <==> AllFloat(a, w) && AllFloat(b, w)
  {
    var s := a + Shift(b, d);
    assert forall i :: 0 <= i < |a| ==> s[i] == a[i];
    assert forall i :: 0 <= i < |b| ==> s[|a| + i].ty == b[i].ty;
  }

  lemma {:induction false} ArrayLeaves(elem: Ty, n: nat, w: nat)
    ensures |FlatArray(elem, n)| == Copies(|Flat(elem)|, n)
    ensures n >= 1 ==> (AllFloat(FlatArray(elem, n), w) <==> AllFloat(Flat(elem), w))
    ensures n == 0 ==> AllFloat(FlatArray(elem, n), w)
    decreases n
  {
    hide Flat, AllFloat, ElemsEnd;
    if n > 0 {
      ArrayLeaves(elem, n - 1, w);
      AllFloatJoin(FlatArray(elem, n - 1), Flat(elem), ElemsEnd(elem, n - 1), w);
    } else {
      assert AllFloat([], w) by { NoneFloat(w); }
    }
  }

  lemma NoneFloat(w: nat)
    ensures AllFloat([], w)
  {
  }

  lemma OneLeaf(t: Ty, w: nat)
    ensures AllFloat([Placed(0, t)], w) <==> IsFloat(t, w)
  {
    var p := Placed(0, t);
    assert [p][0].ty == t;
  }

  lemma ModTimes(c: nat, m: nat, n: nat)
    requires m == c % TWO32 && m * n < TWO32
    ensures c * n % TWO32 == m * n
  {
    var q := c / TWO32;
    assert c == q * TWO32 + m;
    assert c * n == (q * n) * TWO32 + m * n by {
      assert (q * TWO32 + m) * n == (q * n) * TWO32 + m * n;
    }
    ModOf(q * n, m * n);
  }

  lemma ModOf(q: nat, r: nat)
    requires r < TWO32
    ensures (q * TWO32 + r) % TWO32 == r
  {
  }

  lemma ModPlus(a: nat, b: nat)
    ensures (a % TWO32 + b % TWO32) % TWO32 == (a + b) % TWO32
  {
  }

  lemma CopiesMod(c: nat, m: nat, n: nat)
    requires m == c % TWO32 && Copies(m, n) < TWO32
    ensures Copies(c, n) % TWO32 == Copies(m, n)
  {
    ModTimes(c, m, n);
  }

  // ---- What the code can see -----------------------------------------------------------------------

  /** Floating-point numbers of `w` bits by every word of the type, even where an array has
      no elements; no union, no struct without fields. */
  predicate Strict(t: Ty, w: nat)
    decreases t
  {
    match t
    case Array(_, elem) => Strict(elem, w)
    case Struct(_, fields) => fields != [] && StrictFields(fields, |fields|, w)
    case Union(_, _) => false
    case _ => IsFloat(t, w)
  }

  predicate StrictField(f: Field, w: nat)
    decreases f
  {
    Strict(f.ty, w)
  }

  predicate StrictFields(fields: seq<Field>, n: nat, w: nat)
    requires n <= |fields|
    decreases fields, n
  {
    n > 0 ==> StrictField(fields[n - 1], w) && StrictFields(fields, n - 1, w)
  }

  /** The members of no array are too many for 32 bits, counted as the code counts. */
  ghost predicate CountsFit(t: Ty)
    decreases t
  {
    match t
    case Array(len, elem) => CountsFit(elem) && Copies(|Flat(elem)| % TWO32, len) < TWO32
    case Struct(_, fields) => CountsFitIn(fields, |fields|)
    case _ => true
  }

  ghost predicate CountsFitField(f: Field)
    decreases f
  {
    CountsFit(f.ty)
  }

  ghost predicate CountsFitIn(fields: seq<Field>, n: nat)
    requires n <= |fields|
    decreases fields, n
  {
    n > 0 ==> CountsFitField(fields[n - 1]) && CountsFitIn(fields, n - 1)
  }

  /** The result for a type it can see through. */
  function Found(w: nat, leaves: nat): Option<Hfa> { Some(Hfa(w, leaves % TWO32)) }

  lemma {:induction false} FoundExactly(t: Ty, w: nat)
    ensures HfaOf(t) == Found(w, |Flat(t)|) <==> Strict(t, w) && CountsFit(t)
    ensures HfaOf(t).Some? ==> HfaOf(t) == Found(HfaOf(t).value.width, |Flat(t)|)
    decreases t, 0
  {
    hide FlatArray, FlatStruct, HfaFields, StrictFields, CountsFitIn;
    match t
    case Array(len, elem) =>
      FoundExactly(elem, w);
      ArrayLeaves(elem, len, w);
      if HfaOf(elem).Some? {
        FoundInArray(HfaOf(elem).value.width, |Flat(elem)|, len);
      }
    case Struct(_, fields) =>
      if fields != [] {
        FoundInFields(fields, |fields|, w);
      }
    case _ =>
  }

  lemma FoundInArray(w: nat, c: nat, len: nat)
    ensures Repeated(Found(w, c), len) == if Copies(c % TWO32, len) < TWO32 then Found(w, Copies(c, len)) else None
  {
    if Copies(c % TWO32, len) < TWO32 {
      CopiesMod(c, c % TWO32, len);
    }
  }

  lemma {:induction false} FoundInField(f: Field, w: nat)
    ensures HfaField(f) == Found(w, |FlatField(f)|) <==> StrictField(f, w) && CountsFitField(f)
    ensures HfaField(f).Some? ==> HfaField(f) == Found(HfaField(f).value.width, |FlatField(f)|)
    decreases f, 0
  {
    FoundExactly(f.ty, w);
  }

  lemma {:induction false} FoundInFields(fields: seq<Field>, n: nat, w: nat)
    requires 1 <= n <= |fields|
    ensures HfaFields(fields, n) == Found(w, |FlatStruct(fields, n)|) <==> StrictFields(fields, n, w) && CountsFitIn(fields, n)
    ensures HfaFields(fields, n).Some? ==> HfaFields(fields, n) == Found(HfaFields(fields, n).value.width, |FlatStruct(fields, n)|)
    decreases fields, n
  {
    hide FlatField, HfaField, StrictField, CountsFitField, OffsetOf;
    var f := fields[n - 1];
    FoundInField(f, w);
    if n > 1 {
      FoundInFields(fields, n - 1, w);
      ModPlus(|FlatStruct(fields, n - 1)|, |FlatField(f)|);
    } else {
      assert FlatStruct(fields, 0) == [];
    }
  }

  /** The search finds (w, c) exactly when it sees numbers of w bits everywhere and c is
      their count modulo 2^32; for every type. */
  lemma HfaIff(t: Ty, w: nat, c: nat)
    ensures HfaOf(t) == Some(Hfa(w, c)) <==> Strict(t, w) && CountsFit(t) && c == |Flat(t)| % TWO32
  {
    hide Flat, HfaOf, Strict, CountsFit;
    FoundExactly(t, w);
  }

  lemma {:induction false} StrictIsFloat(t: Ty, w: nat)
    requires Strict(t, w)
    ensures FloatsOnly(t, w)
    decreases t, 0
  {
    hide FlatArray, FlatStruct, AllFloat, Copies;
    match t
    case Array(len, elem) =>
      StrictIsFloat(elem, w);
      ArrayLeaves(elem, len, w);
    case Struct(_, fields) => StrictFieldsAreFloat(fields, |fields|, w);
    case Union(_, _) =>
    case _ => OneLeaf(t, w);
  }

  lemma {:induction false} StrictFieldIsFloat(f: Field, w: nat)
    requires StrictField(f, w)
    ensures AllFloat(FlatField(f), w) && NoUnionField(f)
    decreases f, 0
  {
    hide AllFloat;
    StrictIsFloat(f.ty, w);
  }

  lemma {:induction false} StrictFieldsAreFloat(fields: seq<Field>, n: nat, w: nat)
    requires n <= |fields| && StrictFields(fields, n, w)
    ensures AllFloat(FlatStruct(fields, n), w) && NoUnions(fields, n)
    decreases fields, n
  {
    hide FlatField, AllFloat, StrictField, NoUnionField, OffsetOf;
    if n == 0 {
      NoneFloat(w);
    } else {
      StrictFieldIsFloat(fields[n - 1], w);
      StrictFieldsAreFloat(fields, n - 1, w);
      AllFloatJoin(FlatStruct(fields, n - 1), FlatField(fields[n - 1]), OffsetOf(fields, n - 1), w);
    }
  }

  /** Whatever is found is true of the leaves, except that the count wraps around. */
  lemma HfaTells(t: Ty)
    ensures HfaOf(t).Some? ==> FloatsOnly(t, HfaOf(t).value.width) && HfaOf(t).value.count == |Flat(t)| % TWO32
  {
    hide Flat, HfaOf, Strict, CountsFit, FloatsOnly;
    if HfaOf(t).Some? {
      FoundExactly(t, HfaOf(t).value.width);
      StrictIsFloat(t, HfaOf(t).value.width);
    }
  }

  /** What keeps the code from seeing numbers of `w` bits where there is nothing else: a
      union, a struct without fields, or an array without elements of another type. */
  predicate Odd(t: Ty, w: nat)
    decreases t
  {
    match t
    case Array(len, elem) => if len == 0 then !Strict(elem, w) else Odd(elem, w)
    case Struct(_, fields) => fields == [] || OddFields(fields, |fields|, w)
    case Union(_, _) => true
    case _ => false
  }

  predicate OddField(f: Field, w: nat)
    decreases f
  {
    Odd(f.ty, w)
  }

  predicate OddFields(fields: seq<Field>, n: nat, w: nat)
    requires n <= |fields|
    decreases fields, n
  {
    n > 0 && (OddField(fields[n - 1], w) || OddFields(fields, n - 1, w))
  }

  lemma {:induction false} StrictUnlessOdd(t: Ty, w: nat)
    requires AllFloat(Flat(t), w)
    ensures Strict(t, w) <==> !Odd(t, w)
    decreases t, 0
  {
    hide FlatArray, FlatStruct, AllFloat;
    match t
    case Array(len, elem) =>
      ArrayLeaves(elem, len, w);
      if len > 0 {
        StrictUnlessOdd(elem, w);
      }
    case Struct(_, fields) => StrictFieldsUnlessOdd(fields, |fields|, w);
    case Union(_, _) =>
    case _ => OneLeaf(t, w);
  }

  lemma {:induction false} StrictFieldUnlessOdd(f: Field, w: nat)
    requires AllFloat(FlatField(f), w)
    ensures StrictField(f, w) <==> !OddField(f, w)
    decreases f, 0
  {
    hide AllFloat;
    StrictUnlessOdd(f.ty, w);
  }

  lemma {:induction false} StrictFieldsUnlessOdd(fields: seq<Field>, n: nat, w: nat)
    requires n <= |fields| && AllFloat(FlatStruct(fields, n), w)
    ensures StrictFields(fields, n, w) <==> !OddFields(fields, n, w)
    decreases fields, n
  {
    hide FlatField, AllFloat, StrictField, OddField, OffsetOf;
    if n > 0 {
      AllFloatJoin(FlatStruct(fields, n - 1), FlatField(fields[n - 1]), OffsetOf(fields, n - 1), w);
      StrictFieldUnlessOdd(fields[n - 1], w);
      StrictFieldsUnlessOdd(fields, n - 1, w);
    }
  }

  /** For what can be counted in 32 bits: (w, c) is found exactly when the leaves are c
      floating-point numbers of w bits, and nothing odd is around them. */
  lemma HfaExact(t: Ty, w: nat, c: nat)
    requires |Flat(t)| < TWO32
    ensures HfaOf(t) == Some(Hfa(w, c)) <==> FloatsOnly(t, w) && !Odd(t, w) && CountsFit(t) && c == |Flat(t)|
  {
    hide Flat, HfaOf, AllFloat, NoUnion, Strict, Odd, CountsFit;
    HfaIff(t, w, c);
    if AllFloat(Flat(t), w) {
      StrictUnlessOdd(t, w);
    }
    if Strict(t, w) {
      StrictIsFloat(t, w);
    }
  }

  // ---- No padding ----------------------------------------------------------------------------------

  /** The leaves follow each other `b` bytes apart, from `from` on. */
  ghost predicate Evenly(s: seq<Placed>, from: nat, b: nat) {
    forall k: nat :: k < |s| ==> s[k].at == from + Copies(b, k)
  }

  lemma EvenlyJoin(s: seq<Placed>, t: seq<Placed>, d: nat, b: nat)
    requires Evenly(s, 0, b) && Evenly(t, 0, b) && d == Copies(b, |s|)
    ensures Evenly(s + Shift(t, d), 0, b)
  {
    var u := s + Shift(t, d);
    forall k: nat | k < |u|
      ensures u[k].at == Copies(b, k)
    {
      if k >= |s| {
        var j: nat := k - |s|;
        assert u[k].at == t[j].at + d == Copies(b, j) + Copies(b, |s|);
        assert b * j + b * |s| == b * (j + |s|);
      }
    }
  }

  /** What the code sees through has no gaps: the numbers fill their type. */
  lemma {:induction false} FloatsFill(t: Ty, w: nat)
    requires Strict(t, w)
    ensures Align(t) == w / 8 && Size(t) == Copies(w / 8, |Flat(t)|) && Evenly(Flat(t), 0, w / 8)
    decreases t, 0
  {
    hide FlatArray, FlatStruct, Copies, StrictFields, Evenly, RoundUp, EndOf, MaxAlign;
    match t
    case Array(len, elem) =>
      FloatsFill(elem, w);
      ArrayFills(elem, len, w);
      StrideIs(elem);
      ArraySize(len, elem);
    case Struct(name, fields) =>
      FieldsFill(fields, |fields|, w);
      AlreadyRoundTimes(w / 8, |Flat(t)|);
    case Union(_, _) =>
    case _ => OneFills(t, w);
  }

  lemma OneFills(t: Ty, w: nat)
    requires IsFloat(t, w)
    ensures Align(t) == w / 8 && Size(t) == Copies(w / 8, 1) && Evenly([Placed(0, t)], 0, w / 8)
  {
  }

  lemma AlreadyRoundTimes(a: nat, n: nat)
    requires IsAlign(a)
    ensures RoundUp(Copies(a, n), a) == Copies(a, n)
  {
    MultipleTimes(a, n, a);
    AlreadyRound(a * n, a);
  }

  lemma {:induction false} ArrayFills(elem: Ty, n: nat, w: nat)
    requires Size(elem) == Copies(w / 8, |Flat(elem)|) && Evenly(Flat(elem), 0, w / 8)
    ensures ElemsEnd(elem, n) == Copies(w / 8, |FlatArray(elem, n)|) && Evenly(FlatArray(elem, n), 0, w / 8)
    decreases n
  {
    hide Flat, Evenly, ElemsEnd, Copies, Size;
    if n == 0 {
      NothingEven(elem, w);
    } else {
      ArrayFills(elem, n - 1, w);
      ElemsEndIs(elem, n);
      var before := FlatArray(elem, n - 1);
      EvenlyJoin(before, Flat(elem), ElemsEnd(elem, n - 1), w / 8);
      CopiesPlus(w / 8, |before|, |Flat(elem)|);
    }
  }

  lemma NothingEven(elem: Ty, w: nat)
    ensures ElemsEnd(elem, 0) == Copies(w / 8, 0) == 0 && Evenly([], 0, w / 8)
  {
  }

  lemma CopiesPlus(b: nat, m: nat, n: nat)
    ensures Copies(b, m) + Copies(b, n) == Copies(b, m + n)
  {
    assert b * m + b * n == b * (m + n);
  }

  lemma {:induction false} FieldFills(f: Field, w: nat)
    requires StrictField(f, w)
    ensures FieldAlign(f) == w / 8 && FieldSize(f) == Copies(w / 8, |FlatField(f)|) && Evenly(FlatField(f), 0, w / 8)
    decreases f, 0
  {
    hide Evenly, Copies;
    FloatsFill(f.ty, w);
  }

  lemma {:induction false} FieldsFill(fields: seq<Field>, n: nat, w: nat)
    requires n <= |fields| && StrictFields(fields, n, w)
    ensures EndOf(fields, n) == Copies(w / 8, |FlatStruct(fields, n)|) && Evenly(FlatStruct(fields, n), 0, w / 8)
    ensures n >= 1 ==> MaxAlign(fields, n) == w / 8
    decreases fields, n
  {
    hide FlatField, StrictField, Evenly, Copies, FieldAlign, FieldSize, RoundUp;
    if n == 0 {
      NothingEven(Pointer, w);
    } else {
      var f := fields[n - 1];
      var before := FlatStruct(fields, n - 1);
      FieldsFill(fields, n - 1, w);
      FieldFills(f, w);
      AlreadyRoundTimes(w / 8, |before|);
      EvenlyJoin(before, FlatField(f), OffsetOf(fields, n - 1), w / 8);
      CopiesPlus(w / 8, |before|, |FlatField(f)|);
    }
  }
}
