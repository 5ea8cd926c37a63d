/** CASE: the range tests followed by the switch pick the block of the arm that the
    labels pick. */
module CaseMeaning {
  import opened Arith
  import opened Ir
  import opened Machine
  import opened Source
  import opened Builder
  import opened LowerSpec
  import opened LowerGrow
  import opened Running
  import opened ExprMeaning
  import opened Landing

  // ---- What the tests select -------------------------------------------------------------

  /** Ranges are tried before single labels, whatever their order in the source; their
      bounds are compared as signed numbers. */
  function RangeTarget(ranges: seq<(int, int, BlockId)>, v: I64): Option<BlockId> {
    if ranges == [] then None
    else if Wrap(ranges[0].0) <= v <= Wrap(ranges[0].1) then Some(ranges[0].2)
    else RangeTarget(ranges[1..], v)
  }

  function Selected(arms: seq<CaseArm>, first: BlockId, default: BlockId, v: I64): BlockId {
    match RangeTarget(Ranges(arms, first), v)
    case Some(t) => t
    case None => SwitchTarget(Singles(arms, first), default, v)
  }

  /** Does the test for the label let the value through? */
  predicate Catches(l: Label, v: I64) {
    match l
    case Single(n) => Wrap(n) == v
    case Range(lo, hi) => Wrap(lo) <= v <= Wrap(hi)
  }

  predicate ArmCatches(arm: CaseArm, v: I64) {
    exists k :: 0 <= k < |arm.labels| && Catches(arm.labels[k], v)
  }

  /** The first arm with a test that lets the value through. */
  function CaughtBy(arms: seq<CaseArm>, v: I64): (r: Option<nat>)
    ensures r.Some? ==> r.value < |arms| && ArmCatches(arms[r.value], v)
  {
    if arms == [] then None
    else if ArmCatches(arms[0], v) then Some(0)
    else match CaughtBy(arms[1..], v)
      case Some(i) => Some(i + 1)
      case None => None
  }

  /** The block of an arm, or of the ELSE part. */
  function BlockOf(r: Option<nat>, first: BlockId, default: BlockId): BlockId {
    match r
    case Some(i) => first + i
    case None => default
  }

  predicate RangeCatches(labels: seq<Label>, v: I64) {
    exists k :: 0 <= k < |labels| && labels[k].Range? && Catches(labels[k], v)
  }

  predicate SingleCatches(labels: seq<Label>, v: I64) {
    exists k :: 0 <= k < |labels| && labels[k].Single? && Catches(labels[k], v)
  }

  lemma {:induction false} RangeTargetSplit(a: seq<(int, int, BlockId)>, b: seq<(int, int, BlockId)>, v: I64)
    ensures RangeTarget(a + b, v) == if RangeTarget(a, v).Some? then RangeTarget(a, v) else RangeTarget(b, v)
    decreases |a|
  {
    hide Wrap;
    if a == [] {
      assert a + b == b;
    } else {
      assert (a + b)[1..] == a[1..] + b;
      RangeTargetSplit(a[1..], b, v);
    }
  }

  lemma {:induction false} SwitchTargetSplit(a: seq<(int, BlockId)>, b: seq<(int, BlockId)>, d: BlockId, v: int)
    ensures SwitchTarget(a + b, d, v) == SwitchTarget(a, SwitchTarget(b, d, v), v)
    decreases |a|
  {
    hide Wrap;
    if a == [] {
      assert a + b == b;
    } else {
      assert (a + b)[1..] == a[1..] + b;
      SwitchTargetSplit(a[1..], b, d, v);
    }
  }

  lemma {:induction false} LabelRangesPick(labels: seq<Label>, t: BlockId, v: I64)
    ensures RangeTarget(LabelRanges(labels, t), v) == if RangeCatches(labels, v) then Some(t) else None
  {
    hide Wrap;
    if labels != [] {
      var rest := labels[1..];
      LabelRangesPick(rest, t, v);
      assert RangeCatches(labels, v) <==> (labels[0].Range? && Catches(labels[0], v)) || RangeCatches(rest, v) by {
        if RangeCatches(rest, v) {
          var k :| 0 <= k < |rest| && rest[k].Range? && Catches(rest[k], v);
          assert labels[k + 1] == rest[k];
        }
        if RangeCatches(labels, v) {
          var k :| 0 <= k < |labels| && labels[k].Range? && Catches(labels[k], v);
          assert k > 0 ==> rest[k - 1] == labels[k];
        }
      }
      RangeTargetSplit(if labels[0].Range? then [(labels[0].lo, labels[0].hi, t)] else [], LabelRanges(rest, t), v);
    }
  }

  lemma {:induction false} LabelSinglesPick(labels: seq<Label>, t: BlockId, d: BlockId, v: I64)
    ensures SwitchTarget(LabelSingles(labels, t), d, v) == if SingleCatches(labels, v) then t else d
  {
    hide Wrap;
    if labels != [] {
      var rest := labels[1..];
      LabelSinglesPick(rest, t, d, v);
      assert SingleCatches(labels, v) <==> (labels[0].Single? && Catches(labels[0], v)) || SingleCatches(rest, v) by {
        if SingleCatches(rest, v) {
          var k :| 0 <= k < |rest| && rest[k].Single? && Catches(rest[k], v);
          assert labels[k + 1] == rest[k];
        }
        if SingleCatches(labels, v) {
          var k :| 0 <= k < |labels| && labels[k].Single? && Catches(labels[k], v);
          assert k > 0 ==> rest[k - 1] == labels[k];
        }
      }
      SwitchTargetSplit(if labels[0].Single? then [(labels[0].n, t)] else [], LabelSingles(rest, t), d, v);
    }
  }

  lemma ArmCatchesParts(arm: CaseArm, v: I64)
    ensures ArmCatches(arm, v) <==> RangeCatches(arm.labels, v) || SingleCatches(arm.labels, v)
  {
    hide Catches;
  }

  /** No two arms let the value through. */
  ghost predicate CaughtOnce(arms: seq<CaseArm>, v: I64) {
    forall i, j :: 0 <= i < j < |arms| ==> !(ArmCatches(arms[i], v) && ArmCatches(arms[j], v))
  }

  lemma CaughtOnceTail(arms: seq<CaseArm>, v: I64)
    requires CaughtOnce(arms, v) && arms != []
    ensures CaughtOnce(arms[1..], v) && (ArmCatches(arms[0], v) ==> CaughtBy(arms[1..], v).None?)
  {
    hide ArmCatches;
    var rest := arms[1..];
    assert forall i :: 0 <= i < |rest| ==> rest[i] == arms[i + 1];
  }

  /** Trying ranges first makes no difference to a value that one arm at most lets
      through. */
  lemma {:induction false} SelectedIsCaught(arms: seq<CaseArm>, first: BlockId, default: BlockId, v: I64)
    requires CaughtOnce(arms, v)
    ensures Selected(arms, first, default, v) == BlockOf(CaughtBy(arms, v), first, default)
    ensures CaughtBy(arms, v).None? ==> RangeTarget(Ranges(arms, first), v).None?
  {
    hide ArmCatches, RangeCatches, SingleCatches;
    if arms != [] {
      var rest := arms[1..];
      CaughtOnceTail(arms, v);
      SelectedIsCaught(rest, first + 1, default, v);
      RangeTargetSplit(LabelRanges(arms[0].labels, first), Ranges(rest, first + 1), v);
      SwitchTargetSplit(LabelSingles(arms[0].labels, first), Singles(rest, first + 1), default, v);
      LabelRangesPick(arms[0].labels, first, v);
      LabelSinglesPick(arms[0].labels, first, SwitchTarget(Singles(rest, first + 1), default, v), v);
      ArmCatchesParts(arms[0], v);
    }
  }

  // ---- Against what the labels cover ----------------------------------------------------------

  /** A test lets through what its label covers, for every value, if and only if a single
      label is a value of the selector's type, and a range of such values is not split. */
  lemma LabelIsRightIff(l: Label, cardinal: bool)
    requires l.Range? ==> InWidth(l, cardinal)
    ensures (forall v: I64 :: Catches(l, v) <==> Covers(l, Reading(cardinal, v))) <==> InWidth(l, cardinal) && !Split(l, cardinal)
  {
    if InWidth(l, cardinal) && !Split(l, cardinal) {
      forall v: I64
        ensures Catches(l, v) <==> Covers(l, Reading(cardinal, v))
      {
        CatchesIff(l, cardinal, v);
      }
    } else {
      var v: I64 := if l.Single? then Wrap(l.n) else if l.lo < TWO63 then l.lo else l.hi;
      assert Catches(l, v) != Covers(l, Reading(cardinal, v));
    }
  }

  /** A range whose bounds are in order and split lets nothing through; one whose bounds
      are not, and are split, lets through what is outside. */
  lemma CatchesIff(l: Label, cardinal: bool, v: I64)
    requires InWidth(l, cardinal)
    ensures Catches(l, v) <==> if Split(l, cardinal) then l.hi < TWO63 && (Reading(cardinal, v) <= l.hi || l.lo <= Reading(cardinal, v))
                               else Covers(l, Reading(cardinal, v))
  {
  }

  lemma ArmAgrees(arm: CaseArm, cardinal: bool, v: I64)
    requires forall k :: 0 <= k < |arm.labels| ==> InWidth(arm.labels[k], cardinal) && !Split(arm.labels[k], cardinal)
    ensures ArmCatches(arm, v) <==> ArmCovers(arm, Reading(cardinal, v))
  {
    hide Catches, Covers, Split, InWidth, Reading;
    forall k | 0 <= k < |arm.labels|
      ensures Catches(arm.labels[k], v) <==> Covers(arm.labels[k], Reading(cardinal, v))
    {
      CatchesIff(arm.labels[k], cardinal, v);
    }
  }

  lemma {:induction false} CaughtIsPicked(arms: seq<CaseArm>, cardinal: bool, v: I64)
    requires forall i :: 0 <= i < |arms| ==> (ArmCatches(arms[i], v) <==> ArmCovers(arms[i], Reading(cardinal, v)))
    ensures CaughtBy(arms, v) == Pick(arms, Reading(cardinal, v))
  {
    hide ArmCatches, ArmCovers, Reading;
    if arms != [] {
      var rest := arms[1..];
      assert forall i :: 0 <= i < |rest| ==> rest[i] == arms[i + 1];
      CaughtIsPicked(rest, cardinal, v);
    }
  }

  /** With disjoint labels and no split range, the tests pick what the labels pick. */
  lemma SelectionAgrees(arms: seq<CaseArm>, cardinal: bool, first: BlockId, default: BlockId, v: I64)
    requires GoodLabels(arms, cardinal)
    ensures Selected(arms, first, default, v) == BlockOf(Pick(arms, Reading(cardinal, v)), first, default)
  {
    hide ArmCatches, ArmCovers, Reading, InWidth, Split, Selected;
    forall i | 0 <= i < |arms|
      ensures ArmCatches(arms[i], v) <==> ArmCovers(arms[i], Reading(cardinal, v))
    {
      ArmAgrees(arms[i], cardinal, v);
    }
    CaughtIsPicked(arms, cardinal, v);
    SelectedIsCaught(arms, first, default, v);
  }

  // ---- Split ranges -----------------------------------------------------------------------------

  /** As the analysis has it: labels are values of the selector's type, and no value is
      labelled twice. */
  ghost predicate Labelled(arms: seq<CaseArm>, cardinal: bool) {
    && (forall i, k :: IsLabel(arms, i, k) ==> InWidth(arms[i].labels[k], cardinal))
    && (forall i, k, j, m, v :: IsLabel(arms, i, k) && IsLabel(arms, j, m) && Covers(arms[i].labels[k], v) && Covers(arms[j].labels[m], v) ==>
         i == j && k == m)
  }

  predicate IsLabel(arms: seq<CaseArm>, i: int, k: int) {
    0 <= i < |arms| && 0 <= k < |arms[i].labels|
  }

  /** 2^63 lies behind the lower and not behind the upper bound. */
  predicate Straddles(l: Label, cardinal: bool) {
    cardinal && l.Range? && l.lo < TWO63 <= l.hi
  }

  /** No range of a CARDINAL selector goes from 2^63 or above to a bound below. */
  ghost predicate NoneBackwards(arms: seq<CaseArm>, cardinal: bool) {
    forall i, k :: IsLabel(arms, i, k) && Split(arms[i].labels[k], cardinal) ==> Straddles(arms[i].labels[k], cardinal)
  }

  ghost predicate Missed(arms: seq<CaseArm>, cardinal: bool, n: int) {
    exists i, k :: IsLabel(arms, i, k) && Straddles(arms[i].labels[k], cardinal) && Covers(arms[i].labels[k], n)
  }

  /** An arm lets through what it covers, but for what a straddling range of it covers. */
  lemma ArmMisses(arms: seq<CaseArm>, cardinal: bool, i: nat, v: I64)
    requires Labelled(arms, cardinal) && NoneBackwards(arms, cardinal) && i < |arms|
    ensures ArmCatches(arms[i], v) <==> ArmCovers(arms[i], Reading(cardinal, v)) && !Missed(arms, cardinal, Reading(cardinal, v))
  {
    hide Catches, Covers, InWidth, Reading;
    var (labels, n) := (arms[i].labels, Reading(cardinal, v));
    forall k | 0 <= k < |labels|
      ensures Catches(labels[k], v) <==> Covers(labels[k], n) && !Straddles(labels[k], cardinal)
    {
      assert IsLabel(arms, i, k);
      CatchesIff(labels[k], cardinal, v);
    }
    if k :| 0 <= k < |labels| && Catches(labels[k], v) {
      assert IsLabel(arms, i, k) && Covers(labels[k], n);
    }
    if k :| 0 <= k < |labels| && Covers(labels[k], n) {
      assert IsLabel(arms, i, k);
    }
  }

  /** The value gets to the arm that labels it, or to the ELSE part, if and only if no
      straddling range labels it. */
  lemma SelectionIsRightIff(arms: seq<CaseArm>, cardinal: bool, first: BlockId, default: BlockId, v: I64)
    requires Labelled(arms, cardinal) && NoneBackwards(arms, cardinal) && default < first
    ensures Selected(arms, first, default, v) == BlockOf(Pick(arms, Reading(cardinal, v)), first, default)
            <==> !Missed(arms, cardinal, Reading(cardinal, v))
  {
    hide ArmCatches, Reading, Selected, Missed, InWidth, NoneBackwards;
    var n := Reading(cardinal, v);
    forall i | 0 <= i < |arms|
      ensures ArmCatches(arms[i], v) <==> ArmCovers(arms[i], n) && !Missed(arms, cardinal, n)
    {
      ArmMisses(arms, cardinal, i, v);
    }
    forall i, j | 0 <= i < j < |arms|
      ensures !(ArmCatches(arms[i], v) && ArmCatches(arms[j], v))
    {
      LabelledOnce(arms, cardinal, n, i, j);
    }
    SelectedIsCaught(arms, first, default, v);
    if Missed(arms, cardinal, n) {
      MissedIsLabelled(arms, cardinal, n);
    } else {
      CaughtIsPicked(arms, cardinal, v);
    }
  }

  lemma LabelledOnce(arms: seq<CaseArm>, cardinal: bool, n: int, i: nat, j: nat)
    requires Labelled(arms, cardinal) && i < j < |arms|
    ensures !(ArmCovers(arms[i], n) && ArmCovers(arms[j], n))
  {
    hide Covers, InWidth;
    assert forall k, m :: IsLabel(arms, i, k) && IsLabel(arms, j, m) ==> !(Covers(arms[i].labels[k], n) && Covers(arms[j].labels[m], n));
  }

  lemma MissedIsLabelled(arms: seq<CaseArm>, cardinal: bool, n: int)
    requires Missed(arms, cardinal, n)
    ensures Pick(arms, n).Some?
  {
    hide Covers, Straddles;
    var i, k :| IsLabel(arms, i, k) && Straddles(arms[i].labels[k], cardinal) && Covers(arms[i].labels[k], n);
    assert ArmCovers(arms[i], n);
    LabelledIsPicked(arms, n, i);
  }

  lemma {:induction false} LabelledIsPicked(arms: seq<CaseArm>, n: int, i: nat)
    requires i < |arms| && ArmCovers(arms[i], n)
    ensures Pick(arms, n).Some?
  {
    hide ArmCovers;
    if i > 0 {
      LabelledIsPicked(arms[1..], n, i - 1);
    }
  }

  /** Every value of the selector gets to the arm that labels it, or to the ELSE part,
      if and only if no range of a CARDINAL selector has 2^63 inside it. */
  lemma CaseIsRightIff(arms: seq<CaseArm>, cardinal: bool, first: BlockId, default: BlockId)
    requires Labelled(arms, cardinal) && NoneBackwards(arms, cardinal) && default < first
    ensures (forall v: I64 :: Selected(arms, first, default, v) == BlockOf(Pick(arms, Reading(cardinal, v)), first, default))
            <==> forall i, k :: IsLabel(arms, i, k) ==> !Straddles(arms[i].labels[k], cardinal)
  {
    hide Selected, NoneBackwards, Pick;
    forall v: I64
      ensures Selected(arms, first, default, v) == BlockOf(Pick(arms, Reading(cardinal, v)), first, default)
              <==> !Missed(arms, cardinal, Reading(cardinal, v))
    {
      SelectionIsRightIff(arms, cardinal, first, default, v);
    }
    if i, k :| IsLabel(arms, i, k) && Straddles(arms[i].labels[k], cardinal) {
      var l := arms[i].labels[k];
      assert InWidth(l, cardinal);
      var v: I64 := l.lo;
      assert Covers(l, Reading(cardinal, v));
      assert Missed(arms, cardinal, Reading(cardinal, v));
    }
  }

  /** A value without a label that a range with split bounds in the wrong order lets
      through gets to an arm. */
  lemma BackwardsGoesWrong(arms: seq<CaseArm>, cardinal: bool, first: BlockId, default: BlockId, v: I64, i: nat, k: nat)
    requires IsLabel(arms, i, k) && InWidth(arms[i].labels[k], cardinal)
    requires Split(arms[i].labels[k], cardinal) && !Straddles(arms[i].labels[k], cardinal)
    requires var l := arms[i].labels[k]; Reading(cardinal, v) <= l.hi || l.lo <= Reading(cardinal, v)
    requires Pick(arms, Reading(cardinal, v)).None? && default < first
    ensures Selected(arms, first, default, v) != BlockOf(Pick(arms, Reading(cardinal, v)), first, default)
  {
    hide Reading, Pick;
    CatchesIff(arms[i].labels[k], cardinal, v);
    RangeIsTaken(arms, first, v, i, k);
  }

  lemma {:induction false} RangeIsTaken(arms: seq<CaseArm>, first: BlockId, v: I64, i: nat, k: nat)
    requires IsLabel(arms, i, k) && arms[i].labels[k].Range? && Catches(arms[i].labels[k], v)
    ensures RangeTarget(Ranges(arms, first), v).Some? && RangeTarget(Ranges(arms, first), v).value >= first
  {
    hide Catches;
    RangeTargetSplit(LabelRanges(arms[0].labels, first), Ranges(arms[1..], first + 1), v);
    LabelRangesPick(arms[0].labels, first, v);
    if i > 0 {
      RangeIsTaken(arms[1..], first + 1, v, i - 1, k);
    }
  }

  /** CASE c OF 1..2^64 - 1 with c = 5: the ELSE part runs. */
  lemma WideRangeIsMissed(body: seq<Stmt>, first: BlockId, default: BlockId)
    ensures var arms := [CaseArm([Range(1, TWO64 - 1)], body)];
            Pick(arms, Reading(true, 5)) == Some(0) && Selected(arms, first, default, 5) == default
  {
    var l := Range(1, TWO64 - 1);
    var arms := [CaseArm([l], body)];
    assert Covers(arms[0].labels[0], 5);
    assert !Catches(l, 5);
    SelectedIsCaught(arms, first, default, 5);
  }

  /** CASE c OF 2^64 - 1..5, which labels nothing, with c = 3: the arm runs. */
  lemma BackwardRangeIsTaken(body: seq<Stmt>, first: BlockId, default: BlockId)
    ensures var arms := [CaseArm([Range(TWO64 - 1, 5)], body)];
            Pick(arms, Reading(true, 3)).None? && Selected(arms, first, default, 3) == first
  {
    var l := Range(TWO64 - 1, 5);
    var arms := [CaseArm([l], body)];
    assert !Covers(l, 3);
    assert Catches(arms[0].labels[0], 3);
    SelectedIsCaught(arms, first, default, 3);
  }

  // ---- Running the tests ----------------------------------------------------------------------

  /** The condition a range test branches on. */
  function RangeCond(b: Low, v: Reg, lo: int, hi: int): Low {
    var c := b.g.nextReg;
    var b1 := Ins(Bounds(b, lo, hi), Binary(c + 2, Ge, v, c));
    Ins(Ins(b1, Binary(c + 3, Le, v, c + 1)), Binary(c + 4, And, c + 2, c + 3))
  }

  function Bounds(b: Low, lo: int, hi: int): Low {
    Ins(Ins(b, Const(b.g.nextReg, IntC(lo))), Const(b.g.nextReg + 1, IntC(hi)))
  }

  lemma BoundsStep(w: World, f: seq<Block>, b: Low, lo: int, hi: int, c: Config) returns (d: Config)
    requires !Closed(b) && At(c, b) && Ext(Blocks(Bounds(b, lo, hi)), f)
    ensures Arrives(w, f, b, Bounds(b, lo, hi), c, d, c.st) && !Closed(Bounds(b, lo, hi)) && Bounds(b, lo, hi).g.nextReg == b.g.nextReg + 2
    ensures Holds(Bounds(b, lo, hi), d, b.g.nextReg, Num(Wrap(lo))) && Holds(Bounds(b, lo, hi), d, b.g.nextReg + 1, Num(Wrap(hi)))
  {
    hide Ext, Reach, Wrap;
    var n := b.g.nextReg;
    var i1 := Const(n, IntC(lo));
    var b1 := Ins(b, i1);
    var i2 := Const(n + 1, IntC(hi));
    ExtIns(b1, i2, f);
    var c1 := InsStep(w, f, b, i1, c, Num(Wrap(lo)));
    d := ThenIns(w, f, b, b1, i2, c, c1, c.st, Num(Wrap(hi)));
  }

  lemma RangeCondStep(w: World, f: seq<Block>, b: Low, v: Reg, lo: int, hi: int, x: I64, c: Config) returns (d: Config)
    requires !Closed(b) && At(c, b) && Holds(b, c, v, Num(x)) && Ext(Blocks(RangeCond(b, v, lo, hi)), f)
    ensures Arrives(w, f, b, RangeCond(b, v, lo, hi), c, d, c.st) && !Closed(RangeCond(b, v, lo, hi))
    ensures Holds(RangeCond(b, v, lo, hi), d, b.g.nextReg + 4, Num(FromBool(Wrap(lo) <= x <= Wrap(hi))))
  {
    hide Ext, Reach, Bounds, Closed, Arrives, Ins, BinaryOf, Wrap;
    var n := b.g.nextReg;
    var (low, high) := (Wrap(lo), Wrap(hi));
    var b2 := Bounds(b, lo, hi);
    var b3 := Ins(b2, Binary(n + 2, Ge, v, n));
    var b4 := Ins(b3, Binary(n + 3, Le, v, n + 1));
    ExtRangeCond(b, v, lo, hi, f);
    OpTable(x, low);
    OpTable(x, high);
    OpTable(FromBool(x >= low), FromBool(x <= high));
    var c2 := BoundsStep(w, f, b, lo, hi, c);
    KeptByArriving(w, f, b, b2, c, c2, c.st);
    HoldsKept(b, b2, c, c2, v, Num(x));
    var c3 := ThenBinary(w, f, b, b2, Ge, v, n, x, low, FromBool(x >= low), c, c2, c.st);
    HoldsKept(b2, b3, c2, c3, v, Num(x));
    HoldsKept(b2, b3, c2, c3, n + 1, Num(high));
    var c4 := ThenBinary(w, f, b, b3, Le, v, n + 1, x, high, FromBool(x <= high), c, c3, c.st);
    HoldsKept(b3, b4, c3, c4, n + 2, Num(FromBool(x >= low)));
    d := ThenBinary(w, f, b, b4, And, n + 2, n + 3, FromBool(x >= low), FromBool(x <= high), FromBool(low <= x <= high), c, c4, c.st);
  }

  lemma KeptByArriving(w: World, f: seq<Block>, b: Low, b1: Low, c: Config, d: Config, st: State)
    requires Arrives(w, f, b, b1, c, d, st)
    ensures Kept(b.g.nextReg, c, d)
  {
  }

  lemma ExtRangeCond(b: Low, v: Reg, lo: int, hi: int, f: seq<Block>)
    requires Ext(Blocks(RangeCond(b, v, lo, hi)), f)
    ensures var n := b.g.nextReg;
            var b2 := Bounds(b, lo, hi);
            var b3 := Ins(b2, Binary(n + 2, Ge, v, n));
            Ext(Blocks(b2), f) && Ext(Blocks(b3), f) && Ext(Blocks(Ins(b3, Binary(n + 3, Le, v, n + 1))), f)
  {
    hide Ext, Bounds;
    var n := b.g.nextReg;
    var b2 := Bounds(b, lo, hi);
    var b3 := Ins(b2, Binary(n + 2, Ge, v, n));
    var b4 := Ins(b3, Binary(n + 3, Le, v, n + 1));
    ExtIns(b4, Binary(n + 4, And, n + 2, n + 3), f);
    ExtIns(b3, Binary(n + 3, Le, v, n + 1), f);
    ExtIns(b2, Binary(n + 2, Ge, v, n), f);
  }

  lemma RangeTestStep(w: World, f: seq<Block>, b: Low, v: Reg, lo: int, hi: int, target: BlockId, x: I64, c: Config) returns (d: Config)
    requires !Closed(b) && At(c, b) && Holds(b, c, v, Num(x)) && Ext(Blocks(RangeTest(b, v, lo, hi, target)), f)
    ensures if Wrap(lo) <= x <= Wrap(hi) then Jumps(w, f, b.g.nextReg, c, d, target, c.st)
            else Arrives(w, f, b, RangeTest(b, v, lo, hi, target), c, d, c.st)
    ensures !Closed(RangeTest(b, v, lo, hi, target))
  {
    hide Ext, Reach, Wrap;
    var b0 := LBlock(b);
    var b1 := RangeCond(b0, v, lo, hi);
    var next := |Blocks(b)|;
    var t := CondBr(b.g.nextReg + 4, target, next);
    assert RangeTest(b, v, lo, hi, target) == LSwitch(LEnd(b1, t), next);
    EndExt(b1, t);
    ExtBack(b1, LEnd(b1, t), f);
    GrowsRangeTest(b, v, lo, hi, target);
    var c1 := RangeCondStep(w, f, b0, v, lo, hi, x, c);
    d := BranchStep(w, f, b.g.nextReg, b1, b.g.nextReg + 4, target, next, FromBool(Wrap(lo) <= x <= Wrap(hi)), c, c1);
  }

  lemma {:induction false} RangeTestsStep(w: World, f: seq<Block>, b: Low, v: Reg, ranges: seq<(int, int, BlockId)>, x: I64, c: Config) returns (d: Config)
    requires !Closed(b) && At(c, b) && Holds(b, c, v, Num(x)) && Ext(Blocks(RangeTests(b, v, ranges)), f)
    ensures match RangeTarget(ranges, x)
            case Some(t) => Jumps(w, f, b.g.nextReg, c, d, t, c.st)
            case None => Arrives(w, f, b, RangeTests(b, v, ranges), c, d, c.st) && Holds(RangeTests(b, v, ranges), d, v, Num(x))
    ensures !Closed(RangeTests(b, v, ranges))
    decreases |ranges|
  {
    hide Ext, Reach, RangeTest, Wrap;
    GrowsRangeTests(b, v, ranges);
    if ranges == [] {
      ArrivesRefl(w, f, b, c);
      d := c;
    } else {
      var b1 := RangeTest(b, v, ranges[0].0, ranges[0].1, ranges[0].2);
      GrowsRangeTest(b, v, ranges[0].0, ranges[0].1, ranges[0].2);
      GrowsRangeTests(b1, v, ranges[1..]);
      ExtBack(b1, RangeTests(b1, v, ranges[1..]), f);
      d := RangeTestStep(w, f, b, v, ranges[0].0, ranges[0].1, ranges[0].2, x, c);
      if !(Wrap(ranges[0].0) <= x <= Wrap(ranges[0].1)) {
        var c1 := d;
        HoldsKept(b, b1, c, c1, v, Num(x));
        d := RangeTestsStep(w, f, b1, v, ranges[1..], x, c1);
        if RangeTarget(ranges[1..], x).None? {
          ArrivesTrans(w, f, b, b1, RangeTests(b1, v, ranges[1..]), c, c1, d, c.st, c.st);
        } else {
          ReachTrans(w, f, 0, 0, Run(c), Run(c1), Run(d));
          KeptTrans(b.g.nextReg, b1.g.nextReg, c, c1, d);
        }
      }
    }
  }

  lemma SwitchStep(w: World, f: seq<Block>, n: Reg, b: Low, v: Reg, arms: seq<(int, BlockId)>, default: BlockId, x: I64, c: Config, d: Config) returns (e: Config)
    requires !Closed(b) && At(d, b) && Ext(Blocks(LEnd(b, Switch(v, arms, default))), f) && Holds(b, d, v, Num(x))
    requires Reach(w, f, 0, Run(c), Run(d)) && Kept(n, c, d)
    ensures Jumps(w, f, n, c, e, SwitchTarget(arms, default, x), d.st)
  {
    hide Ext, SwitchTarget;
    EndStep(w, f, b, Switch(v, arms, default), d);
    e := d.(blk := SwitchTarget(arms, default, x), idx := 0);
    ReachTrans(w, f, 0, 0, Run(c), Run(d), Run(e));
  }

  /** From the selector's value to the start of the selected arm, whatever the labels. */
  lemma DispatchStep(w: World, f: seq<Block>, b: Low, v: Reg, arms: seq<CaseArm>, x: I64, c: Config) returns (d: Config)
    requires !Closed(b) && At(c, b) && Holds(b, c, v, Num(x)) && Ext(Blocks(CaseDispatch(b, v, arms)), f)
    ensures var n := |Blocks(b)|;
            Jumps(w, f, b.g.nextReg, c, d, Selected(arms, n + 2, n + 1, x), c.st)
  {
    hide Ext, Reach, RangeTests, AddBlocks, Ranges, Singles, RangeTarget, SwitchTarget;
    var n := |Blocks(b)|;
    var b1 := AddBlocks(b, 2 + |arms|);
    GrowsAddBlocks(b, 2 + |arms|);
    var ranges := Ranges(arms, n + 2);
    var singles := Singles(arms, n + 2);
    var b2 := RangeTests(b1, v, ranges);
    GrowsRangeTests(b1, v, ranges);
    EndExt(b2, Switch(v, singles, n + 1));
    ExtBack(b2, CaseDispatch(b, v, arms), f);
    assert At(c, b1) by { Same(b, b1, c); }
    d := RangeTestsStep(w, f, b1, v, ranges, x, c);
    if RangeTarget(ranges, x).None? {
      d := SwitchStep(w, f, b.g.nextReg, b2, v, singles, n + 1, x, c, d);
    }
  }

  lemma Same(b: Low, b1: Low, c: Config)
    requires At(c, b) && b1.g.current == b.g.current && Blocks(b1)[b.g.current] == Blocks(b)[b.g.current]
    ensures At(c, b1)
  {
  }
}
