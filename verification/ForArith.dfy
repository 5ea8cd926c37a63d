/** The FOR loop against the arithmetic of whole numbers: which values the control
    variable takes, and exactly when 64-bit arithmetic gets them right. */
module ForArith {
  import opened Arith
  import opened Ir
  import opened Machine
  import opened Source

  // ---- More rounds do not change how a run ends ------------------------------------------

  lemma {:induction false} SameEndAll(w: World, ss: seq<Stmt>, n: nat, m: nat, st: State)
    requires n <= m && !ExecAll(w, ss, n, st).o.Timeout?
    ensures ExecAll(w, ss, m, st) == ExecAll(w, ss, n, st)
    decreases n, ss, 0
  {
    if ss != [] {
      SameEnd(w, ss[0], n, m, st);
      var r := Exec(w, ss[0], n, st);
      if r.o.Normal? {
        SameEndAll(w, ss[1..], n, m, r.st);
      }
    }
  }

  lemma {:induction false} SameEndArms(w: World, arms: seq<IfArm>, n: nat, m: nat, st: State)
    requires n <= m && !(ExecArms(w, arms, n, st).Took? && ExecArms(w, arms, n, st).r.o.Timeout?)
    ensures ExecArms(w, arms, m, st) == ExecArms(w, arms, n, st)
    decreases n, arms, 0
  {
    if arms != [] {
      match Eval(w, arms[0].cond, st)
      case Escaped(_) =>
      case Val(v, st1) =>
        if v != 0 {
          SameEndAll(w, arms[0].body, n, m, st1);
        } else {
          SameEndArms(w, arms[1..], n, m, st1);
        }
    }
  }

  lemma {:induction false} SameEndFor(w: World, x: string, last: I64, step: I64, body: seq<Stmt>, n: nat, m: nat, st: State)
    requires n <= m && !ExecFor(w, x, last, step, body, n, st).o.Timeout?
    ensures ExecFor(w, x, last, step, body, m, st) == ExecFor(w, x, last, step, body, n, st)
    decreases n, body, 1
  {
    hide Wrap, ForRuns, StepFits, WriteCell, ReadCell;
    var l := Loc(w.env(x), 0);
    if ForRuns(ReadCell(st, l), last, step) {
      SameEndAll(w, body, n, m, st);
      var r := ExecAll(w, body, n, st);
      if r.o.Normal? && StepFits(ReadCell(r.st, l), last, step) {
        SameEndFor(w, x, last, step, body, n - 1, m - 1, WriteCell(r.st, l, Wrap(ReadCell(r.st, l) + step)));
      }
    }
  }

  /** How a statement ends does not depend on how many rounds are allowed. */
  lemma {:induction false} SameEnd(w: World, s: Stmt, n: nat, m: nat, st: State)
    requires n <= m && !Exec(w, s, n, st).o.Timeout?
    ensures Exec(w, s, m, st) == Exec(w, s, n, st)
    decreases n, s, 0
  {
    match s
    case If(arms, els) =>
      SameEndArms(w, arms, n, m, st);
      var r := ExecArms(w, arms, n, st);
      if r.Fell? && els.ElseDo? {
        SameEndAll(w, els.ss, n, m, r.st);
      }
    case While(e, body) =>
      if Eval(w, e, st).Val? && Eval(w, e, st).v != 0 {
        SameEndBody(w, s, body, n, m, Eval(w, e, st).st);
      }
    case Repeat(body, e) =>
      SameEndAll(w, body, n, m, st);
      var r := ExecAll(w, body, n, st);
      if r.o.Normal? && Eval(w, e, r.st).Val? && Eval(w, e, r.st).v == 0 {
        SameEnd(w, s, n - 1, m - 1, Eval(w, e, r.st).st);
      }
    case Loop(body) => SameEndBody(w, s, body, n, m, st);
    case For(x, from, to, step, body) => SameEndForStatement(w, s, n, m, st);
    case Case(e, cardinal, arms, els) =>
      if Eval(w, e, st).Val? {
        var (v, st1) := (Eval(w, e, st).v, Eval(w, e, st).st);
        var picked := Pick(arms, Reading(cardinal, v));
        if picked.Some? {
          SameEndAll(w, arms[picked.value].body, n, m, st1);
        } else if els.ElseDo? {
          SameEndAll(w, els.ss, n, m, st1);
        }
      }
    case _ =>
  }

  lemma {:induction false} SameEndBody(w: World, s: Stmt, body: seq<Stmt>, n: nat, m: nat, st: State)
    requires ((s.While? && s.body == body) || (s.Loop? && s.body == body)) && 1 <= n <= m && !ExecAll(w, body, n, st).o.Timeout?
    requires ExecAll(w, body, n, st).o.Normal? ==> !Exec(w, s, n - 1, ExecAll(w, body, n, st).st).o.Timeout?
    ensures ExecAll(w, body, m, st) == ExecAll(w, body, n, st)
    ensures ExecAll(w, body, n, st).o.Normal? ==>
              Exec(w, s, m - 1, ExecAll(w, body, n, st).st) == Exec(w, s, n - 1, ExecAll(w, body, n, st).st)
    decreases n, body, 1
  {
    SameEndAll(w, body, n, m, st);
    var r := ExecAll(w, body, n, st);
    if r.o.Normal? {
      SameEnd(w, s, n - 1, m - 1, r.st);
    }
  }

  lemma {:induction false} SameEndForStatement(w: World, s: Stmt, n: nat, m: nat, st: State)
    requires s.For? && n <= m && !Exec(w, s, n, st).o.Timeout?
    ensures Exec(w, s, m, st) == Exec(w, s, n, st)
    decreases n, s.body, 2
  {
    match Eval(w, s.from, st)
    case Escaped(_) =>
    case Val(a, st1) =>
      match Eval(w, s.to, WriteCell(st1, Loc(w.env(s.x), 0), a))
      case Escaped(_) =>
      case Val(last, st2) =>
        match EvalOr(w, s.step, 1, st2)
        case Escaped(_) =>
        case Val(stride, st3) => SameEndFor(w, s.x, last, stride, s.body, n, m, st3);
  }

  // ---- The values a FOR loop is meant to visit --------------------------------------------

  predicate InRange(cur: int, last: int, step: int) {
    if step >= 0 then cur <= last else cur >= last
  }

  /** How many terms of start, start + step, ... lie in range. */
  function Count(start: int, last: int, step: int): nat
    requires step != 0
  {
    if !InRange(start, last, step) then 0
    else if step > 0 then (last - start) / step + 1
    else (start - last) / (-step) + 1
  }

  function Progression(start: int, last: int, step: int): (s: seq<int>)
    requires step != 0
    ensures |s| == Count(start, last, step)
  {
    seq(Count(start, last, step), i requires 0 <= i < Count(start, last, step) => Term(start, step, i))
  }

  lemma Quotient(d: int, m: int, q: int)
    requires m > 0 && m * q <= d < m * q + m
    ensures d / m == q
  {
    var e := d / m;
    assert d == m * e + d % m;
    if e > q {
      Scaled(m, q + 1, e);
    } else if e < q {
      Scaled(m, e + 1, q);
    }
  }

  lemma Scaled(m: int, i: int, j: int)
    requires m > 0 && i <= j
    ensures m * i <= m * j
    ensures m * (i + 1) == m * i + m
  {
    assert m * j - m * i == m * (j - i);
  }

  lemma Multiples(d: int, m: int, i: nat)
    requires m > 0
    ensures m * i <= d <==> i <= d / m
  {
    assert d == m * (d / m) + d % m;
    if i <= d / m {
      Scaled(m, i, d / m);
    } else {
      Scaled(m, d / m, i);
      Scaled(m, d / m + 1, i);
    }
  }

  /** The progression is everything in range and nothing else. */
  lemma ProgressionIsExact(start: int, last: int, step: int, i: nat)
    requires step != 0
    ensures InRange(Term(start, step, i), last, step) <==> i < |Progression(start, last, step)|
  {
    var m := if step > 0 then step else -step;
    var d := if step > 0 then last - start else start - last;
    assert i * step == if step > 0 then m * i else -(m * i);
    if d >= 0 {
      Multiples(d, m, i);
    } else {
      assert m * i >= 0;
    }
  }

  lemma CountTail(start: int, last: int, step: int)
    requires step != 0 && InRange(start, last, step)
    ensures Count(start, last, step) == 1 + Count(start + step, last, step)
  {
    DivStep(if step > 0 then last - start else start - last, if step > 0 then step else -step);
  }

  lemma DivStep(d: nat, m: nat)
    requires m > 0
    ensures d / m == if d < m then 0 else (d - m) / m + 1
  {
    if d < m {
      Quotient(d, m, 0);
    } else {
      var q := (d - m) / m;
      assert d - m == m * q + (d - m) % m;
      assert m * (q + 1) == m * q + m;
      Quotient(d, m, q + 1);
    }
  }

  function Term(start: int, step: int, i: nat): int {
    start + i * step
  }

  lemma Shift(start: int, step: int, i: nat)
    ensures Term(start + step, step, i) == Term(start, step, i + 1) && Term(start, step, 0) == start
  {
  }

  lemma ProgressionTail(start: int, last: int, step: int)
    requires step != 0 && InRange(start, last, step)
    ensures Progression(start, last, step) == [start] + Progression(start + step, last, step)
  {
    hide Term, Count;
    var (p, q) := (Progression(start, last, step), Progression(start + step, last, step));
    CountTail(start, last, step);
    Shift(start, step, 0);
    forall i | 0 <= i < |q|
      ensures q[i] == p[i + 1]
    {
      Shift(start, step, i);
    }
  }

  // ---- The 64-bit room test -------------------------------------------------------------------

  /** The room test says whether the next term is in range exactly when the
      distance it computes does not overflow. (A step of MIN64 has no negative in 64
      bits: then the test always says yes.) */
  lemma RoomTestIsExact(cur: I64, last: I64, step: I64)
    requires ForRuns(cur, last, step)
    ensures (StepFits(cur, last, step) <==> InRange(cur + step, last, step)) <==>
            if step == MIN64 then cur - last > MAX64
            else if step >= 0 then last - cur <= MAX64
            else cur - last <= MAX64
  {
  }

  // ---- The loop runs over the progression ------------------------------------------------------

  /** A body that comes back has left the control variable as it was. */
  ghost predicate Spares(w: World, body: seq<Stmt>, l: Loc) {
    forall fuel: nat, st: State :: ExecAll(w, body, fuel, st).o.Normal? ==> ReadCell(ExecAll(w, body, fuel, st).st, l) == ReadCell(st, l)
  }

  /** Runs the body once for each of `vals`, the cell `l` holding the value in
      question; the cell already holds the first one. */
  function RunOver(w: World, l: Loc, vals: seq<int>, body: seq<Stmt>, fuel: nat, st: State): Res
    requires |vals| < fuel
    decreases |vals|
  {
    if vals == [] then Res(Normal, st)
    else
      var r := ExecAll(w, body, fuel, st);
      if r.o.Exited? then Res(Normal, r.st)
      else if !r.o.Normal? || |vals| == 1 then r
      else RunOver(w, l, vals[1..], body, fuel - 1, WriteCell(r.st, l, Wrap(vals[1])))
  }

  /** The distance from start to last fits 64 bits, and the step has a size. */
  predicate Fits(start: I64, last: I64, step: I64) {
    step != 0 && step != MIN64 && -MAX64 <= last - start <= MAX64
  }

  lemma StepIsExact(cur: I64, last: I64, step: I64)
    requires Fits(cur, last, step) && InRange(cur, last, step)
    ensures ForRuns(cur, last, step)
    ensures StepFits(cur, last, step) <==> InRange(cur + step, last, step)
    ensures InRange(cur + step, last, step) ==> Wrap(cur + step) == cur + step && Fits(Wrap(cur + step), last, step)
  {
    RoomTestIsExact(cur, last, step);
  }

  lemma NextTerms(cur: int, last: int, step: int)
    requires step != 0 && InRange(cur, last, step)
    ensures Progression(cur, last, step) == [cur] + Progression(cur + step, last, step)
    ensures if InRange(cur + step, last, step) then Progression(cur + step, last, step) != [] && Progression(cur + step, last, step)[0] == cur + step
            else Progression(cur + step, last, step) == []
  {
    ProgressionTail(cur, last, step);
    if InRange(cur + step, last, step) {
      ProgressionTail(cur + step, last, step);
    }
  }

  /** With room to compute in, the loop is the progression: the body runs for
      start, start + step, ... while in range, no stored value is ever wrapped, and the
      rounds of the loop itself are bounded by the number of values. */
  lemma {:induction false} ForIsProgression(w: World, x: string, last: I64, step: I64, body: seq<Stmt>, fuel: nat, st: State)
    requires Fits(ReadCell(st, Loc(w.env(x), 0)), last, step) && Spares(w, body, Loc(w.env(x), 0))
    requires |Progression(ReadCell(st, Loc(w.env(x), 0)), last, step)| < fuel
    ensures var l := Loc(w.env(x), 0);
            ExecFor(w, x, last, step, body, fuel, st) == RunOver(w, l, Progression(ReadCell(st, l), last, step), body, fuel, st)
    decreases fuel
  {
    hide ExecAll, StepFits, Progression, Wrap, InRange;
    var l := Loc(w.env(x), 0);
    var cur := ReadCell(st, l);
    var vals := Progression(cur, last, step);
    if ForRuns(cur, last, step) {
      assert InRange(cur, last, step) by { StartAgrees(cur, last, step); }
      NextTerms(cur, last, step);
      StepIsExact(cur, last, step);
      var r := ExecAll(w, body, fuel, st);
      if r.o.Normal? {
        assert ReadCell(r.st, l) == cur;
        if InRange(cur + step, last, step) {
          assert vals[1..] == Progression(cur + step, last, step);
          ForIsProgression(w, x, last, step, body, fuel - 1, WriteCell(r.st, l, Wrap(cur + step)));
        }
      }
    } else {
      StartAgrees(cur, last, step);
    }
  }

  lemma StartAgrees(cur: I64, last: I64, step: I64)
    requires step != 0
    ensures ForRuns(cur, last, step) <==> InRange(cur, last, step)
    ensures !InRange(cur, last, step) ==> Progression(cur, last, step) == []
  {
  }

  /** No EXIT leaves the body. */
  ghost predicate NoExit(w: World, body: seq<Stmt>) {
    forall fuel: nat, st: State :: !ExecAll(w, body, fuel, st).o.Exited?
  }

  /** The control variable ends on the last value the body ran for. */
  lemma {:induction false} LastValueStays(w: World, l: Loc, vals: seq<int>, body: seq<Stmt>, fuel: nat, st: State)
    requires vals != [] && |vals| < fuel && Spares(w, body, l) && NoExit(w, body) && vals[0] == ReadCell(st, l)
    requires forall i :: 0 <= i < |vals| ==> IsInt64(vals[i])
    ensures var r := RunOver(w, l, vals, body, fuel, st); r.o.Normal? ==> ReadCell(r.st, l) == vals[|vals| - 1]
    decreases |vals|
  {
    hide ExecAll;
    var r := ExecAll(w, body, fuel, st);
    if r.o.Normal? && |vals| > 1 {
      LastValueStays(w, l, vals[1..], body, fuel - 1, WriteCell(r.st, l, Wrap(vals[1])));
    }
  }

  lemma ProgressionIn64(start: I64, last: I64, step: I64)
    requires step != 0
    ensures forall i :: 0 <= i < |Progression(start, last, step)| ==> IsInt64(Progression(start, last, step)[i])
  {
    var p := Progression(start, last, step);
    forall i | 0 <= i < |p|
      ensures IsInt64(p[i])
    {
      ProgressionIsExact(start, last, step, i);
      Shift(start, step, i);
      assert if step > 0 then i * step >= 0 else i * step <= 0;
    }
  }

  // ---- Exactly when the loop is right -----------------------------------------------------------

  /** The value the control variable must have after the loop. */
  function Final(start: I64, last: I64, step: I64): int
    requires step != 0
  {
    var p := Progression(start, last, step);
    if p == [] then start else p[|p| - 1]
  }

  ghost predicate EndsRight(w: World, x: string, last: I64, step: I64, body: seq<Stmt>, fuel: nat, st: State)
    requires step != 0
  {
    var l := Loc(w.env(x), 0);
    var r := ExecFor(w, x, last, step, body, fuel, st);
    r.o.Normal? && ReadCell(r.st, l) == Final(ReadCell(st, l), last, step)
  }

  /** Run over these values, the body comes to its end every time. */
  ghost predicate Completes(w: World, l: Loc, vals: seq<int>, body: seq<Stmt>, st: State)
    decreases |vals|
  {
    vals == [] || exists fuel: nat ::
      && ExecAll(w, body, fuel, st).o.Normal?
      && (|vals| > 1 ==> Completes(w, l, vals[1..], body, WriteCell(ExecAll(w, body, fuel, st).st, l, Wrap(vals[1]))))
  }

  /** The loop comes to an end with its variable on the last value in range if and
      only if it has nothing to run, or has room to compute in: for every body that spares
      the variable, does not EXIT and comes to its end for every value in range. */
  lemma ForIsRightIff(w: World, x: string, last: I64, step: I64, body: seq<Stmt>, st: State)
    requires step != 0 && Spares(w, body, Loc(w.env(x), 0)) && NoExit(w, body)
    requires Completes(w, Loc(w.env(x), 0), Progression(ReadCell(st, Loc(w.env(x), 0)), last, step), body, st)
    ensures var start := ReadCell(st, Loc(w.env(x), 0));
            (exists fuel: nat :: EndsRight(w, x, last, step, body, fuel, st)) <==> !InRange(start, last, step) || Fits(start, last, step)
  {
    hide ExecFor, ExecAll, Progression, Fits, InRange, RunOver, Spares, NoExit, Completes;
    var l := Loc(w.env(x), 0);
    var start := ReadCell(st, l);
    if !InRange(start, last, step) {
      NothingToRun(w, x, last, step, body, st);
    } else if Fits(start, last, step) {
      var p := Progression(start, last, step);
      var fuel := RunsToTheEnd(w, l, p, body, st);
      ForIsProgression(w, x, last, step, body, fuel, st);
      NextTerms(start, last, step);
      ProgressionIn64(start, last, step);
      LastValueStays(w, l, p, body, fuel, st);
      assert EndsRight(w, x, last, step, body, fuel, st);
    } else {
      forall fuel: nat
        ensures !EndsRight(w, x, last, step, body, fuel, st)
      {
        if step == MIN64 {
          MinNeverRight(w, x, last, body, fuel, st);
        } else {
          WideStops(w, x, last, step, body, fuel, st);
        }
      }
    }
  }

  /** Rounds enough for every value. */
  lemma {:induction false} RunsToTheEnd(w: World, l: Loc, vals: seq<int>, body: seq<Stmt>, st: State) returns (fuel: nat)
    requires Completes(w, l, vals, body, st)
    ensures |vals| < fuel && RunOver(w, l, vals, body, fuel, st).o.Normal?
    ensures forall n: nat :: fuel <= n ==> RunOver(w, l, vals, body, n, st) == RunOver(w, l, vals, body, fuel, st)
    decreases |vals|
  {
    hide ExecAll;
    if vals == [] {
      fuel := 1;
    } else {
      var one: nat :| ExecAll(w, body, one, st).o.Normal?
        && (|vals| > 1 ==> Completes(w, l, vals[1..], body, WriteCell(ExecAll(w, body, one, st).st, l, Wrap(vals[1]))));
      var more: nat := 0;
      if |vals| > 1 {
        more := RunsToTheEnd(w, l, vals[1..], body, WriteCell(ExecAll(w, body, one, st).st, l, Wrap(vals[1])));
      }
      fuel := one + more + 2;
      forall n: nat | fuel <= n
        ensures ExecAll(w, body, n, st) == ExecAll(w, body, one, st)
      {
        SameEndAll(w, body, one, n, st);
      }
    }
  }

  lemma NothingToRun(w: World, x: string, last: I64, step: I64, body: seq<Stmt>, st: State)
    requires step != 0 && !InRange(ReadCell(st, Loc(w.env(x), 0)), last, step)
    ensures EndsRight(w, x, last, step, body, 1, st)
  {
    hide ExecAll;
    StartAgrees(ReadCell(st, Loc(w.env(x), 0)), last, step);
  }

  /** Too wide a range: the room overflows, and the loop stops after one round. */
  lemma WideStops(w: World, x: string, last: I64, step: I64, body: seq<Stmt>, fuel: nat, st: State)
    requires Spares(w, body, Loc(w.env(x), 0)) && NoExit(w, body)
    requires var start := ReadCell(st, Loc(w.env(x), 0));
             step != 0 && step != MIN64 && InRange(start, last, step) && !Fits(start, last, step)
    ensures !EndsRight(w, x, last, step, body, fuel, st)
    ensures fuel > 0 ==> ExecFor(w, x, last, step, body, fuel, st) == ExecAll(w, body, fuel, st)
  {
    hide Progression, ExecAll;
    var start := ReadCell(st, Loc(w.env(x), 0));
    RoomTestIsExact(start, last, step);
    assert InRange(start + step, last, step);
    NextTerms(start, last, step);
    LastMoves(start, last, step);
    if fuel > 0 {
      assert !ExecAll(w, body, fuel, st).o.Exited?;
      assert ExecAll(w, body, fuel, st).o.Normal? ==> ReadCell(ExecAll(w, body, fuel, st).st, Loc(w.env(x), 0)) == start;
    }
  }

  lemma LastMoves(start: I64, last: I64, step: I64)
    requires step != 0 && InRange(start, last, step) && InRange(start + step, last, step)
    ensures Final(start, last, step) != start
  {
    var p := Progression(start, last, step);
    NextTerms(start, last, step);
    var n := |p| - 1;
    assert p[n] == Term(start, step, n);
    assert n * step != 0;
  }

  /** A step of MIN64 never finds the room too small, and from the second value on
      the variable just goes back and forth. */
  lemma MinNeverRight(w: World, x: string, last: I64, body: seq<Stmt>, fuel: nat, st: State)
    requires Spares(w, body, Loc(w.env(x), 0)) && NoExit(w, body)
    requires InRange(ReadCell(st, Loc(w.env(x), 0)), last, MIN64)
    ensures !EndsRight(w, x, last, MIN64, body, fuel, st)
  {
    hide Progression, ExecAll;
    var l := Loc(w.env(x), 0);
    var start := ReadCell(st, l);
    var next := Wrap(start + MIN64);
    if ForRuns(next, last, MIN64) {
      MinCycles(w, x, last, body, fuel, st);
    } else {
      NextTerms(start, last, MIN64);
      assert !InRange(start + MIN64, last, MIN64);
      assert Final(start, last, MIN64) == start;
      if fuel > 0 {
        var r := ExecAll(w, body, fuel, st);
        assert !r.o.Exited?;
        if r.o.Normal? {
          assert ReadCell(r.st, l) == start;
          MinOnce(w, x, last, body, fuel - 1, WriteCell(r.st, l, next));
        }
      }
    }
  }

  lemma MinOnce(w: World, x: string, last: I64, body: seq<Stmt>, fuel: nat, st: State)
    requires !ForRuns(ReadCell(st, Loc(w.env(x), 0)), last, MIN64)
    ensures var r := ExecFor(w, x, last, MIN64, body, fuel, st); r.o.Normal? ==> r.st == st
  {
    hide ExecAll;
  }

  lemma {:induction false} MinCycles(w: World, x: string, last: I64, body: seq<Stmt>, fuel: nat, st: State)
    requires Spares(w, body, Loc(w.env(x), 0)) && NoExit(w, body)
    requires var a := ReadCell(st, Loc(w.env(x), 0)); ForRuns(a, last, MIN64) && ForRuns(Wrap(a + MIN64), last, MIN64)
    ensures !ExecFor(w, x, last, MIN64, body, fuel, st).o.Normal?
    decreases fuel
  {
    hide ExecAll;
    if fuel > 0 {
      var l := Loc(w.env(x), 0);
      var a := ReadCell(st, l);
      var r := ExecAll(w, body, fuel, st);
      assert !r.o.Exited?;
      if r.o.Normal? {
        assert ReadCell(r.st, l) == a;
        MinCycles(w, x, last, body, fuel - 1, WriteCell(r.st, l, Wrap(a + MIN64)));
      }
    }
  }

  // ---- The whole statement ----------------------------------------------------------------------

  datatype Begun = Begun(last: I64, step: I64, st: State)

  /** Start stored, end and step evaluated; None when evaluating ends the run. */
  function Begin(w: World, s: Stmt, st: State): Option<Begun>
    requires s.For?
  {
    match Eval(w, s.from, st)
    case Escaped(_) => None
    case Val(a, st1) =>
      match Eval(w, s.to, WriteCell(st1, Loc(w.env(s.x), 0), a))
      case Escaped(_) => None
      case Val(last, st2) =>
        match EvalOr(w, s.step, 1, st2)
        case Escaped(_) => None
        case Val(step, st3) => Some(Begun(last, step, st3))
  }

  ghost predicate StatementEndsRight(w: World, s: Stmt, fuel: nat, st: State)
    requires s.For? && Begin(w, s, st).Some? && Begin(w, s, st).value.step != 0
  {
    var (b, l) := (Begin(w, s, st).value, Loc(w.env(s.x), 0));
    var r := Exec(w, s, fuel, st);
    r.o.Normal? && ReadCell(r.st, l) == Final(ReadCell(b.st, l), b.last, b.step)
  }

  /** The same of the statement: from the value the variable has when the loop starts. */
  lemma ForStatementIsRightIff(w: World, s: Stmt, st: State)
    requires s.For? && Begin(w, s, st).Some? && Begin(w, s, st).value.step != 0
    requires Spares(w, s.body, Loc(w.env(s.x), 0)) && NoExit(w, s.body)
    requires var (b, l) := (Begin(w, s, st).value, Loc(w.env(s.x), 0));
             Completes(w, l, Progression(ReadCell(b.st, l), b.last, b.step), s.body, b.st)
    ensures var (b, start) := (Begin(w, s, st).value, ReadCell(Begin(w, s, st).value.st, Loc(w.env(s.x), 0)));
            (exists fuel: nat :: StatementEndsRight(w, s, fuel, st)) <==> !InRange(start, b.last, b.step) || Fits(start, b.last, b.step)
  {
    hide ExecFor, ExecAll, Progression, Fits, InRange, Spares, NoExit, Completes, Final;
    var b := Begin(w, s, st).value;
    ForIsRightIff(w, s.x, b.last, b.step, s.body, b.st);
    forall fuel: nat
      ensures StatementEndsRight(w, s, fuel, st) == EndsRight(w, s.x, b.last, b.step, s.body, fuel, b.st)
    {
      StatementIsLoop(w, s, fuel, st);
    }
  }

  lemma StatementIsLoop(w: World, s: Stmt, fuel: nat, st: State)
    requires s.For? && Begin(w, s, st).Some?
    ensures var b := Begin(w, s, st).value; Exec(w, s, fuel, st) == ExecFor(w, s.x, b.last, b.step, s.body, fuel, b.st)
  {
    hide ExecFor;
  }

  // ---- CARDINAL variables -----------------------------------------------------------------------

  /** Both are below 2^63, or both are not, read as unsigned. */
  predicate SameHalf(a: I64, b: I64) { (a < 0) == (b < 0) }

  /** The loop runs its body for the unsigned numbers from start to last, whatever it is. */
  ghost predicate RunsCardinals(w: World, x: string, last: I64, step: I64, st: State)
    requires step != 0
  {
    var l := Loc(w.env(x), 0);
    var vals := Progression(Unsigned(ReadCell(st, l)), Unsigned(last), step);
    forall body: seq<Stmt>, fuel: nat :: Spares(w, body, l) && |vals| < fuel ==>
      ExecFor(w, x, last, step, body, fuel, st) == RunOver(w, l, vals, body, fuel, st)
  }

  /** Values that are kept as the same bits are run over alike. */
  lemma {:induction false} RunOverBits(w: World, l: Loc, a: seq<int>, b: seq<int>, body: seq<Stmt>, fuel: nat, st: State)
    requires |a| == |b| < fuel && forall i :: 0 <= i < |a| ==> Wrap(a[i]) == Wrap(b[i])
    ensures RunOver(w, l, a, body, fuel, st) == RunOver(w, l, b, body, fuel, st)
    decreases |a|
  {
    hide ExecAll, Wrap;
    if |a| > 1 {
      var r := ExecAll(w, body, fuel, st);
      assert Wrap(a[1]) == Wrap(b[1]);
      RunOverBits(w, l, a[1..], b[1..], body, fuel - 1, WriteCell(r.st, l, Wrap(a[1])));
    }
  }

  lemma UnsignedTerms(start: I64, last: I64, step: I64)
    requires step != 0 && SameHalf(start, last)
    ensures var (p, q) := (Progression(start, last, step), Progression(Unsigned(start), Unsigned(last), step));
            |p| == |q| && forall i :: 0 <= i < |p| ==> Wrap(p[i]) == Wrap(q[i])
  {
    hide Wrap, Count;
    var (p, q) := (Progression(start, last, step), Progression(Unsigned(start), Unsigned(last), step));
    var t := Unsigned(start) - start;
    assert (t == 0 || t == TWO64) && Unsigned(last) == last + t by { Halves(start, last); }
    assert |p| == |q| by { SameCount(start, last, step, t); }
    forall i | 0 <= i < |p|
      ensures Wrap(p[i]) == Wrap(q[i])
    {
      assert q[i] == p[i] + t;
      WrapTurn(p[i]);
    }
  }

  lemma Halves(a: I64, b: I64)
    requires SameHalf(a, b)
    ensures Unsigned(a) - a == Unsigned(b) - b && (Unsigned(a) == a || Unsigned(a) == a + TWO64)
  {
  }

  lemma SameCount(start: int, last: int, step: int, t: int)
    requires step != 0
    ensures Count(start, last, step) == Count(start + t, last + t, step)
  {
  }

  lemma WrapTurn(n: int)
    ensures Wrap(n + TWO64) == Wrap(n)
  {
    assert (n + TWO64) % TWO64 == n % TWO64;
  }

  /** A body that ends the run in its first round. */
  lemma HaltingBody(w: World, fuel: nat, st: State)
    requires fuel > 0
    ensures ExecAll(w, [Halt(None)], fuel, st).o.Ended?
  {
    assert Exec(w, Halt(None), fuel, st).o.Ended?;
  }

  lemma HaltingSpares(w: World, l: Loc)
    ensures Spares(w, [Halt(None)], l)
  {
    forall fuel: nat, st: State
      ensures !ExecAll(w, [Halt(None)], fuel, st).o.Normal?
    {
      assert Exec(w, Halt(None), fuel, st).o.Ended?;
    }
  }

  /** A FOR over a CARDINAL runs its body, whatever that is, for the numbers it is meant
      to run for if and only if start and end are both below 2^63, or both are not. */
  lemma CardinalForIsRightIff(w: World, x: string, last: I64, step: I64, st: State)
    requires step != 0 && step != MIN64
    ensures RunsCardinals(w, x, last, step, st) <==> SameHalf(ReadCell(st, Loc(w.env(x), 0)), last)
  {
    hide ExecFor, ExecAll, RunOver, Progression, Spares, Wrap, Unsigned;
    var l := Loc(w.env(x), 0);
    var start := ReadCell(st, l);
    var vals := Progression(Unsigned(start), Unsigned(last), step);
    if SameHalf(start, last) {
      UnsignedTerms(start, last, step);
      forall body: seq<Stmt>, fuel: nat | Spares(w, body, l) && |vals| < fuel
        ensures ExecFor(w, x, last, step, body, fuel, st) == RunOver(w, l, vals, body, fuel, st)
      {
        ForIsProgression(w, x, last, step, body, fuel, st);
        RunOverBits(w, l, Progression(start, last, step), vals, body, fuel, st);
      }
    } else {
      var fuel := |vals| + 1;
      HaltingSpares(w, l);
      HalvesDiffer(w, x, last, step, fuel, st);
      assert ExecFor(w, x, last, step, [Halt(None)], fuel, st) != RunOver(w, l, vals, [Halt(None)], fuel, st);
    }
  }

  /** In one of the two the body runs, in the other it does not. */
  lemma HalvesDiffer(w: World, x: string, last: I64, step: I64, fuel: nat, st: State)
    requires step != 0 && !SameHalf(ReadCell(st, Loc(w.env(x), 0)), last)
    requires |Progression(Unsigned(ReadCell(st, Loc(w.env(x), 0))), Unsigned(last), step)| < fuel
    ensures var l := Loc(w.env(x), 0);
            var vals := Progression(Unsigned(ReadCell(st, l)), Unsigned(last), step);
            ExecFor(w, x, last, step, [Halt(None)], fuel, st).o != RunOver(w, l, vals, [Halt(None)], fuel, st).o
  {
    hide ExecAll;
    HaltingBody(w, fuel, st);
    var start := ReadCell(st, Loc(w.env(x), 0));
    UnsignedOrder(start, last, step);
  }

  lemma UnsignedOrder(start: I64, last: I64, step: I64)
    requires step != 0 && !SameHalf(start, last)
    ensures ForRuns(start, last, step) <==> Progression(Unsigned(start), Unsigned(last), step) == []
  {
    assert InRange(Unsigned(start), Unsigned(last), step) <==> !InRange(start, last, step);
  }

  /** FOR c := 0 TO MAX(CARDINAL) runs no round. */
  lemma WholeRangeRunsNothing(w: World, x: string, body: seq<Stmt>, fuel: nat, st: State)
    requires ReadCell(st, Loc(w.env(x), 0)) == 0 && fuel > 0
    ensures Unsigned(-1) == TWO64 - 1 && |Progression(0, Unsigned(-1), 1)| == TWO64
    ensures ExecFor(w, x, -1, 1, body, fuel, st) == Res(Normal, st)
  {
  }
}
