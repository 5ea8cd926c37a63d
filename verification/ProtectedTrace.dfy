/** The protocol of a protected procedure, read off the calls it makes: the
    exception frame is freed once and only at the end, the FINALLY part runs once. */
module ProtectedTrace {
  import opened Arith
  import opened Ir
  import opened Machine
  import opened Source
  import opened ProtectedSpec

  // ---- Which procedures statements call -----------------------------------------------------

  predicate CallsInD(d: Designator, f: string)
    decreases d
  {
    d.Elem? && exists k :: 0 <= k < |d.ixs| && CallsIn(d.ixs[k], f)
  }

  predicate CallsIn(e: Expr, f: string)
    decreases e
  {
    match e
    case IntLit(_) => false
    case BoolLit(_) => false
    case Des(d) => CallsInD(d, f)
    case Arith(_, l, r) => CallsIn(l, f) || CallsIn(r, f)
    case AndThen(l, r) => CallsIn(l, f) || CallsIn(r, f)
    case OrElse(l, r) => CallsIn(l, f) || CallsIn(r, f)
    case NotE(a) => CallsIn(a, f)
    case NegE(a) => CallsIn(a, f)
    case CallE(g, args) => g == f || exists k :: 0 <= k < |args| && CallsInA(args[k], f)
  }

  predicate CallsInA(a: Arg, f: string)
    decreases a
  {
    match a
    case ByValue(e) => CallsIn(e, f)
    case ByAddress(d) => CallsInD(d, f)
  }

  predicate Calls(s: Stmt, f: string)
    decreases s
  {
    match s
    case Empty => false
    case Assign(d, e) => CallsInD(d, f) || CallsIn(e, f)
    case CallS(g, args) => CallsIn(CallE(g, args), f)
    case IncDec(d, amount, _) => CallsInD(d, f) || (amount.Some? && CallsIn(amount.value, f))
    case Assert(e) => CallsIn(e, f)
    case Halt(code) => code.Some? && CallsIn(code.value, f)
    case If(arms, els) =>
      || (exists k :: 0 <= k < |arms| && (CallsIn(arms[k].cond, f) || CallsAny(arms[k].body, f)))
      || (els.ElseDo? && CallsAny(els.ss, f))
    case While(e, body) => CallsIn(e, f) || CallsAny(body, f)
    case Repeat(body, e) => CallsIn(e, f) || CallsAny(body, f)
    case For(_, from, to, step, body) => CallsIn(from, f) || CallsIn(to, f) || (step.Some? && CallsIn(step.value, f)) || CallsAny(body, f)
    case Loop(body) => CallsAny(body, f)
    case Exit => false
    case Return(v) => v.Some? && CallsIn(v.value, f)
    case Retry => false
    case Case(e, _, arms, els) =>
      || CallsIn(e, f) || (exists k :: 0 <= k < |arms| && CallsAny(arms[k].body, f))
      || (els.ElseDo? && CallsAny(els.ss, f))
  }

  predicate CallsAny(ss: seq<Stmt>, f: string)
    decreases ss
  {
    exists k :: 0 <= k < |ss| && Calls(ss[k], f)
  }

  /** How often `f` has been called. */
  function Times(f: string, trace: seq<Event>): nat {
    if trace == [] then 0 else Times(f, trace[..|trace| - 1]) + (if trace[|trace| - 1].callee == f then 1 else 0)
  }

  lemma TimesMore(f: string, trace: seq<Event>, e: Event)
    ensures Times(f, trace + [e]) == Times(f, trace) + (if e.callee == f then 1 else 0)
  {
    assert (trace + [e])[..|trace|] == trace;
  }

  /** A name the runtime does not call on its own in the course of statements. */
  predicate Foreign(f: string) {
    f != RAISE_M2 && f != HALT && f != ASSERT_FAILED && f != HANDLED
  }

  /** The last call was one, and not of `f`. */
  predicate EndsOther(st: State, f: string) {
    st.trace != [] && st.trace[|st.trace| - 1].callee != f
  }

  // ---- Expressions -----------------------------------------------------------------------------

  lemma InvokeTimes(w: World, f: string, g: string, args: seq<Value>, st: State)
    ensures Times(f, Invoke(w, g, args, st).st.trace) == Times(f, st.trace) + (if g == f then 1 else 0)
    ensures g != f ==> EndsOther(Invoke(w, g, args, st).st, f)
  {
    TimesMore(f, st.trace, Event(g, args));
  }

  lemma RaiseTimes(w: World, f: string, n: I64, st: State)
    requires Foreign(f)
    ensures Times(f, Raise(w, n, st).trace) == Times(f, st.trace)
    ensures EndsOther(Raise(w, n, st), f)
  {
    TimesMore(f, st.trace, Event(RAISE_M2, [Num(n)]));
  }

  lemma {:induction false} EvalTimes(w: World, f: string, e: Expr, st: State)
    requires Foreign(f) && !CallsIn(e, f)
    ensures Times(f, Eval(w, e, st).st.trace) == Times(f, st.trace)
    ensures Eval(w, e, st).Escaped? ==> EndsOther(Eval(w, e, st).st, f)
    decreases e
  {
    match e
    case IntLit(_) =>
    case BoolLit(_) =>
    case Des(d) => LocateTimes(w, f, d, st);
    case Arith(op, l, r) =>
      EvalTimes(w, f, l, st);
      match Eval(w, l, st) {
        case Escaped(_) =>
        case Val(a, st1) =>
          EvalTimes(w, f, r, st1);
          RaiseTimes(w, f, DIV_EXCEPTION, Eval(w, r, st1).st);
      }
    case AndThen(l, r) =>
      EvalTimes(w, f, l, st);
      if Eval(w, l, st).Val? { EvalTimes(w, f, r, Eval(w, l, st).st); }
    case OrElse(l, r) =>
      EvalTimes(w, f, l, st);
      if Eval(w, l, st).Val? { EvalTimes(w, f, r, Eval(w, l, st).st); }
    case NotE(a) => EvalTimes(w, f, a, st);
    case NegE(a) => EvalTimes(w, f, a, st);
    case CallE(g, args) =>
      ArgsTimes(w, f, args, st);
      match EvalArgs(w, args, st) {
        case Escaped(_) =>
        case Val(vs, st1) => InvokeTimes(w, f, g, vs, st1);
      }
  }

  lemma {:induction false} ArgsTimes(w: World, f: string, args: seq<Arg>, st: State)
    requires Foreign(f) && forall k :: 0 <= k < |args| ==> !CallsInA(args[k], f)
    ensures Times(f, EvalArgs(w, args, st).st.trace) == Times(f, st.trace)
    ensures EvalArgs(w, args, st).Escaped? ==> EndsOther(EvalArgs(w, args, st).st, f)
    decreases args
  {
    if args != [] {
      ArgTimes(w, f, args[0], st);
      if EvalArg(w, args[0], st).Val? {
        ArgsTimes(w, f, args[1..], EvalArg(w, args[0], st).st);
      }
    }
  }

  lemma {:induction false} ArgTimes(w: World, f: string, a: Arg, st: State)
    requires Foreign(f) && !CallsInA(a, f)
    ensures Times(f, EvalArg(w, a, st).st.trace) == Times(f, st.trace)
    ensures EvalArg(w, a, st).Escaped? ==> EndsOther(EvalArg(w, a, st).st, f)
    decreases a
  {
    match a
    case ByValue(e) => EvalTimes(w, f, e, st);
    case ByAddress(d) => LocateTimes(w, f, d, st);
  }

  lemma {:induction false} LocateTimes(w: World, f: string, d: Designator, st: State)
    requires Foreign(f) && !CallsInD(d, f)
    ensures Times(f, Locate(w, d, st).st.trace) == Times(f, st.trace)
    ensures Locate(w, d, st).Escaped? ==> EndsOther(Locate(w, d, st).st, f)
    decreases d
  {
    if d.Elem? {
      RankTimes(w, f, d.dims, d.ixs, st);
    }
  }

  lemma {:induction false} RankTimes(w: World, f: string, dims: seq<Dim>, ixs: seq<Expr>, st: State)
    requires Foreign(f) && forall k :: 0 <= k < |ixs| ==> !CallsIn(ixs[k], f)
    ensures Times(f, Rank(w, dims, ixs, st).st.trace) == Times(f, st.trace)
    ensures Rank(w, dims, ixs, st).Escaped? ==> EndsOther(Rank(w, dims, ixs, st).st, f)
    decreases ixs
  {
    if ixs != [] && dims != [] {
      EvalTimes(w, f, ixs[0], st);
      match Eval(w, ixs[0], st)
      case Escaped(_) =>
      case Val(v, st1) =>
        RaiseTimes(w, f, INDEX_EXCEPTION, st1);
        RankTimes(w, f, dims[1..], ixs[1..], st1);
    }
  }

  lemma EvalOrTimes(w: World, f: string, e: Option<Expr>, d: I64, st: State)
    requires Foreign(f) && (e.Some? ==> !CallsIn(e.value, f))
    ensures Times(f, EvalOr(w, e, d, st).st.trace) == Times(f, st.trace)
    ensures EvalOr(w, e, d, st).Escaped? ==> EndsOther(EvalOr(w, e, d, st).st, f)
  {
    if e.Some? {
      EvalTimes(w, f, e.value, st);
    }
  }

  // ---- Statements ---------------------------------------------------------------------------------

  /** What running statements adds: nothing of `f`, but one FREE when they leave the
      function and there is a frame, as the very last call; a run that ends in a call
      that does not come back ends with a call of something else than `f`. */
  ghost predicate Adds(w: World, f: string, st: State, r: Res) {
    && Times(f, r.st.trace) == Times(f, st.trace) + (if f == FREE && r.o.Leaves? && w.frame.Some? then 1 else 0)
    && (r.o.Leaves? && w.frame.Some? ==> r.st.trace != [] && r.st.trace[|r.st.trace| - 1].callee == FREE)
    && (r.o.Ended? ==> EndsOther(r.st, f))
  }

  lemma AddsTrans(w: World, f: string, st: State, st1: State, r: Res)
    requires Times(f, st1.trace) == Times(f, st.trace) && Adds(w, f, st1, r)
    ensures Adds(w, f, st, r)
  {
  }

  lemma EventTimes(f: string, st: State, e: Event)
    ensures Times(f, st.(trace := st.trace + [e]).trace) == Times(f, st.trace) + (if e.callee == f then 1 else 0)
    ensures e.callee != f ==> EndsOther(st.(trace := st.trace + [e]), f)
  {
    TimesMore(f, st.trace, e);
  }

  lemma LeaveAdds(w: World, f: string, v: Option<I64>, st: State)
    ensures Adds(w, f, st, LeaveFunction(w, v, st))
  {
    if w.frame.Some? {
      EventTimes(f, st, Event(FREE, [w.frame.value]));
    }
  }

  lemma {:induction false} AllAdd(w: World, f: string, ss: seq<Stmt>, fuel: nat, st: State)
    requires Foreign(f) && !CallsAny(ss, f)
    ensures Adds(w, f, st, ExecAll(w, ss, fuel, st))
    decreases fuel, ss, 0
  {
    hide Adds, Times, Calls;
    if ss == [] {
      NothingAdded(w, f, st);
    } else {
      StatementAdds(w, f, ss[0], fuel, st);
      var r := Exec(w, ss[0], fuel, st);
      if r.o.Normal? {
        AllAdd(w, f, ss[1..], fuel, r.st);
        NormalAdds(w, f, st, r);
        AddsTrans(w, f, st, r.st, ExecAll(w, ss[1..], fuel, r.st));
      }
    }
  }

  lemma NothingAdded(w: World, f: string, st: State)
    ensures Adds(w, f, st, Res(Normal, st)) && Adds(w, f, st, Res(Timeout, st))
  {
  }

  lemma NormalAdds(w: World, f: string, st: State, r: Res)
    requires Adds(w, f, st, r) && !r.o.Leaves?
    ensures Times(f, r.st.trace) == Times(f, st.trace)
  {
  }

  lemma Quiet(w: World, f: string, st: State, r: Res)
    requires !r.o.Leaves? && Times(f, r.st.trace) == Times(f, st.trace) && (r.o.Ended? ==> EndsOther(r.st, f))
    ensures Adds(w, f, st, r)
  {
  }

  lemma {:induction false} StatementAdds(w: World, f: string, s: Stmt, fuel: nat, st: State)
    requires Foreign(f) && !Calls(s, f)
    ensures Adds(w, f, st, Exec(w, s, fuel, st))
    decreases fuel, s, 3
  {
    hide Adds, Times;
    match s
    case If(arms, els) => IfAdds(w, f, s, fuel, st);
    case While(e, body) => WhileAdds(w, f, s, fuel, st);
    case Repeat(body, e) => RepeatAdds(w, f, s, fuel, st);
    case For(x, from, to, step, body) => ForAdds(w, f, s, fuel, st);
    case Loop(body) => LoopAdds(w, f, s, fuel, st);
    case Case(_, _, _, _) => CaseAdds(w, f, s, fuel, st);
    case _ => PlainAdds(w, f, s, fuel, st);
  }

  lemma PlainAdds(w: World, f: string, s: Stmt, fuel: nat, st: State)
    requires Foreign(f) && !Calls(s, f)
    requires !s.If? && !s.While? && !s.Repeat? && !s.For? && !s.Loop? && !s.Case?
    ensures Adds(w, f, st, Exec(w, s, fuel, st))
  {
    hide Times;
    match s
    case Empty =>
    case Assign(d, e) =>
      EvalTimes(w, f, e, st);
      LocateTimes(w, f, d, Eval(w, e, st).st);
    case CallS(g, args) => EvalTimes(w, f, CallE(g, args), st);
    case IncDec(d, amount, _) =>
      LocateTimes(w, f, d, st);
      EvalOrTimes(w, f, amount, 1, Locate(w, d, st).st);
    case Assert(e) =>
      EvalTimes(w, f, e, st);
      EventTimes(f, Eval(w, e, st).st, Event(ASSERT_FAILED, [Text(""), Num(0)]));
    case Halt(code) =>
      EvalOrTimes(w, f, code, 1, st);
      var r := EvalOr(w, code, 1, st);
      if r.Val? {
        EventTimes(f, r.st, Event(HALT, [Num(r.v)]));
      }
    case Exit =>
    case Return(v) =>
      if v.Some? {
        EvalTimes(w, f, v.value, st);
        var r := Eval(w, v.value, st);
        if r.Val? {
          LeaveAdds(w, f, Some(r.v), r.st);
        }
      } else {
        LeaveAdds(w, f, None, st);
      }
    case Retry => EventTimes(f, st, Event(HANDLED, []));
  }

  lemma {:induction false} IfAdds(w: World, f: string, s: Stmt, fuel: nat, st: State)
    requires s.If? && Foreign(f) && !Calls(s, f)
    ensures Adds(w, f, st, Exec(w, s, fuel, st))
    decreases fuel, s, 2
  {
    hide Adds, Times;
    ArmsAdd(w, f, s.arms, fuel, st);
    match ExecArms(w, s.arms, fuel, st)
    case Took(r) =>
    case Fell(st1) =>
      if s.els.ElseDo? {
        AllAdd(w, f, s.els.ss, fuel, st1);
        AddsTrans(w, f, st, st1, ExecAll(w, s.els.ss, fuel, st1));
      } else {
        Quiet(w, f, st, Res(Normal, st1));
      }
  }

  lemma {:induction false} ArmsAdd(w: World, f: string, arms: seq<IfArm>, fuel: nat, st: State)
    requires Foreign(f) && forall k :: 0 <= k < |arms| ==> !CallsIn(arms[k].cond, f) && !CallsAny(arms[k].body, f)
    ensures match ExecArms(w, arms, fuel, st)
            case Took(r) => Adds(w, f, st, r)
            case Fell(st1) => Times(f, st1.trace) == Times(f, st.trace)
    decreases fuel, arms, 1
  {
    hide Adds, Times, CallsIn, CallsAny;
    if arms != [] {
      EvalTimes(w, f, arms[0].cond, st);
      match Eval(w, arms[0].cond, st)
      case Escaped(st1) => Quiet(w, f, st, Res(Ended, st1));
      case Val(v, st1) =>
        if v != 0 {
          AllAdd(w, f, arms[0].body, fuel, st1);
          AddsTrans(w, f, st, st1, ExecAll(w, arms[0].body, fuel, st1));
        } else {
          ArmsAdd(w, f, arms[1..], fuel, st1);
          var r := ExecArms(w, arms[1..], fuel, st1);
          if r.Took? {
            AddsTrans(w, f, st, st1, r.r);
          }
        }
    }
  }

  /** A body has run from `st1`; if it came to its end, the loop goes on. */
  lemma {:induction false} RoundAdds(w: World, f: string, s: Stmt, body: seq<Stmt>, fuel: nat, st: State, st1: State)
    requires (s.While? && s.body == body) || (s.Loop? && s.body == body)
    requires fuel > 0 && Foreign(f) && !Calls(s, f) && !CallsAny(body, f) && Times(f, st1.trace) == Times(f, st.trace)
    ensures var r := ExecAll(w, body, fuel, st1);
            Adds(w, f, st, if r.o.Normal? then Exec(w, s, fuel - 1, r.st) else if r.o.Exited? then Res(Normal, r.st) else r)
    decreases fuel, s, 1
  {
    hide Adds, Times, Calls, CallsAny;
    AllAdd(w, f, body, fuel, st1);
    var r := ExecAll(w, body, fuel, st1);
    AddsTrans(w, f, st, st1, r);
    if r.o.Normal? {
      NormalAdds(w, f, st, r);
      StatementAdds(w, f, s, fuel - 1, r.st);
      AddsTrans(w, f, st, r.st, Exec(w, s, fuel - 1, r.st));
    } else if r.o.Exited? {
      NormalAdds(w, f, st, r);
      Quiet(w, f, st, Res(Normal, r.st));
    }
  }

  lemma {:induction false} WhileAdds(w: World, f: string, s: Stmt, fuel: nat, st: State)
    requires s.While? && Foreign(f) && !Calls(s, f)
    ensures Adds(w, f, st, Exec(w, s, fuel, st))
    decreases fuel, s, 2
  {
    hide Adds, Times, CallsIn, CallsAny;
    NothingAdded(w, f, st);
    if fuel > 0 {
      EvalTimes(w, f, s.cond, st);
      match Eval(w, s.cond, st)
      case Escaped(st1) => Quiet(w, f, st, Res(Ended, st1));
      case Val(v, st1) =>
        if v == 0 {
          Quiet(w, f, st, Res(Normal, st1));
        } else {
          RoundAdds(w, f, s, s.body, fuel, st, st1);
        }
    }
  }

  lemma {:induction false} LoopAdds(w: World, f: string, s: Stmt, fuel: nat, st: State)
    requires s.Loop? && Foreign(f) && !Calls(s, f)
    ensures Adds(w, f, st, Exec(w, s, fuel, st))
    decreases fuel, s, 2
  {
    hide Adds, Times, CallsAny;
    NothingAdded(w, f, st);
    if fuel > 0 {
      RoundAdds(w, f, s, s.body, fuel, st, st);
    }
  }

  lemma {:induction false} RepeatAdds(w: World, f: string, s: Stmt, fuel: nat, st: State)
    requires s.Repeat? && Foreign(f) && !Calls(s, f)
    ensures Adds(w, f, st, Exec(w, s, fuel, st))
    decreases fuel, s, 2
  {
    hide Adds, Times, CallsIn, CallsAny;
    NothingAdded(w, f, st);
    if fuel > 0 {
      AllAdd(w, f, s.body, fuel, st);
      var r := ExecAll(w, s.body, fuel, st);
      if r.o.Normal? {
        NormalAdds(w, f, st, r);
        EvalTimes(w, f, s.cond, r.st);
        match Eval(w, s.cond, r.st)
        case Escaped(st1) => Quiet(w, f, st, Res(Ended, st1));
        case Val(v, st1) =>
          if v != 0 {
            Quiet(w, f, st, Res(Normal, st1));
          } else {
            StatementAdds(w, f, s, fuel - 1, st1);
            AddsTrans(w, f, st, st1, Exec(w, s, fuel - 1, st1));
          }
      } else if r.o.Exited? {
        NormalAdds(w, f, st, r);
        Quiet(w, f, st, Res(Normal, r.st));
      }
    }
  }

  lemma {:induction false} ForAdds(w: World, f: string, s: Stmt, fuel: nat, st: State)
    requires s.For? && Foreign(f) && !Calls(s, f)
    ensures Adds(w, f, st, Exec(w, s, fuel, st))
    decreases fuel, s, 2
  {
    hide Adds, Times, CallsIn, CallsAny;
    EvalTimes(w, f, s.from, st);
    match Eval(w, s.from, st)
    case Escaped(st1) => Quiet(w, f, st, Res(Ended, st1));
    case Val(a, st1) =>
      var st1' := WriteCell(st1, Loc(w.env(s.x), 0), a);
      EvalTimes(w, f, s.to, st1');
      match Eval(w, s.to, st1')
      case Escaped(st2) => Quiet(w, f, st, Res(Ended, st2));
      case Val(last, st2) =>
        EvalOrTimes(w, f, s.step, 1, st2);
        match EvalOr(w, s.step, 1, st2)
        case Escaped(st3) => Quiet(w, f, st, Res(Ended, st3));
        case Val(stride, st3) =>
          ForRoundsAdd(w, f, s.x, last, stride, s.body, fuel, st3);
          AddsTrans(w, f, st, st3, ExecFor(w, s.x, last, stride, s.body, fuel, st3));
  }

  lemma {:induction false} ForRoundsAdd(w: World, f: string, x: string, last: I64, step: I64, body: seq<Stmt>, fuel: nat, st: State)
    requires Foreign(f) && !CallsAny(body, f)
    ensures Adds(w, f, st, ExecFor(w, x, last, step, body, fuel, st))
    decreases fuel, body, 1
  {
    hide Adds, Times, CallsAny, StepFits, ForRuns, Wrap;
    NothingAdded(w, f, st);
    var l := Loc(w.env(x), 0);
    if fuel > 0 && ForRuns(ReadCell(st, l), last, step) {
      AllAdd(w, f, body, fuel, st);
      var r := ExecAll(w, body, fuel, st);
      if r.o.Normal? {
        NormalAdds(w, f, st, r);
        var cur := ReadCell(r.st, l);
        if StepFits(cur, last, step) {
          var st1 := WriteCell(r.st, l, Wrap(cur + step));
          ForRoundsAdd(w, f, x, last, step, body, fuel - 1, st1);
          AddsTrans(w, f, st, st1, ExecFor(w, x, last, step, body, fuel - 1, st1));
        } else {
          Quiet(w, f, st, Res(Normal, r.st));
        }
      } else if r.o.Exited? {
        NormalAdds(w, f, st, r);
        Quiet(w, f, st, Res(Normal, r.st));
      }
    }
  }

  lemma {:induction false} CaseAdds(w: World, f: string, s: Stmt, fuel: nat, st: State)
    requires s.Case? && Foreign(f) && !Calls(s, f)
    ensures Adds(w, f, st, Exec(w, s, fuel, st))
    decreases fuel, s, 2
  {
    hide Adds, Times, CallsIn, CallsAny, Pick, Reading;
    EvalTimes(w, f, s.scrutinee, st);
    match Eval(w, s.scrutinee, st)
    case Escaped(st1) => Quiet(w, f, st, Res(Ended, st1));
    case Val(v, st1) =>
      match Pick(s.carms, Reading(s.cardinal, v))
      case Some(i) =>
        AllAdd(w, f, s.carms[i].body, fuel, st1);
        AddsTrans(w, f, st, st1, ExecAll(w, s.carms[i].body, fuel, st1));
      case None =>
        if s.els.ElseDo? {
          AllAdd(w, f, s.els.ss, fuel, st1);
          AddsTrans(w, f, st, st1, ExecAll(w, s.els.ss, fuel, st1));
        } else {
          RaiseTimes(w, f, CASE_EXCEPTION, st1);
          Quiet(w, f, st, Res(Ended, Raise(w, CASE_EXCEPTION, st1)));
        }
  }

  // ---- The protocol -----------------------------------------------------------------------------------

  /** Handler and FINALLY part do not call `f` themselves. */
  predicate Silent(p: Protected, f: string) {
    Foreign(f) && (p.handler.Some? ==> !CallsAny(p.handler.value, f)) && !CallsAny(p.final, f)
  }

  function LastCall(st: State, back: nat): string {
    if back < |st.trace| then st.trace[|st.trace| - 1 - back].callee else ""
  }

  /** Did the run end by raising the exception again? */
  predicate Reraised(r: Res) {
    r.o.Ended? && LastCall(r.st, 0) == RERAISE
  }

  lemma HandOverFrees(w: World, result: Option<Loc>, st: State)
    requires w.frame.Some?
    ensures var r := HandOver(w, result, st);
            Times(FREE, r.st.trace) == Times(FREE, st.trace) + 1 && LastCall(r.st, 0) == FREE && r.o.Leaves?
  {
    EventTimes(FREE, st, Event(FREE, [w.frame.value]));
  }

  lemma ReraiseFrees(w: World, st: State)
    requires w.frame.Some?
    ensures var r := Reraise(w, st);
            Times(FREE, r.st.trace) == Times(FREE, st.trace) + 1 && LastCall(r.st, 0) == RERAISE && LastCall(r.st, 1) == FREE && Reraised(r)
  {
    var st1 := st.(trace := st.trace + [Event(FREE, [w.frame.value])]);
    EventTimes(FREE, st, Event(FREE, [w.frame.value]));
    EventTimes(FREE, st1, Event(RERAISE, []));
  }

  /** What the run has done with the frame when it is over. */
  ghost predicate FreedOnce(st: State, r: Res) {
    var freed := Times(FREE, r.st.trace) - Times(FREE, st.trace);
    match r.o
    case Leaves(_) => freed == 1 && LastCall(r.st, 0) == FREE
    case Ended => if Reraised(r) then freed == 1 && LastCall(r.st, 1) == FREE else freed == 0
    case _ => freed == 0
  }

  lemma FreedFrom(st: State, st1: State, r: Res)
    requires FreedOnce(st1, r) && Times(FREE, st1.trace) == Times(FREE, st.trace)
    ensures FreedOnce(st, r)
  {
  }

  lemma StatementsFree(w: World, ss: seq<Stmt>, fuel: nat, st: State)
    requires w.frame.Some? && !CallsAny(ss, FREE) && !CallsAny(ss, RERAISE)
    ensures FreedOnce(st, ExecAll(w, ss, fuel, st))
  {
    AllAdd(w, FREE, ss, fuel, st);
    AllAdd(w, RERAISE, ss, fuel, st);
  }

  /** On every run, through any number of RETRYs: a return has freed the frame once,
      as its last call; raising the exception again has freed it once, just before;
      any other end is inside a call that never came back, with the frame not freed.
      So no RUN_PROTECTED ever follows the FREE. */
  lemma {:induction false} FrameFreedOnce(w: World, p: Protected, state: Value, result: Option<Loc>, fuel: nat, st: State)
    requires w.frame.Some? && Silent(p, FREE) && Silent(p, RERAISE)
    ensures FreedOnce(st, RunProtected(w, p, state, result, fuel, st))
    decreases fuel
  {
    hide FreedOnce, Times, ExecAll, CallsAny;
    if fuel == 0 {
      NotFreed(st, Res(Timeout, st));
    } else {
      var call := Invoke(w, RUN_PROTECTED, [Code(p.name), state], st);
      InvokeTimes(w, FREE, RUN_PROTECTED, [Code(p.name), state], st);
      match call
      case Gone(st1) => GoneNotFreed(w, p, state, st);
      case Returned(raised, st1) =>
        if p.handler.None? {
          FinalizedFrees(w, p, raised, result, fuel, st1);
        } else if raised == 0 {
          FinishFrees(w, p, result, fuel, st1);
        } else {
          StatementsFree(w, p.handler.value, fuel, st1);
          AllAdd(w, FREE, p.handler.value, fuel, st1);
          var r := ExecAll(w, p.handler.value, fuel, st1);
          if r.o.Normal? {
            var st2 := r.st.(trace := r.st.trace + [Event(HANDLED, [])]);
            EventTimes(FREE, r.st, Event(HANDLED, []));
            FinishFrees(w, p, result, fuel, st2);
            FreedFrom(st1, st2, FinishUp(w, p.final, result, fuel, st2));
          } else if r.o.Retried? {
            FrameFreedOnce(w, p, state, result, fuel - 1, r.st);
            FreedFrom(st1, r.st, RunProtected(w, p, state, result, fuel - 1, r.st));
          }
        }
        FreedFrom(st, st1, RunProtected(w, p, state, result, fuel, st));
    }
  }

  lemma NotFreed(st: State, r: Res)
    requires !r.o.Leaves? && !Reraised(r) && Times(FREE, r.st.trace) == Times(FREE, st.trace)
    ensures FreedOnce(st, r)
  {
  }

  lemma GoneNotFreed(w: World, p: Protected, state: Value, st: State)
    requires Invoke(w, RUN_PROTECTED, [Code(p.name), state], st).Gone?
    ensures FreedOnce(st, Res(Ended, Invoke(w, RUN_PROTECTED, [Code(p.name), state], st).st))
  {
    InvokeTimes(w, FREE, RUN_PROTECTED, [Code(p.name), state], st);
  }

  lemma FinishFrees(w: World, p: Protected, result: Option<Loc>, fuel: nat, st: State)
    requires w.frame.Some? && Silent(p, FREE) && Silent(p, RERAISE)
    ensures FreedOnce(st, FinishUp(w, p.final, result, fuel, st))
  {
    StatementsFree(w, p.final, fuel, st);
    AllAdd(w, FREE, p.final, fuel, st);
    HandOverFrees(w, result, ExecAll(w, p.final, fuel, st).st);
  }

  lemma FinalizedFrees(w: World, p: Protected, raised: I64, result: Option<Loc>, fuel: nat, st: State)
    requires w.frame.Some? && Silent(p, FREE) && Silent(p, RERAISE)
    ensures var r := ExecAll(w, p.final, fuel, st);
            FreedOnce(st, if !r.o.Normal? then r else if raised == 0 then HandOver(w, result, r.st) else Reraise(w, r.st))
  {
    StatementsFree(w, p.final, fuel, st);
    AllAdd(w, FREE, p.final, fuel, st);
    HandOverFrees(w, result, ExecAll(w, p.final, fuel, st).st);
    ReraiseFrees(w, ExecAll(w, p.final, fuel, st).st);
  }

  // ---- FINALLY -------------------------------------------------------------------------------------------

  /** On this run it was the handler that returned from the procedure. */
  predicate HandlerReturned(w: World, p: Protected, state: Value, fuel: nat, st: State)
    decreases fuel
  {
    if fuel == 0 || p.handler.None? then false
    else match Invoke(w, RUN_PROTECTED, [Code(p.name), state], st)
      case Gone(_) => false
      case Returned(raised, st1) =>
        var r := ExecAll(w, p.handler.value, fuel, st1);
        raised != 0 && (r.o.Leaves? || (r.o.Retried? && HandlerReturned(w, p, state, fuel - 1, r.st)))
  }

  /** How often the run has called `m`, the first thing the FINALLY part does: at most
      once; when it got to the procedure's end, once, or not at all if `skipped`. */
  ghost predicate CalledOnce(m: string, st: State, r: Res, skipped: bool) {
    var n := Times(m, r.st.trace) - Times(m, st.trace);
    0 <= n <= 1 && (r.o.Leaves? || Reraised(r) ==> n == if skipped then 0 else 1)
  }

  lemma CalledFrom(m: string, st: State, st1: State, r: Res, skipped: bool)
    requires CalledOnce(m, st1, r, skipped) && Times(m, st1.trace) == Times(m, st.trace)
    ensures CalledOnce(m, st, r, skipped)
  {
  }

  predicate Marker(m: string) {
    Foreign(m) && m != FREE && m != RERAISE && m != RUN_PROTECTED
  }

  /** A FINALLY part that starts by calling `m` and goes on with `rest`. */
  function Marked(m: string, rest: seq<Stmt>): seq<Stmt> {
    [CallS(m, [])] + rest
  }

  lemma OneCall(w: World, m: string, fuel: nat, st: State)
    ensures var r := Exec(w, CallS(m, []), fuel, st);
            r.st == Invoke(w, m, [], st).st && (r.o.Normal? || r.o.Ended?)
  {
    hide Invoke;
    assert EvalArgs(w, [], st) == Val([], st);
    assert Eval(w, CallE(m, []), st) == CallOut(w, m, [], st);
  }

  lemma ThenRest(w: World, m: string, rest: seq<Stmt>, fuel: nat, st: State)
    ensures var r := Exec(w, CallS(m, []), fuel, st);
            ExecAll(w, Marked(m, rest), fuel, st) == if r.o.Normal? then ExecAll(w, rest, fuel, r.st) else r
  {
    hide Exec;
    assert Marked(m, rest)[0] == CallS(m, []) && Marked(m, rest)[1..] == rest;
  }

  lemma MarkedTimes(w: World, m: string, rest: seq<Stmt>, fuel: nat, st: State)
    requires Marker(m) && !CallsAny(rest, m) && !CallsAny(rest, RERAISE)
    ensures var r := ExecAll(w, Marked(m, rest), fuel, st);
            && Times(m, r.st.trace) == Times(m, st.trace) + 1 && (r.o.Ended? ==> EndsOther(r.st, RERAISE))
  {
    hide Exec, ExecAll, Times, CallsAny, Marked, Invoke, EndsOther;
    var r := Exec(w, CallS(m, []), fuel, st);
    OneCall(w, m, fuel, st);
    ThenRest(w, m, rest, fuel, st);
    InvokeTimes(w, m, m, [], st);
    InvokeTimes(w, RERAISE, m, [], st);
    if r.o.Normal? {
      AllAdd(w, m, rest, fuel, r.st);
      AllAdd(w, RERAISE, rest, fuel, r.st);
    }
  }

  lemma HandOverCalls(w: World, m: string, result: Option<Loc>, st: State)
    requires Marker(m)
    ensures Times(m, HandOver(w, result, st).st.trace) == Times(m, st.trace)
    ensures Times(m, Reraise(w, st).st.trace) == Times(m, st.trace)
  {
    var st1 := if w.frame.Some? then st.(trace := st.trace + [Event(FREE, [w.frame.value])]) else st;
    if w.frame.Some? {
      EventTimes(m, st, Event(FREE, [w.frame.value]));
    }
    EventTimes(m, st1, Event(RERAISE, []));
  }

  lemma FinishCalls(w: World, m: string, rest: seq<Stmt>, result: Option<Loc>, fuel: nat, st: State)
    requires Marker(m) && !CallsAny(rest, m) && !CallsAny(rest, RERAISE)
    ensures CalledOnce(m, st, FinishUp(w, Marked(m, rest), result, fuel, st), false)
  {
    MarkedTimes(w, m, rest, fuel, st);
    HandOverCalls(w, m, result, ExecAll(w, Marked(m, rest), fuel, st).st);
  }

  lemma FinalizedCalls(w: World, m: string, rest: seq<Stmt>, raised: I64, result: Option<Loc>, fuel: nat, st: State)
    requires Marker(m) && !CallsAny(rest, m) && !CallsAny(rest, RERAISE)
    ensures var r := ExecAll(w, Marked(m, rest), fuel, st);
            CalledOnce(m, st, if !r.o.Normal? then r else if raised == 0 then HandOver(w, result, r.st) else Reraise(w, r.st), false)
  {
    MarkedTimes(w, m, rest, fuel, st);
    HandOverCalls(w, m, result, ExecAll(w, Marked(m, rest), fuel, st).st);
  }

  lemma HandlerCalls(w: World, m: string, p: Protected, fuel: nat, st: State)
    requires Marker(m) && p.handler.Some? && !CallsAny(p.handler.value, m) && !CallsAny(p.handler.value, RERAISE)
    ensures var r := ExecAll(w, p.handler.value, fuel, st); Times(m, r.st.trace) == Times(m, st.trace) && CalledOnce(m, st, r, r.o.Leaves?)
  {
    AllAdd(w, m, p.handler.value, fuel, st);
    AllAdd(w, RERAISE, p.handler.value, fuel, st);
  }

  /** Through any number of RETRYs the FINALLY part runs at most once; exactly once if the
      procedure returns or passes the exception on, unless it was the handler that
      returned on this run: then not at all. */
  lemma {:induction false} FinallyRunsOnce(w: World, m: string, rest: seq<Stmt>, p: Protected, state: Value, result: Option<Loc>, fuel: nat, st: State)
    requires Marker(m) && p.final == Marked(m, rest) && !CallsAny(rest, m) && !CallsAny(rest, RERAISE)
    requires p.handler.Some? ==> !CallsAny(p.handler.value, m) && !CallsAny(p.handler.value, RERAISE)
    ensures CalledOnce(m, st, RunProtected(w, p, state, result, fuel, st), HandlerReturned(w, p, state, fuel, st))
    decreases fuel
  {
    hide CalledOnce, Times, ExecAll, CallsAny, Marked;
    if fuel == 0 {
      NotCalled(m, st, Res(Timeout, st), false);
    } else {
      var call := Invoke(w, RUN_PROTECTED, [Code(p.name), state], st);
      InvokeTimes(w, m, RUN_PROTECTED, [Code(p.name), state], st);
      match call
      case Gone(st1) => GoneNotCalled(w, m, p, state, st);
      case Returned(raised, st1) =>
        if p.handler.None? {
          FinalizedCalls(w, m, rest, raised, result, fuel, st1);
        } else if raised == 0 {
          FinishCalls(w, m, rest, result, fuel, st1);
        } else {
          HandlerCalls(w, m, p, fuel, st1);
          var r := ExecAll(w, p.handler.value, fuel, st1);
          if r.o.Normal? {
            var st2 := r.st.(trace := r.st.trace + [Event(HANDLED, [])]);
            EventTimes(m, r.st, Event(HANDLED, []));
            FinishCalls(w, m, rest, result, fuel, st2);
            CalledFrom(m, st1, st2, FinishUp(w, p.final, result, fuel, st2), false);
          } else if r.o.Retried? {
            FinallyRunsOnce(w, m, rest, p, state, result, fuel - 1, r.st);
            CalledFrom(m, st1, r.st, RunProtected(w, p, state, result, fuel - 1, r.st), HandlerReturned(w, p, state, fuel - 1, r.st));
          }
        }
        CalledFrom(m, st, st1, RunProtected(w, p, state, result, fuel, st), HandlerReturned(w, p, state, fuel, st));
    }
  }

  lemma NotCalled(m: string, st: State, r: Res, skipped: bool)
    requires !r.o.Leaves? && !Reraised(r) && Times(m, r.st.trace) == Times(m, st.trace)
    ensures CalledOnce(m, st, r, skipped)
  {
  }

  lemma GoneNotCalled(w: World, m: string, p: Protected, state: Value, st: State)
    requires Marker(m) && Invoke(w, RUN_PROTECTED, [Code(p.name), state], st).Gone?
    ensures CalledOnce(m, st, Res(Ended, Invoke(w, RUN_PROTECTED, [Code(p.name), state], st).st), false)
  {
    InvokeTimes(w, m, RUN_PROTECTED, [Code(p.name), state], st);
  }
}
