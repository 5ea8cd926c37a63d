/** Laws of the statements' meaning: which statements mean the same, what undoes what, and
    which exception each check raises. */
module SourceLaws {
  import opened Arith
  import opened Ir
  import opened Machine
  import opened Source
  import opened ForArith

  // ---- Exceptions ---------------------------------------------------------------------------------

  /** The language exceptions in the order of ISO 10514-1. */
  const EXCEPTION_NAMES := ["indexException", "rangeException", "caseSelectException", "invalidLocation", "functionException",
                            "wholeValueException", "wholeDivException", "realValueException", "realDivException", "complexValueException",
                            "complexDivException", "protException", "sysException", "coException", "exException"]

  /** The run ends with a call of the runtime that raises the exception of this name. */
  ghost predicate EndsRaising(st: State, before: State, name: string) {
    exists k: I64 :: 0 <= k < |EXCEPTION_NAMES| && EXCEPTION_NAMES[k] == name
      && st == before.(trace := before.trace + [Event("nm2_raise_m2", [Num(k)])])
  }

  lemma Raises(w: World, st: State)
    ensures EndsRaising(Raise(w, INDEX_EXCEPTION, st), st, "indexException")
    ensures EndsRaising(Raise(w, CASE_EXCEPTION, st), st, "caseSelectException")
    ensures EndsRaising(Raise(w, DIV_EXCEPTION, st), st, "wholeDivException")
  {
    assert EXCEPTION_NAMES[0] == "indexException" && EXCEPTION_NAMES[2] == "caseSelectException" && EXCEPTION_NAMES[6] == "wholeDivException";
  }

  /** Dividing by zero raises wholeDivException, and nothing else happens after that. */
  lemma DivisionRaises(w: World, op: ArithOp, e: Expr, st: State)
    requires op.sign in [Slash, DivKw, ModKw, RemKw] && Eval(w, e, st).Val?
    ensures var r := Eval(w, Arith(op, e, IntLit(0)), st); r.Escaped? && EndsRaising(r.st, Eval(w, e, st).st, "wholeDivException")
  {
    hide EndsRaising, Raise;
    Raises(w, Eval(w, e, st).st);
  }

  /** An index outside its dimension raises indexException. */
  lemma IndexRaises(w: World, x: string, dims: seq<Dim>, e: Expr, more: seq<Expr>, st: State)
    requires dims != [] && Eval(w, e, st).Val? && !(dims[0].lo <= Eval(w, e, st).v < dims[0].lo + dims[0].count)
    ensures var r := Locate(w, Elem(x, dims, [e] + more), st); r.Escaped? && EndsRaising(r.st, Eval(w, e, st).st, "indexException")
  {
    hide EndsRaising, Raise, Eval;
    Raises(w, Eval(w, e, st).st);
    assert ([e] + more)[0] == e;
    assert Rank(w, dims, [e] + more, st).Escaped?;
  }

  /** A CASE without a label for the value and without ELSE raises caseSelectException. */
  lemma CaseRaises(w: World, e: Expr, cardinal: bool, arms: seq<CaseArm>, fuel: nat, st: State)
    requires Eval(w, e, st).Val? && Pick(arms, Reading(cardinal, Eval(w, e, st).v)).None?
    ensures var r := Exec(w, Case(e, cardinal, arms, NoElse), fuel, st); r.o.Ended? && EndsRaising(r.st, Eval(w, e, st).st, "caseSelectException")
  {
    hide EndsRaising, Raise, Eval, Pick;
    Raises(w, Eval(w, e, st).st);
  }

  /** HALT and a failed ASSERT end the run with calls of the runtime; RETRY and the end of a
      protected procedure tell the runtime, too. */
  lemma RuntimeIsCalled(w: World, e: Expr, fuel: nat, st: State)
    requires Eval(w, e, st).Val?
    ensures var (v, st1) := (Eval(w, e, st).v, Eval(w, e, st).st);
            && Exec(w, Halt(Some(e)), fuel, st) == Res(Ended, st1.(trace := st1.trace + [Event("nm2_halt", [Num(v)])]))
            && (v == 0 ==> Exec(w, Assert(e), fuel, st) == Res(Ended, st1.(trace := st1.trace + [Event("nm2_assert_failed", [Text(""), Num(0)])])))
            && (v != 0 ==> Exec(w, Assert(e), fuel, st) == Res(Normal, st1))
    ensures Exec(w, Halt(None), fuel, st) == Res(Ended, st.(trace := st.trace + [Event("nm2_halt", [Num(1)])]))
    ensures Exec(w, Retry, fuel, st) == Res(Retried, st.(trace := st.trace + [Event("nm2_exception_handled", [])]))
    ensures FREE == "nm2_free" && RERAISE == "nm2_reraise" && RUN_PROTECTED == "nm2_run_protected"
  {
    hide Eval;
  }

  // ---- Loops ----------------------------------------------------------------------------------------

  lemma OneStatement(w: World, s: Stmt, fuel: nat, st: State)
    ensures ExecAll(w, [s], fuel, st) == Exec(w, s, fuel, st)
  {
    hide Exec;
    var r := Exec(w, s, fuel, st);
    if r.o.Normal? {
      assert [s][1..] == [];
      assert ExecAll(w, [], fuel, r.st) == Res(Normal, r.st);
    }
  }

  /** WHILE e DO body END is LOOP IF e THEN body ELSE EXIT END END. */
  lemma {:induction false} WhileIsLoop(w: World, e: Expr, body: seq<Stmt>, fuel: nat, st: State)
    ensures Exec(w, While(e, body), fuel, st) == Exec(w, Loop([If([IfArm(e, body)], ElseDo([Exit]))]), fuel, st)
    decreases fuel
  {
    hide Eval, ExecAll, ExecArms;
    var branch := If([IfArm(e, body)], ElseDo([Exit]));
    OneStatement(w, branch, fuel, st);
    BranchIs(w, e, body, ElseDo([Exit]), fuel, st);
    if fuel > 0 && Eval(w, e, st).Val? {
      var (v, st1) := (Eval(w, e, st).v, Eval(w, e, st).st);
      OneStatement(w, Exit, fuel, st1);
      if v != 0 {
        var r := ExecAll(w, body, fuel, st1);
        if r.o.Normal? {
          WhileIsLoop(w, e, body, fuel - 1, r.st);
        }
      }
    }
  }

  /** One condition. */
  lemma BranchIs(w: World, e: Expr, body: seq<Stmt>, els: Else, fuel: nat, st: State)
    ensures Exec(w, If([IfArm(e, body)], els), fuel, st) ==
            match Eval(w, e, st)
            case Escaped(st1) => Res(Ended, st1)
            case Val(v, st1) => if v != 0 then ExecAll(w, body, fuel, st1) else if els.ElseDo? then ExecAll(w, els.ss, fuel, st1) else Res(Normal, st1)
  {
    hide Eval, ExecAll;
    var arms := [IfArm(e, body)];
    assert arms[1..] == [];
    if Eval(w, e, st).Val? {
      assert ExecArms(w, [], fuel, Eval(w, e, st).st) == Fell(Eval(w, e, st).st);
    }
  }

  lemma {:induction false} ExecAppend(w: World, a: seq<Stmt>, b: seq<Stmt>, fuel: nat, st: State)
    ensures ExecAll(w, a + b, fuel, st) ==
            if ExecAll(w, a, fuel, st).o.Normal? then ExecAll(w, b, fuel, ExecAll(w, a, fuel, st).st) else ExecAll(w, a, fuel, st)
    decreases |a|
  {
    hide Exec;
    if a == [] {
      assert a + b == b;
    } else {
      assert (a + b)[0] == a[0] && (a + b)[1..] == a[1..] + b;
      if Exec(w, a[0], fuel, st).o.Normal? {
        ExecAppend(w, a[1..], b, fuel, Exec(w, a[0], fuel, st).st);
      }
    }
  }

  /** REPEAT body UNTIL e is LOOP body; IF e THEN EXIT END END. */
  lemma {:induction false} RepeatIsLoop(w: World, e: Expr, body: seq<Stmt>, fuel: nat, st: State)
    ensures Exec(w, Repeat(body, e), fuel, st) == Exec(w, Loop(body + [If([IfArm(e, [Exit])], NoElse)]), fuel, st)
    decreases fuel
  {
    hide Eval, ExecAll, ExecArms;
    var test := If([IfArm(e, [Exit])], NoElse);
    ExecAppend(w, body, [test], fuel, st);
    var r := ExecAll(w, body, fuel, st);
    if fuel > 0 && r.o.Normal? {
      OneStatement(w, test, fuel, r.st);
      BranchIs(w, e, [Exit], NoElse, fuel, r.st);
      if Eval(w, e, r.st).Val? {
        var (v, st1) := (Eval(w, e, r.st).v, Eval(w, e, r.st).st);
        OneStatement(w, Exit, fuel, st1);
        if v == 0 {
          RepeatIsLoop(w, e, body, fuel - 1, st1);
        }
      }
    }
  }

  /** ELSIF is an IF in the ELSE part. */
  lemma ElsifIsNested(w: World, a: IfArm, arms: seq<IfArm>, els: Else, fuel: nat, st: State)
    ensures Exec(w, If([a] + arms, els), fuel, st) == Exec(w, If([a], ElseDo([If(arms, els)])), fuel, st)
  {
    hide Eval, ExecAll;
    var all := [a] + arms;
    assert all[0] == a && all[1..] == arms;
    BranchIs(w, a.cond, a.body, ElseDo([If(arms, els)]), fuel, st);
    assert IfArm(a.cond, a.body) == a;
    if Eval(w, a.cond, st).Val? {
      OneStatement(w, If(arms, els), fuel, Eval(w, a.cond, st).st);
    }
  }

  /** A CASE whose arms have one label each is a chain of comparisons. */
  lemma {:induction false} CaseIsFirstEqual(arms: seq<CaseArm>, labels: seq<int>, v: int, i: nat)
    requires |labels| == |arms| && forall k :: 0 <= k < |arms| ==> arms[k].labels == [Single(labels[k])]
    requires i < |arms| && labels[i] == v && forall k :: 0 <= k < i ==> labels[k] != v
    ensures Pick(arms, v) == Some(i)
    decreases |arms|
  {
    assert Covers(arms[0].labels[0], v) <==> labels[0] == v;
    if i > 0 {
      CaseIsFirstEqual(arms[1..], labels[1..], v, i - 1);
    }
  }

  // ---- Expressions ------------------------------------------------------------------------------------

  /** The opposite of AND is OR of the opposites, and what is not evaluated is the same. */
  lemma Opposites(w: World, a: Expr, b: Expr, st: State)
    ensures Eval(w, NotE(AndThen(a, b)), st) == Eval(w, OrElse(NotE(a), NotE(b)), st)
    ensures Eval(w, NotE(OrElse(a, b)), st) == Eval(w, AndThen(NotE(a), NotE(b)), st)
  {
    assert Eval(w, NotE(a), st) == match Eval(w, a, st) case Escaped(s) => Escaped(s) case Val(v, s) => Val(if v == 0 then 1 else 0, s);
    if Eval(w, a, st).Val? {
      var s := Eval(w, a, st).st;
      assert Eval(w, NotE(b), s) == match Eval(w, b, s) case Escaped(t) => Escaped(t) case Val(v, t) => Val(if v == 0 then 1 else 0, t);
    }
  }

  /** Comparisons come in opposites, whatever the operands' type. */
  lemma OppositeComparisons(w: World, s: Operator, cardinal: bool, l: Expr, r: Expr, st: State)
    requires s in [Less, Greater, Equal]
    ensures var t := if s.Less? then GreaterEq else if s.Greater? then LessEq else NotEqual;
            Eval(w, NotE(Arith(ArithOp(s, cardinal), l, r)), st) == Eval(w, Arith(ArithOp(t, cardinal), l, r), st)
  {
    hide Wrap, Unsigned;
    Negated(w, Arith(ArithOp(s, cardinal), l, r), st);
    assert Wrap(0) == 0 && Wrap(1) == 1 by { SmallWrap(); }
  }

  lemma SmallWrap()
    ensures Wrap(0) == 0 && Wrap(1) == 1
  {
  }

  lemma Negated(w: World, e: Expr, st: State)
    ensures Eval(w, NotE(e), st) == match Eval(w, e, st) case Escaped(s) => Escaped(s) case Val(v, s) => Val(if v == 0 then 1 else 0, s)
  {
  }

  /** INC and DEC by the same amount undo each other, also across the end of the range. */
  lemma IncAndDec(w: World, x: string, n: Option<int>, up: bool, fuel: nat, st: State)
    ensures var l := Loc(w.env(x), 0);
            var amount := if n.Some? then Some(IntLit(n.value)) else None;
            var r := ExecAll(w, [IncDec(Var(x), amount, up), IncDec(Var(x), amount, !up)], fuel, st);
            r.o.Normal? && r.st == WriteCell(st, l, ReadCell(st, l))
  {
    hide Wrap;
    var l := Loc(w.env(x), 0);
    var amount := if n.Some? then Some(IntLit(n.value)) else None;
    var k: int := if n.Some? then Wrap(n.value) else 1;
    var v := ReadCell(st, l);
    var v1 := Wrap(if up then v + k else v - k);
    var (s1, s2) := (IncDec(Var(x), amount, up), IncDec(Var(x), amount, !up));
    var st1 := WriteCell(st, l, v1);
    assert Exec(w, s1, fuel, st) == Res(Normal, st1);
    UndoesWrap(v, k, up);
    assert Exec(w, s2, fuel, st1) == Res(Normal, WriteCell(st1, l, v));
    assert WriteCell(st1, l, v).cells == WriteCell(st, l, v).cells;
    assert [s1, s2][1..] == [s2];
    OneStatement(w, s2, fuel, st1);
  }

  /** Without an amount INC adds 1 and DEC takes 1 away; without BY a FOR loop goes by 1. */
  lemma DefaultsAreOne(w: World, x: string, up: bool, from: Expr, to: Expr, body: seq<Stmt>, fuel: nat, st: State)
    ensures var l := Loc(w.env(x), 0);
            Exec(w, IncDec(Var(x), None, up), fuel, st) == Res(Normal, WriteCell(st, l, Wrap(if up then ReadCell(st, l) + 1 else ReadCell(st, l) - 1)))
    ensures Exec(w, For(x, from, to, None, body), fuel, st) == Exec(w, For(x, from, to, Some(IntLit(1)), body), fuel, st)
  {
    hide ExecFor, WriteCell;
    assert forall s :: Eval(w, IntLit(1), s) == Val(1, s);
  }

  lemma UndoesWrap(v: I64, k: int, up: bool)
    ensures Wrap(if up then Wrap(v + k) - k else Wrap(v - k) + k) == v
  {
    var m := if up then v + k else v - k;
    var t := m / TWO64;
    assert m == t * TWO64 + m % TWO64;
    var back := Wrap(m);
    assert back == m - t * TWO64 || back == m - (t + 1) * TWO64;
    var n := if up then back - k else back + k;
    assert n == v - t * TWO64 || n == v - (t + 1) * TWO64;
    if n == v - t * TWO64 { SameBits64(v, t); } else { SameBits64(v, t + 1); }
  }

  lemma SameBits64(v: I64, t: int)
    ensures Wrap(v - t * TWO64) == v
  {
    assert (v - t * TWO64) % TWO64 == v % TWO64;
  }
}
