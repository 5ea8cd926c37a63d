/** Which variables of enclosing procedures a nested procedure needs: the fixpoint
    the lowering computes, and what a call then passes along. */
module Captures {
  import opened Ir

  // ---- Scopes --------------------------------------------------------------------------

  type ScopeId = nat

  datatype ScopeKind = ModuleScope | PervasiveScope | ProcedureScope
  datatype Symbol = VarSymbol | OtherSymbol

  /** A scope's parent was made before it. */
  datatype Scope = Scope(kind: ScopeKind, symbols: map<string, Symbol>, parent: Option<ScopeId>)

  ghost predicate Tree(scopes: seq<Scope>) {
    forall s :: 0 <= s < |scopes| && scopes[s].parent.Some? ==> scopes[s].parent.value < s
  }

  /** The nearest scope, from `s` outwards, that declares `name`. */
  function Lookup(scopes: seq<Scope>, s: ScopeId, name: string): (r: Option<ScopeId>)
    requires Tree(scopes) && s < |scopes|
    ensures r.Some? ==> r.value <= s && name in scopes[r.value].symbols
    decreases s
  {
    if name in scopes[s].symbols then Some(s)
    else if scopes[s].parent.None? then None
    else Lookup(scopes, scopes[s].parent.value, name)
  }

  /** Is `name`, seen from a procedure with scope `own`, a variable of an enclosing
      procedure? */
  predicate IsCapture(scopes: seq<Scope>, own: ScopeId, name: string)
    requires Tree(scopes) && own < |scopes|
  {
    var d := Lookup(scopes, own, name);
    d.Some? && d.value != own && scopes[d.value].kind == ProcedureScope && scopes[d.value].symbols[name] == VarSymbol
  }

  /** The walk outwards that decides it, one scope at a time. */
  method CaptureTypeFor(scopes: seq<Scope>, own: ScopeId, name: string) returns (yes: bool)
    requires Tree(scopes) && own < |scopes|
    ensures yes == IsCapture(scopes, own, name)
  {
    var s: ScopeId := own;
    while true
      invariant s < |scopes| && Lookup(scopes, own, name) == Lookup(scopes, s, name)
      decreases s
    {
      if name in scopes[s].symbols {
        return s != own && scopes[s].kind == ProcedureScope && scopes[s].symbols[name] == VarSymbol;
      }
      if scopes[s].parent.None? {
        return false;
      }
      s := scopes[s].parent.value;
    }
  }

  // ---- The fixpoint ---------------------------------------------------------------------------

  /** A nested procedure as the computation sees it: its name, its scope, the names its
      body mentions. */
  datatype Proc = Proc(name: string, scope: ScopeId, refs: set<string>)

  type CapMap = map<string, set<string>>

  ghost predicate Nested(scopes: seq<Scope>, procs: seq<Proc>) {
    Tree(scopes) && forall i :: 0 <= i < |procs| ==> procs[i].scope < |scopes|
  }

  /** Scope and names mentioned are looked up by name, so they are one for all procedures
      of a name. */
  ghost predicate ByName(procs: seq<Proc>) {
    forall i, j :: 0 <= i < |procs| && 0 <= j < |procs| && procs[i].name == procs[j].name ==> procs[i] == procs[j]
  }

  predicate IsProc(procs: seq<Proc>, n: string) {
    exists i :: 0 <= i < |procs| && procs[i].name == n
  }

  function CapsOf(caps: CapMap, n: string): set<string> {
    if n in caps then caps[n] else {}
  }

  /** Is `x` mentioned, or captured by a procedure that is? */
  ghost predicate Candidate(procs: seq<Proc>, caps: CapMap, p: Proc, x: string) {
    x in p.refs || exists n :: n in p.refs && IsProc(procs, n) && x in CapsOf(caps, n)
  }

  /** What the procedure captures if the others capture `caps`. */
  ghost predicate Captures(scopes: seq<Scope>, procs: seq<Proc>, caps: CapMap, p: Proc, x: string)
    requires Tree(scopes) && p.scope < |scopes|
  {
    Candidate(procs, caps, p, x) && IsCapture(scopes, p.scope, x)
  }

  /** Every procedure captures exactly what the others' captures ask for. */
  ghost predicate IsFixpoint(scopes: seq<Scope>, procs: seq<Proc>, caps: CapMap)
    requires Nested(scopes, procs)
  {
    forall i, x :: 0 <= i < |procs| ==> (x in CapsOf(caps, procs[i].name) <==> Captures(scopes, procs, caps, procs[i], x))
  }

  ghost predicate IsClosed(scopes: seq<Scope>, procs: seq<Proc>, caps: CapMap)
    requires Nested(scopes, procs)
  {
    forall i, x :: 0 <= i < |procs| && Captures(scopes, procs, caps, procs[i], x) ==> x in CapsOf(caps, procs[i].name)
  }

  ghost predicate Below(procs: seq<Proc>, caps: CapMap, other: CapMap) {
    forall i :: 0 <= i < |procs| ==> CapsOf(caps, procs[i].name) <= CapsOf(other, procs[i].name)
  }

  /** Only the procedures have captures, and only such as their own map asks for. */
  ghost predicate Justified(scopes: seq<Scope>, procs: seq<Proc>, caps: CapMap)
    requires Nested(scopes, procs)
  {
    && (forall n :: n in caps ==> IsProc(procs, n))
    && (forall i, x :: 0 <= i < |procs| && x in CapsOf(caps, procs[i].name) ==> Captures(scopes, procs, caps, procs[i], x))
  }

  function AllRefs(procs: seq<Proc>): set<string> {
    if procs == [] then {} else procs[0].refs + AllRefs(procs[1..])
  }

  lemma {:induction false} RefsIn(procs: seq<Proc>, i: nat)
    requires i < |procs|
    ensures procs[i].refs <= AllRefs(procs)
    decreases |procs|
  {
    if i > 0 {
      RefsIn(procs[1..], i - 1);
    }
  }

  /** Captures are names some body mentions. */
  ghost predicate Mentioned(procs: seq<Proc>, caps: CapMap) {
    forall n :: n in caps ==> caps[n] <= AllRefs(procs)
  }

  /** Room for captures not yet found. */
  ghost function Room(procs: seq<Proc>, all: seq<Proc>, caps: CapMap): nat {
    if procs == [] then 0 else |AllRefs(all) - CapsOf(caps, procs[0].name)| + Room(procs[1..], all, caps)
  }

  lemma {:induction false} RoomShrinks(procs: seq<Proc>, all: seq<Proc>, caps: CapMap, n: string, more: set<string>)
    requires CapsOf(caps, n) < more <= AllRefs(all)
    ensures Room(procs, all, caps[n := more]) <= Room(procs, all, caps)
    ensures (exists i :: 0 <= i < |procs| && procs[i].name == n) ==> Room(procs, all, caps[n := more]) < Room(procs, all, caps)
    decreases |procs|
  {
    if procs != [] {
      RoomShrinks(procs[1..], all, caps, n, more);
      if procs[0].name == n {
        var x :| x in more && x !in CapsOf(caps, n);
        SubsetSize(AllRefs(all) - more, AllRefs(all) - CapsOf(caps, n) - {x});
      } else if i :| 0 <= i < |procs| && procs[i].name == n {
        assert procs[1..][i - 1].name == n;
      }
    }
  }

  lemma {:induction false} SubsetSize(a: set<string>, b: set<string>)
    requires a <= b
    ensures |a| <= |b|
    decreases |a|
  {
    if x :| x in a {
      SubsetSize(a - {x}, b - {x});
    }
  }

  /** More captures elsewhere never mean fewer here. */
  lemma CapturesMonotone(scopes: seq<Scope>, procs: seq<Proc>, caps: CapMap, other: CapMap, p: Proc, x: string)
    requires Nested(scopes, procs) && p.scope < |scopes| && Below(procs, caps, other) && Captures(scopes, procs, caps, p, x)
    ensures Captures(scopes, procs, other, p, x)
  {
    if x !in p.refs {
      var n :| n in p.refs && IsProc(procs, n) && x in CapsOf(caps, n);
      assert x in CapsOf(other, n);
    }
  }

  // ---- One procedure's turn ------------------------------------------------------------------------

  /** The names short procedure names stand for: here, themselves. */
  method Candidates(procs: seq<Proc>, caps: CapMap, p: Proc) returns (cand: set<string>)
    ensures forall x :: x in cand <==> Candidate(procs, caps, p, x)
  {
    cand := p.refs;
    var rest := p.refs;
    while rest != {}
      invariant rest <= p.refs && p.refs <= cand
      invariant forall x :: x in cand <==> x in p.refs || exists n :: n in p.refs && n !in rest && IsProc(procs, n) && x in CapsOf(caps, n)
      decreases |rest|
    {
      var n :| n in rest;
      rest := rest - {n};
      if IsProc(procs, n) && n in caps {
        cand := cand + caps[n];
      }
    }
  }

  method Filtered(scopes: seq<Scope>, own: ScopeId, cand: set<string>) returns (r: set<string>)
    requires Tree(scopes) && own < |scopes|
    ensures forall x :: x in r <==> x in cand && IsCapture(scopes, own, x)
  {
    r := {};
    var rest := cand;
    while rest != {}
      invariant rest <= cand && r <= cand - rest
      invariant forall x :: x in r <==> x in cand - rest && IsCapture(scopes, own, x)
      decreases |rest|
    {
      var n :| n in rest;
      rest := rest - {n};
      var yes := CaptureTypeFor(scopes, own, n);
      if yes {
        r := r + {n};
      }
    }
  }

  // ---- All rounds --------------------------------------------------------------------------------------

  ghost predicate Invariant(scopes: seq<Scope>, procs: seq<Proc>, caps: CapMap) {
    Nested(scopes, procs) && Justified(scopes, procs, caps) && Mentioned(procs, caps)
    && forall d: CapMap :: IsClosed(scopes, procs, d) ==> Below(procs, caps, d)
  }

  /** A procedure's turn keeps what holds of the map and finds no less than before. */
  lemma TurnKeeps(scopes: seq<Scope>, procs: seq<Proc>, caps: CapMap, i: nat, found: set<string>)
    requires ByName(procs) && Invariant(scopes, procs, caps) && i < |procs|
    requires forall x :: x in found <==> Captures(scopes, procs, caps, procs[i], x)
    ensures CapsOf(caps, procs[i].name) <= found <= AllRefs(procs)
    ensures Invariant(scopes, procs, caps[procs[i].name := found])
  {
    hide IsCapture;
    var next := caps[procs[i].name := found];
    TurnGrows(scopes, procs, caps, i, found);
    TurnJustified(scopes, procs, caps, i, found);
    FoundAreRefs(scopes, procs, caps, i, found);
    forall d: CapMap | IsClosed(scopes, procs, d)
      ensures Below(procs, next, d)
    {
      TurnBelow(scopes, procs, caps, i, found, d);
    }
  }

  lemma TurnGrows(scopes: seq<Scope>, procs: seq<Proc>, caps: CapMap, i: nat, found: set<string>)
    requires ByName(procs) && Invariant(scopes, procs, caps) && i < |procs|
    requires forall x :: x in found <==> Captures(scopes, procs, caps, procs[i], x)
    ensures CapsOf(caps, procs[i].name) <= found && Below(procs, caps, caps[procs[i].name := found])
  {
    hide IsCapture;
    var n := procs[i].name;
    forall x | x in CapsOf(caps, n)
      ensures x in found
    {
      assert Captures(scopes, procs, caps, procs[i], x);
    }
  }

  lemma FoundAreRefs(scopes: seq<Scope>, procs: seq<Proc>, caps: CapMap, i: nat, found: set<string>)
    requires ByName(procs) && Invariant(scopes, procs, caps) && i < |procs|
    requires forall x :: x in found <==> Captures(scopes, procs, caps, procs[i], x)
    ensures found <= AllRefs(procs)
  {
    hide IsCapture;
    forall x | x in found
      ensures x in AllRefs(procs)
    {
      RefsIn(procs, i);
      if x !in procs[i].refs {
        var m :| m in procs[i].refs && IsProc(procs, m) && x in CapsOf(caps, m);
        assert m in caps;
      }
    }
  }

  lemma TurnBelow(scopes: seq<Scope>, procs: seq<Proc>, caps: CapMap, i: nat, found: set<string>, d: CapMap)
    requires ByName(procs) && Invariant(scopes, procs, caps) && i < |procs| && IsClosed(scopes, procs, d)
    requires forall x :: x in found <==> Captures(scopes, procs, caps, procs[i], x)
    ensures Below(procs, caps[procs[i].name := found], d)
  {
    hide IsCapture;
    var n := procs[i].name;
    assert Below(procs, caps, d);
    forall x | x in found
      ensures x in CapsOf(d, n)
    {
      CapturesMonotone(scopes, procs, caps, d, procs[i], x);
    }
  }

  lemma TurnJustified(scopes: seq<Scope>, procs: seq<Proc>, caps: CapMap, i: nat, found: set<string>)
    requires ByName(procs) && Nested(scopes, procs) && Justified(scopes, procs, caps) && i < |procs|
    requires forall x :: x in found <==> Captures(scopes, procs, caps, procs[i], x)
    requires CapsOf(caps, procs[i].name) <= found
    ensures Justified(scopes, procs, caps[procs[i].name := found])
  {
    hide IsCapture;
    var next := caps[procs[i].name := found];
    assert Below(procs, caps, next);
    assert IsProc(procs, procs[i].name);
    forall j, x | 0 <= j < |procs| && x in CapsOf(next, procs[j].name)
      ensures Captures(scopes, procs, next, procs[j], x)
    {
      assert Captures(scopes, procs, caps, procs[j], x) by {
        if procs[j].name == procs[i].name {
          assert procs[i] == procs[j];
        }
      }
      CapturesMonotone(scopes, procs, caps, next, procs[j], x);
    }
  }

  /** The smallest map that gives every procedure what the others' captures ask for. */
  ghost predicate IsLeastFixpoint(scopes: seq<Scope>, procs: seq<Proc>, caps: CapMap)
    requires Nested(scopes, procs)
  {
    && IsFixpoint(scopes, procs, caps) && (forall n :: n in caps ==> IsProc(procs, n))
    && (forall d: CapMap :: IsClosed(scopes, procs, d) ==> Below(procs, caps, d))
  }

  /** Round after round, until one changes nothing. */
  method Settle(scopes: seq<Scope>, procs: seq<Proc>) returns (caps: CapMap)
    requires Nested(scopes, procs) && ByName(procs)
    ensures IsLeastFixpoint(scopes, procs, caps)
  {
    hide Captures, IsProc, AllRefs, Room, Justified, Mentioned, IsClosed, Below, IsFixpoint;
    caps := map[];
    assert Invariant(scopes, procs, caps) by { StartHolds(scopes, procs); }
    var changed := true;
    while changed
      invariant Invariant(scopes, procs, caps)
      invariant !changed ==> IsFixpoint(scopes, procs, caps)
      decreases Room(procs, procs, caps), changed
    {
      caps, changed := Round(scopes, procs, caps);
    }
    OnlyProcs(scopes, procs, caps);
  }

  lemma OnlyProcs(scopes: seq<Scope>, procs: seq<Proc>, caps: CapMap)
    requires Nested(scopes, procs) && Justified(scopes, procs, caps)
    ensures forall n :: n in caps ==> IsProc(procs, n)
  {
  }

  /** One turn for every procedure; a round that changes nothing has found a fixpoint. */
  method Round(scopes: seq<Scope>, procs: seq<Proc>, before: CapMap) returns (caps: CapMap, changed: bool)
    requires Invariant(scopes, procs, before) && ByName(procs)
    ensures Invariant(scopes, procs, caps)
    ensures if changed then Room(procs, procs, caps) < Room(procs, procs, before) else caps == before && IsFixpoint(scopes, procs, caps)
  {
    hide Captures, IsProc, AllRefs, Room, Justified, Mentioned, IsClosed, Below;
    caps, changed := before, false;
    for i := 0 to |procs|
      invariant Invariant(scopes, procs, caps)
      invariant if changed then Room(procs, procs, caps) < Room(procs, procs, before) else caps == before
      invariant !changed ==> forall j, x :: 0 <= j < i ==> (x in CapsOf(caps, procs[j].name) <==> Captures(scopes, procs, caps, procs[j], x))
    {
      var cand := Candidates(procs, caps, procs[i]);
      var found := Filtered(scopes, procs[i].scope, cand);
      FoundIsRight(scopes, procs, caps, procs[i], cand, found);
      TurnKeeps(scopes, procs, caps, i, found);
      var differs := if procs[i].name in caps then caps[procs[i].name] != found else found != {};
      if differs {
        RoomShrinks(procs, procs, caps, procs[i].name, found);
        caps := caps[procs[i].name := found];
        changed := true;
      }
    }
  }

  lemma FoundIsRight(scopes: seq<Scope>, procs: seq<Proc>, caps: CapMap, p: Proc, cand: set<string>, found: set<string>)
    requires Tree(scopes) && p.scope < |scopes|
    requires forall x :: x in cand <==> Candidate(procs, caps, p, x)
    requires forall x :: x in found <==> x in cand && IsCapture(scopes, p.scope, x)
    ensures forall x :: x in found <==> Captures(scopes, procs, caps, p, x)
  {
  }

  lemma StartHolds(scopes: seq<Scope>, procs: seq<Proc>)
    requires Nested(scopes, procs)
    ensures Invariant(scopes, procs, map[])
  {
  }

  // ---- From declarations ------------------------------------------------------------------------------------

  /** A procedure's declaration: is it enclosed by another, what does its body mention,
      and which scope is its own? */
  datatype Decl = Decl(name: string, nested: bool, refs: set<string>, own: ScopeId)

  /** The scopes analysis has kept, one for a name. */
  type ScopeTable = map<string, ScopeId>

  function NestedOnly(decls: seq<Decl>): seq<Decl> {
    if decls == [] then []
    else NestedOnly(decls[..|decls| - 1]) + if decls[|decls| - 1].nested then [decls[|decls| - 1]] else []
  }

  /** A later body takes the place of an earlier one of the same name. */
  function KeptRefs(ds: seq<Decl>, n: string): set<string> {
    if ds == [] then {}
    else if ds[|ds| - 1].name == n then ds[|ds| - 1].refs
    else KeptRefs(ds[..|ds| - 1], n)
  }

  ghost predicate Analysed(scopes: seq<Scope>, table: ScopeTable, ds: seq<Decl>) {
    Tree(scopes) && forall d :: d in ds ==> d.name in table && table[d.name] < |scopes| && d.own < |scopes|
  }

  function Kept(table: ScopeTable, ds: seq<Decl>): (procs: seq<Proc>)
    requires forall d :: d in ds ==> d.name in table
    ensures |procs| == |ds|
    ensures forall i :: 0 <= i < |ds| ==> procs[i] == Proc(ds[i].name, table[ds[i].name], KeptRefs(ds, ds[i].name))
  {
    seq(|ds|, i requires 0 <= i < |ds| => Proc(ds[i].name, table[ds[i].name], KeptRefs(ds, ds[i].name)))
  }

  lemma {:induction false} NestedIsPart(decls: seq<Decl>)
    ensures forall d :: d in NestedOnly(decls) ==> d in decls
    decreases |decls|
  {
    if decls != [] {
      NestedIsPart(decls[..|decls| - 1]);
    }
  }

  ghost predicate IsNamed(ds: seq<Decl>, n: string) {
    exists i :: 0 <= i < |ds| && ds[i].name == n
  }

  /** The nested procedures in order, and the names their bodies mention, by name. */
  method Collect(decls: seq<Decl>) returns (ds: seq<Decl>, refs: map<string, set<string>>)
    ensures ds == NestedOnly(decls)
    ensures forall n :: IsNamed(ds, n) ==> n in refs && refs[n] == KeptRefs(ds, n)
  {
    ds, refs := [], map[];
    for i := 0 to |decls|
      invariant ds == NestedOnly(decls[..i])
      invariant forall n :: IsNamed(ds, n) ==> n in refs && refs[n] == KeptRefs(ds, n)
    {
      assert decls[..i + 1][..i] == decls[..i];
      if decls[i].nested {
        NamedMore(ds, decls[i]);
        ds := ds + [decls[i]];
        refs := refs[decls[i].name := decls[i].refs];
      }
    }
    assert decls[..|decls|] == decls;
  }

  lemma NamedMore(ds: seq<Decl>, d: Decl)
    ensures forall n :: IsNamed(ds + [d], n) && n != d.name ==> IsNamed(ds, n)
    ensures forall n :: KeptRefs(ds + [d], n) == if n == d.name then d.refs else KeptRefs(ds, n)
  {
    assert (ds + [d])[..|ds|] == ds;
  }

  /** Whatever names the procedures have, the computation ends with the least map that
      gives every name what the others' captures ask for: told of the declarations, those
      and only those variables that a chain of calls leads to. */
  method ComputeCaptures(scopes: seq<Scope>, table: ScopeTable, decls: seq<Decl>) returns (caps: CapMap)
    requires Analysed(scopes, table, decls)
    ensures Analysed(scopes, table, NestedOnly(decls))
    ensures IsLeastFixpoint(scopes, Kept(table, NestedOnly(decls)), caps)
    ensures GivesChained(scopes, table, decls, caps)
  {
    hide KeptRefs, IsLeastFixpoint, GivesChained;
    NestedIsPart(decls);
    var ds, refs := Collect(decls);
    var procs: seq<Proc> := [];
    for i := 0 to |ds|
      invariant procs == Kept(table, ds)[..i]
    {
      assert ds[i] in ds && IsNamed(ds, ds[i].name);
      procs := procs + [Proc(ds[i].name, table[ds[i].name], refs[ds[i].name])];
    }
    assert procs == Kept(table, ds);
    KeptIsNested(scopes, table, ds);
    caps := Settle(scopes, procs);
    FixpointGivesChained(scopes, table, decls, caps);
  }

  // ---- Captures as chains of calls ----------------------------------------------------------------------------

  /** `p` reaches a body that mentions `x` over the calls in `path`, and from every
      procedure on the way `x` is a variable further out. */
  ghost predicate Needs(scopes: seq<Scope>, procs: seq<Proc>, p: Proc, x: string, path: seq<nat>)
    requires Nested(scopes, procs) && p.scope < |scopes|
    decreases |path|
  {
    && IsCapture(scopes, p.scope, x)
    && if path == [] then x in p.refs
       else path[0] < |procs| && procs[path[0]].name in p.refs && Needs(scopes, procs, procs[path[0]], x, path[1..])
  }

  ghost predicate Needed(scopes: seq<Scope>, procs: seq<Proc>, p: Proc, x: string)
    requires Nested(scopes, procs) && p.scope < |scopes|
  {
    exists path :: Needs(scopes, procs, p, x, path)
  }

  lemma {:induction false} NeedsIsCaptured(scopes: seq<Scope>, procs: seq<Proc>, caps: CapMap, p: Proc, x: string, path: seq<nat>)
    requires Nested(scopes, procs) && IsClosed(scopes, procs, caps) && p.scope < |scopes| && Needs(scopes, procs, p, x, path)
    ensures Captures(scopes, procs, caps, p, x)
    decreases |path|
  {
    hide IsCapture;
    if path != [] {
      var q := procs[path[0]];
      NeedsIsCaptured(scopes, procs, caps, q, x, path[1..]);
      assert x in CapsOf(caps, q.name);
    }
  }

  lemma {:induction false} NeedsIsMentioned(scopes: seq<Scope>, procs: seq<Proc>, i: nat, x: string, path: seq<nat>)
    requires Nested(scopes, procs) && i < |procs| && Needs(scopes, procs, procs[i], x, path)
    ensures x in AllRefs(procs)
    decreases |path|
  {
    hide IsCapture;
    if path == [] {
      RefsIn(procs, i);
    } else {
      NeedsIsMentioned(scopes, procs, path[0], x, path[1..]);
    }
  }

  /** What all procedures of the name need. */
  ghost function NeededBy(scopes: seq<Scope>, procs: seq<Proc>, n: string): set<string>
    requires Nested(scopes, procs)
  {
    set x | x in AllRefs(procs) && exists i :: 0 <= i < |procs| && procs[i].name == n && Needed(scopes, procs, procs[i], x)
  }

  function Names(procs: seq<Proc>): set<string> { set p | p in procs :: p.name }

  lemma ChainsAreClosed(scopes: seq<Scope>, procs: seq<Proc>, d: CapMap)
    requires Nested(scopes, procs) && d == map n | n in Names(procs) :: NeededBy(scopes, procs, n)
    ensures IsClosed(scopes, procs, d)
  {
    hide IsCapture, AllRefs;
    forall i, x | 0 <= i < |procs| && Captures(scopes, procs, d, procs[i], x)
      ensures x in CapsOf(d, procs[i].name)
    {
      var p := procs[i];
      var path: seq<nat> := [];
      if x !in p.refs {
        var n :| n in p.refs && IsProc(procs, n) && x in CapsOf(d, n);
        var j :| 0 <= j < |procs| && procs[j].name == n && Needed(scopes, procs, procs[j], x);
        var more :| Needs(scopes, procs, procs[j], x, more);
        path := [j] + more;
        assert path[1..] == more;
      }
      assert Needs(scopes, procs, p, x, path);
      NeedsIsMentioned(scopes, procs, i, x, path);
      assert p.name in Names(procs);
    }
  }

  /** There is a least fixpoint: the map of what is needed. */
  lemma LeastExists(scopes: seq<Scope>, procs: seq<Proc>) returns (d: CapMap)
    requires Nested(scopes, procs) && ByName(procs)
    ensures IsLeastFixpoint(scopes, procs, d)
  {
    hide IsCapture, AllRefs;
    d := map n | n in Names(procs) :: NeededBy(scopes, procs, n);
    ChainsAreClosed(scopes, procs, d);
    forall i, x | 0 <= i < |procs| && x in CapsOf(d, procs[i].name)
      ensures Captures(scopes, procs, d, procs[i], x)
    {
      var j :| 0 <= j < |procs| && procs[j].name == procs[i].name && Needed(scopes, procs, procs[j], x);
      var path :| Needs(scopes, procs, procs[j], x, path);
      NeedsIsCaptured(scopes, procs, d, procs[j], x, path);
    }
    forall e: CapMap | IsClosed(scopes, procs, e)
      ensures Below(procs, d, e)
    {
      NeededBelow(scopes, procs, d, e);
    }
  }

  lemma NeededBelow(scopes: seq<Scope>, procs: seq<Proc>, d: CapMap, e: CapMap)
    requires Nested(scopes, procs) && IsClosed(scopes, procs, e)
    requires d == map n | n in Names(procs) :: NeededBy(scopes, procs, n)
    ensures Below(procs, d, e)
  {
    hide IsCapture, AllRefs;
    forall i, x | 0 <= i < |procs| && x in CapsOf(d, procs[i].name)
      ensures x in CapsOf(e, procs[i].name)
    {
      var j :| 0 <= j < |procs| && procs[j].name == procs[i].name && Needed(scopes, procs, procs[j], x);
      var path :| Needs(scopes, procs, procs[j], x, path);
      NeedsIsCaptured(scopes, procs, e, procs[j], x, path);
    }
  }

  /** The least fixpoint, told without one: a procedure captures `x` exactly when a chain of
      calls leads from it to a body that mentions `x`, past no declaration of `x` nearer
      than an enclosing procedure's variable. */
  lemma CapturedIffNeeded(scopes: seq<Scope>, procs: seq<Proc>, caps: CapMap, i: nat, x: string)
    requires Nested(scopes, procs) && ByName(procs) && IsLeastFixpoint(scopes, procs, caps) && i < |procs|
    ensures x in CapsOf(caps, procs[i].name) <==> Needed(scopes, procs, procs[i], x)
  {
    hide IsCapture, AllRefs;
    var d := map n | n in Names(procs) :: NeededBy(scopes, procs, n);
    ChainsAreClosed(scopes, procs, d);
    assert Below(procs, caps, d);
    if path :| Needs(scopes, procs, procs[i], x, path) {
      NeedsIsCaptured(scopes, procs, caps, procs[i], x, path);
    }
  }

  // ---- Procedures that share a name ----------------------------------------------------------------------------

  /** The declaration itself, with the scope and the body it has. */
  function Itself(d: Decl): Proc { Proc(d.name, d.own, d.refs) }

  /** Every body is given just what its own mentions and calls need from its own place. */
  ghost predicate OwnCaptures(scopes: seq<Scope>, table: ScopeTable, ds: seq<Decl>, caps: CapMap)
    requires Analysed(scopes, table, ds)
  {
    forall i, x :: 0 <= i < |ds| ==> (x in CapsOf(caps, ds[i].name) <==> Needed(scopes, Kept(table, ds), Itself(ds[i]), x))
  }

  /** The same procedures with other bodies. */
  function WithBodies(ds: seq<Decl>, bodies: seq<set<string>>): (r: seq<Decl>)
    requires |bodies| == |ds|
    ensures |r| == |ds| && forall i :: 0 <= i < |ds| ==> r[i] == ds[i].(refs := bodies[i])
  {
    seq(|ds|, i requires 0 <= i < |ds| => ds[i].(refs := bodies[i]))
  }

  /** Is declaration `i` the last of its name? */
  predicate IsLast(ds: seq<Decl>, i: nat)
    requires i < |ds|
  {
    forall j :: i < j < |ds| ==> ds[j].name != ds[i].name
  }

  /** A declaration that is the last of its name sees the same variables further out as
      the scope kept for the name; one that is not, and the scope kept, see none. */
  ghost predicate SafelyNamed(scopes: seq<Scope>, table: ScopeTable, ds: seq<Decl>)
    requires Analysed(scopes, table, ds)
  {
    forall i, x :: 0 <= i < |ds| ==>
      if IsLast(ds, i) then IsCapture(scopes, ds[i].own, x) == IsCapture(scopes, KeptScope(table, ds, i), x)
      else !IsCapture(scopes, ds[i].own, x) && !IsCapture(scopes, KeptScope(table, ds, i), x)
  }

  function KeptScope(table: ScopeTable, ds: seq<Decl>, i: nat): ScopeId
    requires i < |ds| && forall d :: d in ds ==> d.name in table
  {
    assert ds[i] in ds;
    table[ds[i].name]
  }

  lemma {:induction false} LastIsKept(ds: seq<Decl>, i: nat)
    requires i < |ds| && IsLast(ds, i)
    ensures KeptRefs(ds, ds[i].name) == ds[i].refs
    decreases |ds|
  {
    if i < |ds| - 1 {
      var init := ds[..|ds| - 1];
      assert forall j :: i < j < |init| ==> init[j] == ds[j];
      LastIsKept(init, i);
    }
  }

  lemma {:induction false} SomeLast(ds: seq<Decl>, i: nat) returns (k: nat)
    requires i < |ds|
    ensures i <= k < |ds| && ds[k].name == ds[i].name && IsLast(ds, k)
    decreases |ds| - i
  {
    if IsLast(ds, i) {
      k := i;
    } else {
      var j :| i < j < |ds| && ds[j].name == ds[i].name;
      k := SomeLast(ds, j);
    }
  }

  lemma KeptIsNested(scopes: seq<Scope>, table: ScopeTable, ds: seq<Decl>)
    requires Analysed(scopes, table, ds)
    ensures Nested(scopes, Kept(table, ds)) && ByName(Kept(table, ds))
  {
    forall i | 0 <= i < |ds|
      ensures table[ds[i].name] < |scopes|
    {
      assert ds[i] in ds;
    }
  }

  /** Another place from which the same variables are seen. */
  lemma NeedsFromThere(scopes: seq<Scope>, procs: seq<Proc>, p: Proc, q: Proc, x: string)
    requires Nested(scopes, procs) && p.scope < |scopes| && q.scope < |scopes|
    requires IsCapture(scopes, p.scope, x) == IsCapture(scopes, q.scope, x) && (p.refs == q.refs || !IsCapture(scopes, p.scope, x))
    ensures Needed(scopes, procs, p, x) == Needed(scopes, procs, q, x)
  {
    hide IsCapture;
    if path :| Needs(scopes, procs, p, x, path) {
      assert Needs(scopes, procs, q, x, path);
    }
    if path :| Needs(scopes, procs, q, x, path) {
      assert Needs(scopes, procs, p, x, path);
    }
  }

  lemma SafeNamesGiveOwn(scopes: seq<Scope>, table: ScopeTable, ds: seq<Decl>, caps: CapMap)
    requires Analysed(scopes, table, ds) && Nested(scopes, Kept(table, ds)) && SafelyNamed(scopes, table, ds)
    requires IsLeastFixpoint(scopes, Kept(table, ds), caps)
    ensures OwnCaptures(scopes, table, ds, caps)
  {
    hide IsCapture, Needed, IsLeastFixpoint, KeptRefs;
    KeptIsNested(scopes, table, ds);
    var procs := Kept(table, ds);
    forall i, x | 0 <= i < |ds|
      ensures x in CapsOf(caps, ds[i].name) <==> Needed(scopes, procs, Itself(ds[i]), x)
    {
      assert ds[i] in ds;
      CapturedIffNeeded(scopes, procs, caps, i, x);
      assert procs[i].scope == KeptScope(table, ds, i);
      if IsLast(ds, i) {
        LastIsKept(ds, i);
      }
      NeedsFromThere(scopes, procs, Itself(ds[i]), procs[i], x);
    }
  }

  /** Bodies that mention nothing, but for one that mentions `x`. */
  function OneBody(n: nat, i: nat, x: string): (r: seq<set<string>>)
    ensures |r| == n && forall j :: 0 <= j < n ==> r[j] == if j == i then {x} else {}
  {
    seq(n, j => if j == i then {x} else {})
  }

  lemma OneBodyNeeds(scopes: seq<Scope>, procs: seq<Proc>, p: Proc, x: string)
    requires Nested(scopes, procs) && p.scope < |scopes|
    ensures p.refs == {} ==> !Needed(scopes, procs, p, x)
    ensures p.refs == {x} && IsCapture(scopes, p.scope, x) ==> Needed(scopes, procs, p, x)
    ensures !IsCapture(scopes, p.scope, x) ==> !Needed(scopes, procs, p, x)
  {
    if p.refs == {x} && IsCapture(scopes, p.scope, x) {
      assert Needs(scopes, procs, p, x, []);
    }
  }

  /** Procedures are given their own captures whatever their bodies mention, if and only
      if those that share a name see no variable of an enclosing procedure, and the others
      see the ones their kept scope sees. */
  lemma SharedNamesIff(scopes: seq<Scope>, table: ScopeTable, ds: seq<Decl>)
    requires Analysed(scopes, table, ds)
    ensures SafelyNamed(scopes, table, ds) <==>
            forall bodies: seq<set<string>>, caps: CapMap :: |bodies| == |ds| && Finds(scopes, table, WithBodies(ds, bodies), caps) ==>
              GivesOwn(scopes, table, WithBodies(ds, bodies), caps)
  {
    hide IsCapture, Finds, GivesOwn, SafelyNamed;
    if SafelyNamed(scopes, table, ds) {
      forall bodies: seq<set<string>>, caps: CapMap | |bodies| == |ds| && Finds(scopes, table, WithBodies(ds, bodies), caps)
        ensures GivesOwn(scopes, table, WithBodies(ds, bodies), caps)
      {
        SafeWithBodies(scopes, table, ds, bodies, caps);
      }
    } else {
      var bodies, caps := UnsafeBodies(scopes, table, ds);
    }
  }

  /** `caps` is what the computation returns for these declarations. */
  ghost predicate Finds(scopes: seq<Scope>, table: ScopeTable, ds: seq<Decl>, caps: CapMap) {
    Analysed(scopes, table, ds) && Nested(scopes, Kept(table, ds)) && IsLeastFixpoint(scopes, Kept(table, ds), caps)
  }

  ghost predicate GivesOwn(scopes: seq<Scope>, table: ScopeTable, ds: seq<Decl>, caps: CapMap) {
    Analysed(scopes, table, ds) && OwnCaptures(scopes, table, ds, caps)
  }

  lemma SafeWithBodies(scopes: seq<Scope>, table: ScopeTable, ds: seq<Decl>, bodies: seq<set<string>>, caps: CapMap)
    requires Analysed(scopes, table, ds) && SafelyNamed(scopes, table, ds)
    requires |bodies| == |ds| && Finds(scopes, table, WithBodies(ds, bodies), caps)
    ensures GivesOwn(scopes, table, WithBodies(ds, bodies), caps)
  {
    hide IsCapture, IsLeastFixpoint, OwnCaptures;
    var es := WithBodies(ds, bodies);
    SameHeads(scopes, table, ds, es);
    SafeNamesGiveOwn(scopes, table, es, caps);
  }

  lemma SameHeads(scopes: seq<Scope>, table: ScopeTable, ds: seq<Decl>, es: seq<Decl>)
    requires Analysed(scopes, table, ds) && |es| == |ds|
    requires forall i :: 0 <= i < |ds| ==> es[i].name == ds[i].name && es[i].own == ds[i].own
    ensures Analysed(scopes, table, es) && (SafelyNamed(scopes, table, es) <==> SafelyNamed(scopes, table, ds))
    ensures forall i :: 0 <= i < |ds| ==> IsLast(es, i) == IsLast(ds, i)
  {
    hide IsCapture;
    forall d | d in es
      ensures d.name in table && table[d.name] < |scopes| && d.own < |scopes|
    {
      var i :| 0 <= i < |es| && es[i] == d;
      assert ds[i] in ds;
    }
    forall i | 0 <= i < |ds|
      ensures IsLast(es, i) == IsLast(ds, i) && KeptScope(table, es, i) == KeptScope(table, ds, i)
    {
    }
  }

  lemma UnsafeBodies(scopes: seq<Scope>, table: ScopeTable, ds: seq<Decl>) returns (bodies: seq<set<string>>, caps: CapMap)
    requires Analysed(scopes, table, ds) && !SafelyNamed(scopes, table, ds)
    ensures |bodies| == |ds| && Finds(scopes, table, WithBodies(ds, bodies), caps) && !GivesOwn(scopes, table, WithBodies(ds, bodies), caps)
  {
    hide IsCapture, Needed, IsLeastFixpoint;
    var i, x :| 0 <= i < |ds| && !(
      if IsLast(ds, i) then IsCapture(scopes, ds[i].own, x) == IsCapture(scopes, KeptScope(table, ds, i), x)
      else !IsCapture(scopes, ds[i].own, x) && !IsCapture(scopes, KeptScope(table, ds, i), x));
    assert ds[i] in ds;
    var k := SomeLast(ds, i);
    var m := if IsCapture(scopes, ds[i].own, x) then i else k;
    bodies := OneBody(|ds|, m, x);
    var es := WithBodies(ds, bodies);
    SameHeads(scopes, table, ds, es);
    KeptIsNested(scopes, table, es);
    var procs := Kept(table, es);
    caps := LeastExists(scopes, procs);
    LastIsKept(es, k);
    OneBodyNeeds(scopes, procs, procs[i], x);
    OneBodyNeeds(scopes, procs, Itself(es[i]), x);
    CapturedIffNeeded(scopes, procs, caps, i, x);
    assert x in CapsOf(caps, es[i].name) <==> !Needed(scopes, procs, Itself(es[i]), x);
  }

  /** A procedure that is not nested shares no name with a nested one, or with one that
      sees no variable of an enclosing procedure. */
  ghost predicate SafeOutside(scopes: seq<Scope>, table: ScopeTable, ds: seq<Decl>, n: string)
    requires Analysed(scopes, table, ds)
  {
    forall i, x :: 0 <= i < |ds| && ds[i].name == n ==> !IsCapture(scopes, KeptScope(table, ds, i), x)
  }

  /** Whatever the nested procedures `ds` mention, the name has no captures. */
  ghost predicate NeverGiven(scopes: seq<Scope>, table: ScopeTable, ds: seq<Decl>, n: string) {
    forall bodies: seq<set<string>>, caps: CapMap :: |bodies| == |ds| && Finds(scopes, table, WithBodies(ds, bodies), caps) ==> CapsOf(caps, n) == {}
  }

  lemma OutsideIff(scopes: seq<Scope>, table: ScopeTable, ds: seq<Decl>, n: string)
    requires Analysed(scopes, table, ds)
    ensures NeverGiven(scopes, table, ds, n) <==> SafeOutside(scopes, table, ds, n)
  {
    hide IsCapture, Finds;
    if SafeOutside(scopes, table, ds, n) {
      forall bodies: seq<set<string>>, caps: CapMap | |bodies| == |ds| && Finds(scopes, table, WithBodies(ds, bodies), caps)
        ensures CapsOf(caps, n) == {}
      {
        NothingGiven(scopes, table, ds, bodies, caps, n);
      }
    } else {
      var bodies, caps := SomethingGiven(scopes, table, ds, n);
    }
  }

  lemma NothingGiven(scopes: seq<Scope>, table: ScopeTable, ds: seq<Decl>, bodies: seq<set<string>>, caps: CapMap, n: string)
    requires Analysed(scopes, table, ds) && SafeOutside(scopes, table, ds, n)
    requires |bodies| == |ds| && Finds(scopes, table, WithBodies(ds, bodies), caps)
    ensures CapsOf(caps, n) == {}
  {
    hide IsCapture, Needed, KeptRefs;
    var es := WithBodies(ds, bodies);
    var procs := Kept(table, es);
    KeptIsNested(scopes, table, es);
    forall i, x | 0 <= i < |procs| && procs[i].name == n
      ensures x !in CapsOf(caps, n)
    {
      CapturedIffNeeded(scopes, procs, caps, i, x);
      assert procs[i].scope == KeptScope(table, ds, i);
      OneBodyNeeds(scopes, procs, procs[i], x);
    }
    assert n in caps ==> IsProc(procs, n);
  }

  lemma SomethingGiven(scopes: seq<Scope>, table: ScopeTable, ds: seq<Decl>, n: string) returns (bodies: seq<set<string>>, caps: CapMap)
    requires Analysed(scopes, table, ds) && !SafeOutside(scopes, table, ds, n)
    ensures |bodies| == |ds| && Finds(scopes, table, WithBodies(ds, bodies), caps) && CapsOf(caps, n) != {}
  {
    hide IsCapture, Needed, IsLeastFixpoint;
    var i, x :| 0 <= i < |ds| && ds[i].name == n && IsCapture(scopes, KeptScope(table, ds, i), x);
    var k := SomeLast(ds, i);
    bodies := OneBody(|ds|, k, x);
    var es := WithBodies(ds, bodies);
    SameHeads(scopes, table, ds, es);
    KeptIsNested(scopes, table, es);
    var procs := Kept(table, es);
    caps := LeastExists(scopes, procs);
    LastIsKept(es, k);
    OneBodyNeeds(scopes, procs, procs[k], x);
    CapturedIffNeeded(scopes, procs, caps, k, x);
  }

  /** All procedures of a module, nested or not, are given their own captures, and those
      that are not nested none, whatever the bodies, if and only if their names are safe. */
  lemma AllNamesIff(scopes: seq<Scope>, table: ScopeTable, decls: seq<Decl>)
    requires Analysed(scopes, table, decls) && Analysed(scopes, table, NestedOnly(decls))
    ensures var ds := NestedOnly(decls);
            SafelyNamed(scopes, table, ds) && (forall d :: d in decls && !d.nested ==> SafeOutside(scopes, table, ds, d.name)) <==>
            forall bodies: seq<set<string>>, caps: CapMap :: |bodies| == |ds| && Finds(scopes, table, WithBodies(ds, bodies), caps) ==>
              GivesOwn(scopes, table, WithBodies(ds, bodies), caps) && forall d :: d in decls && !d.nested ==> CapsOf(caps, d.name) == {}
  {
    hide IsCapture, Finds, GivesOwn, SafelyNamed, SafeOutside, Analysed, NestedOnly;
    var ds := NestedOnly(decls);
    SharedNamesIff(scopes, table, ds);
    forall d | d in decls && !d.nested
      ensures NeverGiven(scopes, table, ds, d.name) <==> SafeOutside(scopes, table, ds, d.name)
    {
      OutsideIff(scopes, table, ds, d.name);
    }
  }

  /** Two procedures N, one in P, which mentions the variable `v` of P, one in Q, which
      mentions nothing: the first is not given `v`. */
  lemma SharedNameGoesWrong(caps: CapMap)
    requires Finds(TwoNested(), map["N" := 4], [Decl("N", true, {"v"}, 2), Decl("N", true, {}, 4)], caps)
    ensures var ds := [Decl("N", true, {"v"}, 2), Decl("N", true, {}, 4)];
            "v" !in CapsOf(caps, "N") && IsCapture(TwoNested(), 2, "v") && !GivesOwn(TwoNested(), map["N" := 4], ds, caps)
  {
    hide IsLeastFixpoint;
    var (scopes, table) := (TwoNested(), map["N" := 4]);
    var ds := [Decl("N", true, {"v"}, 2), Decl("N", true, {}, 4)];
    SeenInP();
    KeptIsNested(scopes, table, ds);
    CapturedIffNeeded(scopes, Kept(table, ds), caps, 0, "v");
    assert ds[0].name == "N" && Needs(scopes, Kept(table, ds), Itself(ds[0]), "v", []);
  }

  /** The module, P with its variable, N in P, Q, N in Q. */
  function TwoNested(): seq<Scope> {
    [Scope(ModuleScope, map[], None), Scope(ProcedureScope, map["v" := VarSymbol], Some(0)),
     Scope(ProcedureScope, map[], Some(1)), Scope(ProcedureScope, map[], Some(0)), Scope(ProcedureScope, map[], Some(3))]
  }

  lemma SeenInP()
    ensures Tree(TwoNested()) && IsCapture(TwoNested(), 2, "v") && !IsCapture(TwoNested(), 4, "v")
  {
    var scopes := TwoNested();
    assert Lookup(scopes, 1, "v") == Some(1) && Lookup(scopes, 0, "v").None?;
    assert Lookup(scopes, 3, "v").None?;
  }

  // ---- Told of the declarations ---------------------------------------------------------------------------------

  /** `a` is the nearest scope around `own` that declares `x`: a procedure's, further out,
      and `x` is a variable there. */
  ghost predicate SeenAt(scopes: seq<Scope>, own: ScopeId, x: string, a: ScopeId)
    requires Tree(scopes) && own < |scopes|
  {
    && a < |scopes| && a != own && Ancestor(scopes, a, own)
    && scopes[a].kind == ProcedureScope && x in scopes[a].symbols && scopes[a].symbols[x] == VarSymbol
    && forall b: ScopeId :: b < |scopes| && Ancestor(scopes, b, own) && x in scopes[b].symbols ==> Ancestor(scopes, b, a)
  }

  ghost predicate Seen(scopes: seq<Scope>, own: ScopeId, x: string)
    requires Tree(scopes) && own < |scopes|
  {
    exists a :: SeenAt(scopes, own, x, a)
  }

  lemma {:induction false} LookupIsNearest(scopes: seq<Scope>, s: ScopeId, x: string, b: ScopeId)
    requires Tree(scopes) && s < |scopes| && b < |scopes| && Ancestor(scopes, b, s) && x in scopes[b].symbols
    ensures Lookup(scopes, s, x).Some? && Ancestor(scopes, b, Lookup(scopes, s, x).value)
    decreases s
  {
    if x !in scopes[s].symbols {
      LookupIsNearest(scopes, scopes[s].parent.value, x, b);
    }
  }

  lemma {:induction false} AncestorsMeet(scopes: seq<Scope>, a: ScopeId, b: ScopeId)
    requires Tree(scopes) && a < |scopes| && b < |scopes| && Ancestor(scopes, a, b) && Ancestor(scopes, b, a)
    ensures a == b
  {
    AncestorBefore(scopes, a, b);
    AncestorBefore(scopes, b, a);
  }

  /** What is captured, without any walk. */
  lemma CaptureIsSeen(scopes: seq<Scope>, own: ScopeId, x: string)
    requires Tree(scopes) && own < |scopes|
    ensures IsCapture(scopes, own, x) <==> Seen(scopes, own, x)
  {
    var d := Lookup(scopes, own, x);
    if d.Some? {
      LookupIsAncestor(scopes, own, x);
      forall b: ScopeId | b < |scopes| && Ancestor(scopes, b, own) && x in scopes[b].symbols
        ensures Ancestor(scopes, b, d.value)
      {
        LookupIsNearest(scopes, own, x, b);
      }
      if IsCapture(scopes, own, x) {
        assert SeenAt(scopes, own, x, d.value);
      }
    }
    if a :| SeenAt(scopes, own, x, a) {
      LookupIsNearest(scopes, own, x, a);
      AncestorsMeet(scopes, a, d.value);
    }
  }

  /** A nested procedure, and none behind it of its name is. */
  ghost predicate LastNested(decls: seq<Decl>, i: nat) {
    && i < |decls| && decls[i].nested
    && forall j :: i < j < |decls| && decls[j].nested ==> decls[j].name != decls[i].name
  }

  /** Calls lead from procedure `i` over `path` to a body that mentions `x`, and every
      procedure on the way sees the variable `x` of one around it. */
  ghost predicate ChainTo(scopes: seq<Scope>, table: ScopeTable, decls: seq<Decl>, i: nat, x: string, path: seq<nat>)
    requires Analysed(scopes, table, decls)
    decreases |path|
  {
    && LastNested(decls, i) && Seen(scopes, KeptScope(table, decls, i), x)
    && if path == [] then x in decls[i].refs
       else path[0] < |decls| && decls[path[0]].name in decls[i].refs && ChainTo(scopes, table, decls, path[0], x, path[1..])
  }

  /** Nested procedures and no others have captures, and just what chains lead to. */
  ghost predicate GivesChained(scopes: seq<Scope>, table: ScopeTable, decls: seq<Decl>, caps: CapMap)
    requires Analysed(scopes, table, decls)
  {
    && (forall n :: n in caps ==> exists i :: 0 <= i < |decls| && decls[i].nested && decls[i].name == n)
    && forall i: nat, x :: LastNested(decls, i) ==>
         (x in CapsOf(caps, decls[i].name) <==> exists path :: ChainTo(scopes, table, decls, i, x, path))
  }

  /** Where the nested procedures stand in all. */
  ghost predicate Positions(decls: seq<Decl>, ds: seq<Decl>, ps: seq<nat>) {
    && |ps| == |ds| && (forall j, k :: 0 <= j < k < |ps| ==> ps[j] < ps[k])
    && (forall j :: 0 <= j < |ps| ==> ps[j] < |decls| && ds[j] == decls[ps[j]] && decls[ps[j]].nested)
    && (forall i: nat :: i < |decls| && decls[i].nested ==> i in ps)
  }

  /** The procedures computed for are the nested ones, each once, in order. */
  lemma {:induction false} NestedPositions(decls: seq<Decl>) returns (ps: seq<nat>)
    ensures Positions(decls, NestedOnly(decls), ps)
    decreases |decls|
  {
    if decls == [] {
      ps := [];
    } else {
      hide Positions;
      var (init, d) := (decls[..|decls| - 1], decls[|decls| - 1]);
      ps := NestedPositions(init);
      assert decls == init + [d];
      OneMorePosition(init, NestedOnly(init), ps, d);
      if d.nested {
        ps := ps + [|init|];
      }
    }
  }

  lemma OneMorePosition(init: seq<Decl>, ds: seq<Decl>, ps: seq<nat>, d: Decl)
    requires Positions(init, ds, ps)
    ensures d.nested ==> Positions(init + [d], ds + [d], ps + [|init|])
    ensures !d.nested ==> Positions(init + [d], ds + [], ps)
  {
    var decls := init + [d];
    assert ds + [] == ds;
    assert forall i :: 0 <= i < |init| ==> decls[i] == init[i];
    if d.nested {
      var qs := ps + [|init|];
      assert qs[|ps|] == |init|;
      forall i: nat | i < |decls| && decls[i].nested
        ensures i in qs
      {
        assert i < |init| ==> i in ps;
      }
    }
  }

  lemma LastThere(decls: seq<Decl>, ds: seq<Decl>, ps: seq<nat>, j: nat)
    requires Positions(decls, ds, ps) && j < |ds|
    ensures LastNested(decls, ps[j]) <==> IsLast(ds, j)
  {
    if IsLast(ds, j) {
      forall i: nat | ps[j] < i < |decls| && decls[i].nested
        ensures decls[i].name != ds[j].name
      {
        assert i in ps;
        var k :| 0 <= k < |ps| && ps[k] == i;
        assert k > j;
      }
    }
  }

  /** What the computation is given for a name is what the last procedure of the name says. */
  lemma KeptIsLast(scopes: seq<Scope>, table: ScopeTable, decls: seq<Decl>, ps: seq<nat>, j: nat) returns (k: nat)
    requires Analysed(scopes, table, decls) && Analysed(scopes, table, NestedOnly(decls)) && Positions(decls, NestedOnly(decls), ps) && j < |ps|
    ensures k < |ps| && LastNested(decls, ps[k]) && decls[ps[k]].name == decls[ps[j]].name
    ensures Kept(table, NestedOnly(decls))[j] == Proc(decls[ps[k]].name, KeptScope(table, decls, ps[k]), decls[ps[k]].refs)
  {
    var ds := NestedOnly(decls);
    k := SomeLast(ds, j);
    LastIsKept(ds, k);
    LastThere(decls, ds, ps, k);
  }

  lemma {:induction false} NeedsIsChain(scopes: seq<Scope>, table: ScopeTable, decls: seq<Decl>, ps: seq<nat>, j: nat, x: string, path: seq<nat>)
    returns (k: nat, chain: seq<nat>)
    requires Analysed(scopes, table, decls) && Analysed(scopes, table, NestedOnly(decls)) && Positions(decls, NestedOnly(decls), ps) && j < |ps|
    requires Nested(scopes, Kept(table, NestedOnly(decls))) && Needs(scopes, Kept(table, NestedOnly(decls)), Kept(table, NestedOnly(decls))[j], x, path)
    ensures k < |ps| && decls[ps[k]].name == decls[ps[j]].name && ChainTo(scopes, table, decls, ps[k], x, chain)
    decreases |path|
  {
    hide IsCapture, Seen, KeptRefs;
    k := KeptIsLast(scopes, table, decls, ps, j);
    CaptureIsSeen(scopes, KeptScope(table, decls, ps[k]), x);
    if path == [] {
      chain := [];
    } else {
      var next, more := NeedsIsChain(scopes, table, decls, ps, path[0], x, path[1..]);
      chain := [ps[next]] + more;
      assert chain[1..] == more;
    }
  }

  lemma {:induction false} ChainIsNeeds(scopes: seq<Scope>, table: ScopeTable, decls: seq<Decl>, ps: seq<nat>, j: nat, x: string, chain: seq<nat>)
    returns (path: seq<nat>)
    requires Analysed(scopes, table, decls) && Analysed(scopes, table, NestedOnly(decls)) && Positions(decls, NestedOnly(decls), ps) && j < |ps|
    requires Nested(scopes, Kept(table, NestedOnly(decls))) && ChainTo(scopes, table, decls, ps[j], x, chain)
    ensures Needs(scopes, Kept(table, NestedOnly(decls)), Kept(table, NestedOnly(decls))[j], x, path)
    decreases |chain|
  {
    hide IsCapture, Seen, KeptRefs;
    var ds := NestedOnly(decls);
    LastThere(decls, ds, ps, j);
    LastIsKept(ds, j);
    CaptureIsSeen(scopes, KeptScope(table, decls, ps[j]), x);
    if chain == [] {
      path := [];
    } else {
      assert chain[0] in ps;
      var next :| 0 <= next < |ps| && ps[next] == chain[0];
      var more := ChainIsNeeds(scopes, table, decls, ps, next, x, chain[1..]);
      path := [next] + more;
      assert path[1..] == more;
    }
  }

  lemma FixpointGivesChained(scopes: seq<Scope>, table: ScopeTable, decls: seq<Decl>, caps: CapMap)
    requires Analysed(scopes, table, decls) && Analysed(scopes, table, NestedOnly(decls))
    requires Nested(scopes, Kept(table, NestedOnly(decls))) && IsLeastFixpoint(scopes, Kept(table, NestedOnly(decls)), caps)
    ensures GivesChained(scopes, table, decls, caps)
  {
    hide Needs, ChainTo, KeptRefs, IsCapture, IsLeastFixpoint, NestedOnly, Needed;
    var ds := NestedOnly(decls);
    var procs := Kept(table, ds);
    var ps := NestedPositions(decls);
    KeptIsNested(scopes, table, ds);
    OnlyNestedGiven(scopes, table, decls, ps, caps);
    forall i: nat, x | LastNested(decls, i)
      ensures x in CapsOf(caps, decls[i].name) <==> exists path :: ChainTo(scopes, table, decls, i, x, path)
    {
      assert i in ps;
      var j :| 0 <= j < |ps| && ps[j] == i;
      CapturedIffNeeded(scopes, procs, caps, j, x);
      OneCaptured(scopes, table, decls, ps, j, x);
    }
  }

  lemma OnlyNestedGiven(scopes: seq<Scope>, table: ScopeTable, decls: seq<Decl>, ps: seq<nat>, caps: CapMap)
    requires Analysed(scopes, table, NestedOnly(decls)) && Positions(decls, NestedOnly(decls), ps)
    requires Nested(scopes, Kept(table, NestedOnly(decls))) && IsLeastFixpoint(scopes, Kept(table, NestedOnly(decls)), caps)
    ensures forall n :: n in caps ==> exists i :: 0 <= i < |decls| && decls[i].nested && decls[i].name == n
  {
    hide NestedOnly, KeptRefs, IsFixpoint, IsClosed, Below;
    var procs := Kept(table, NestedOnly(decls));
    forall n | n in caps
      ensures exists i :: 0 <= i < |decls| && decls[i].nested && decls[i].name == n
    {
      var j :| 0 <= j < |procs| && procs[j].name == n;
      assert decls[ps[j]].name == n;
    }
  }

  lemma OneCaptured(scopes: seq<Scope>, table: ScopeTable, decls: seq<Decl>, ps: seq<nat>, j: nat, x: string)
    requires Analysed(scopes, table, decls) && Analysed(scopes, table, NestedOnly(decls)) && Positions(decls, NestedOnly(decls), ps) && j < |ps|
    requires Nested(scopes, Kept(table, NestedOnly(decls))) && LastNested(decls, ps[j])
    ensures var procs := Kept(table, NestedOnly(decls));
            Needed(scopes, procs, procs[j], x) <==> exists path :: ChainTo(scopes, table, decls, ps[j], x, path)
  {
    hide Needs, ChainTo, KeptRefs, IsCapture;
    var procs := Kept(table, NestedOnly(decls));
    if path :| Needs(scopes, procs, procs[j], x, path) {
      var k, chain := NeedsIsChain(scopes, table, decls, ps, j, x, path);
      ChainIsLast(scopes, table, decls, ps[k], x, chain);
      assert ps[k] == ps[j];
    }
    if chain :| ChainTo(scopes, table, decls, ps[j], x, chain) {
      var path := ChainIsNeeds(scopes, table, decls, ps, j, x, chain);
    }
  }

  lemma ChainIsLast(scopes: seq<Scope>, table: ScopeTable, decls: seq<Decl>, i: nat, x: string, chain: seq<nat>)
    requires Analysed(scopes, table, decls) && ChainTo(scopes, table, decls, i, x, chain)
    ensures LastNested(decls, i)
  {
  }

  // ---- What a call passes along ------------------------------------------------------------------------------

  ghost predicate Ancestor(scopes: seq<Scope>, a: ScopeId, s: ScopeId)
    requires Tree(scopes) && s < |scopes|
    decreases s
  {
    a == s || (scopes[s].parent.Some? && Ancestor(scopes, a, scopes[s].parent.value))
  }

  /** A procedure can be called where its declaration is in sight. */
  ghost predicate Visible(scopes: seq<Scope>, caller: ScopeId, callee: ScopeId)
    requires Tree(scopes) && caller < |scopes| && callee < |scopes|
  {
    scopes[callee].parent.Some? && Ancestor(scopes, scopes[callee].parent.value, caller)
  }

  /** The variable a name stands for in a procedure's frame: its own, or one it was
      handed as a capture. None means the call passes NIL. */
  function FrameVariable(scopes: seq<Scope>, own: ScopeId, captured: set<string>, x: string): Option<ScopeId>
    requires Tree(scopes) && own < |scopes|
  {
    if x in scopes[own].symbols && scopes[own].symbols[x] == VarSymbol then Some(own)
    else if x in captured then Lookup(scopes, own, x)
    else None
  }

  /** Seen from further in, a name means the same, or something nearer that is declared
      in between. */
  lemma {:induction false} LookupFromInside(scopes: seq<Scope>, a: ScopeId, s: ScopeId, x: string)
    requires Tree(scopes) && s < |scopes| && a < |scopes| && Ancestor(scopes, a, s) && Lookup(scopes, a, x).Some?
    ensures a <= s && Lookup(scopes, s, x).Some?
    ensures Hidden(scopes, a, s, x) <==> Lookup(scopes, s, x) != Lookup(scopes, a, x)
    ensures Hidden(scopes, a, s, x) ==> Lookup(scopes, s, x).value > a
    decreases s
  {
    if a != s && x !in scopes[s].symbols {
      LookupFromInside(scopes, a, scopes[s].parent.value, x);
    } else if a != s {
      AncestorBefore(scopes, a, s);
    }
  }

  /** Is `x` declared anew between `s` and `a`, further out? */
  ghost predicate Hidden(scopes: seq<Scope>, a: ScopeId, s: ScopeId, x: string)
    requires Tree(scopes) && s < |scopes|
    decreases s
  {
    a != s && (x in scopes[s].symbols || (scopes[s].parent.Some? && Hidden(scopes, a, scopes[s].parent.value, x)))
  }

  lemma {:induction false} AncestorBefore(scopes: seq<Scope>, a: ScopeId, s: ScopeId)
    requires Tree(scopes) && s < |scopes| && Ancestor(scopes, a, s)
    ensures a <= s
    decreases s
  {
    if a != s {
      AncestorBefore(scopes, a, scopes[s].parent.value);
    }
  }

  /** Calls of one nested procedure by another, and a variable the callee captures. */
  ghost predicate Call(scopes: seq<Scope>, procs: seq<Proc>, caps: CapMap, p: nat, q: nat, x: string) {
    && Nested(scopes, procs) && IsFixpoint(scopes, procs, caps)
    && p < |procs| && q < |procs| && procs[q].name in procs[p].refs && Visible(scopes, procs[p].scope, procs[q].scope)
    && x in CapsOf(caps, procs[q].name)
  }

  /** What the caller means by the name it passes: its own variable, one it was handed, or nothing. */
  lemma CallPasses(scopes: seq<Scope>, procs: seq<Proc>, caps: CapMap, p: nat, q: nat, x: string)
    requires Call(scopes, procs, caps, p, q, x)
    ensures var (own, d) := (procs[p].scope, Lookup(scopes, procs[p].scope, x));
            && Lookup(scopes, procs[q].scope, x).Some? && d.Some?
            && FrameVariable(scopes, own, CapsOf(caps, procs[p].name), x) ==
               (if scopes[d.value].symbols[x] == VarSymbol && (d.value == own || scopes[d.value].kind == ProcedureScope) then d else None)
            && (d == Lookup(scopes, procs[q].scope, x) <==> !Hidden(scopes, scopes[procs[q].scope].parent.value, own, x))
  {
    var (own, callee) := (procs[p].scope, procs[q].scope);
    assert Captures(scopes, procs, caps, procs[q], x);
    var a := scopes[callee].parent.value;
    assert Lookup(scopes, callee, x) == Lookup(scopes, a, x);
    LookupFromInside(scopes, a, own, x);
    assert IsProc(procs, procs[q].name);
    assert Candidate(procs, caps, procs[p], x);
    assert Captures(scopes, procs, caps, procs[p], x) <==> x in CapsOf(caps, procs[p].name);
  }

  /** A call hands over the variable the callee means if and only if the name is not
      declared anew between the caller and where the callee is declared. */
  lemma CallPassesCapture(scopes: seq<Scope>, procs: seq<Proc>, caps: CapMap, p: nat, q: nat, x: string)
    requires Call(scopes, procs, caps, p, q, x)
    ensures Lookup(scopes, procs[q].scope, x).Some?
    ensures FrameVariable(scopes, procs[p].scope, CapsOf(caps, procs[p].name), x) == Lookup(scopes, procs[q].scope, x)
            <==> !Hidden(scopes, scopes[procs[q].scope].parent.value, procs[p].scope, x)
  {
    CallPasses(scopes, procs, caps, p, q, x);
    assert Captures(scopes, procs, caps, procs[q], x);
  }

  /** It hands over NIL if and only if the nearest declaration of the name, as the caller
      sees it, is no variable of the caller or a procedure around it. */
  lemma CallPassesNilIff(scopes: seq<Scope>, procs: seq<Proc>, caps: CapMap, p: nat, q: nat, x: string)
    requires Call(scopes, procs, caps, p, q, x)
    ensures FrameVariable(scopes, procs[p].scope, CapsOf(caps, procs[p].name), x).None? <==>
            var (own, d) := (procs[p].scope, Lookup(scopes, procs[p].scope, x));
            d.None? || scopes[d.value].symbols[x] != VarSymbol || (d.value != own && scopes[d.value].kind != ProcedureScope)
    ensures !Hidden(scopes, scopes[procs[q].scope].parent.value, procs[p].scope, x) ==>
            FrameVariable(scopes, procs[p].scope, CapsOf(caps, procs[p].name), x).Some?
  {
    CallPasses(scopes, procs, caps, p, q, x);
    assert Captures(scopes, procs, caps, procs[q], x);
  }

  /** A caller that is not nested: what its callees capture is its own. */
  lemma {:induction false} OuterCallPassesOwn(scopes: seq<Scope>, procs: seq<Proc>, caps: CapMap, own: ScopeId, q: nat, x: string)
    requires Nested(scopes, procs) && IsFixpoint(scopes, procs, caps) && own < |scopes|
    requires q < |procs| && Visible(scopes, own, procs[q].scope) && x in CapsOf(caps, procs[q].name)
    requires forall a: ScopeId :: a < |scopes| && a != own && Ancestor(scopes, a, own) ==> scopes[a].kind != ProcedureScope
    ensures FrameVariable(scopes, own, {}, x) == Lookup(scopes, procs[q].scope, x) == Some(own)
  {
    var callee := procs[q].scope;
    assert Captures(scopes, procs, caps, procs[q], x);
    var d := Lookup(scopes, callee, x).value;
    var a := scopes[callee].parent.value;
    assert Lookup(scopes, callee, x) == Lookup(scopes, a, x);
    LookupIsAncestor(scopes, a, x);
    AncestorTrans(scopes, d, a, own);
  }

  lemma {:induction false} LookupIsAncestor(scopes: seq<Scope>, s: ScopeId, x: string)
    requires Tree(scopes) && s < |scopes| && Lookup(scopes, s, x).Some?
    ensures Ancestor(scopes, Lookup(scopes, s, x).value, s)
    decreases s
  {
    if x !in scopes[s].symbols {
      LookupIsAncestor(scopes, scopes[s].parent.value, x);
    }
  }

  lemma {:induction false} AncestorTrans(scopes: seq<Scope>, a: ScopeId, b: ScopeId, c: ScopeId)
    requires Tree(scopes) && c < |scopes| && b < |scopes| && Ancestor(scopes, a, b) && Ancestor(scopes, b, c)
    ensures Ancestor(scopes, a, c)
    decreases c
  {
    if b != c {
      AncestorTrans(scopes, a, b, scopes[c].parent.value);
    }
  }
}
