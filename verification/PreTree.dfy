/** Conditional compilation as a tree: which parts of a source are shown, told
    without any stack. */
module PreTree {
  import opened Ir
  import opened Directive
  import opened PreSpec

  /** A source is text and %IF blocks; a block is a list of branches, each with its
      directive, its condition (none for an %ELSE), and what is in it. */
  datatype Node = Leaf(item: Item) | Choice(branches: seq<Branch>, end: Text)
  datatype Branch = Branch(head: Text, cond: Option<Text>, body: seq<Node>)

  ghost predicate WfNode(n: Node)
    decreases n
  {
    match n
    case Leaf(item) => item.Plain?
    case Choice(bs, _) => bs != [] && bs[0].cond.Some? && forall b :: b in bs ==> WfNodes(b.body)
  }

  ghost predicate WfNodes(ns: seq<Node>)
    decreases ns
  {
    forall n :: n in ns ==> WfNode(n)
  }

  // ---- The tree's items -------------------------------------------------------------------------

  function Flatten(ns: seq<Node>): seq<Item>
    decreases ns
  {
    if ns == [] then [] else FlattenNode(ns[0]) + Flatten(ns[1..])
  }

  function FlattenNode(n: Node): seq<Item>
    decreases n
  {
    match n
    case Leaf(item) => [item]
    case Choice(bs, end) => FlattenBranches(bs, true) + [End(end)]
  }

  function FlattenBranches(bs: seq<Branch>, first: bool): seq<Item>
    decreases bs
  {
    if bs == [] then []
    else [HeadItem(bs[0], first)] + Flatten(bs[0].body) + FlattenBranches(bs[1..], false)
  }

  function HeadItem(b: Branch, first: bool): Item {
    if b.cond.None? then Else(b.head)
    else if first then If(b.head, b.cond.value)
    else Elsif(b.head, b.cond.value)
  }

  // ---- What is shown --------------------------------------------------------------------------------

  datatype Shown = Shown(out: Text, env: Env)

  function Then(a: Text, r: Option<Shown>): Option<Shown> {
    if r.Some? then Some(Shown(a + r.value.out, r.value.env)) else None
  }

  /** Nodes one after the other; pragmas that are shown hold from there on. None when
      a condition cannot be evaluated. */
  function Render(ns: seq<Node>, env: Env, live: bool): Option<Shown>
    decreases ns
  {
    if ns == [] then Some(Shown([], env))
    else
      match RenderNode(ns[0], env, live)
      case None => None
      case Some(a) => Then(a.out, Render(ns[1..], a.env, live))
  }

  function RenderNode(n: Node, env: Env, live: bool): Option<Shown>
    decreases n
  {
    match n
    case Leaf(item) =>
      Some(Shown(Show(live, item.s), if live && item.Plain? then ApplyAll(env, item.pragmas) else env))
    case Choice(bs, end) =>
      match RenderBranches(bs, env, live, false)
      case None => None
      case Some(a) => Some(Shown(a.out + Blank(end), a.env))
  }

  function CondHolds(b: Branch, env: Env): Option<bool> {
    if b.cond.Some? then Evaluate(b.cond.value, env) else Some(true)
  }

  /** A branch is shown when the block is, its condition holds and no branch before it
      was. Its directive never is. */
  function RenderBranches(bs: seq<Branch>, env: Env, live: bool, taken: bool): Option<Shown>
    decreases bs
  {
    if bs == [] then Some(Shown([], env))
    else
      match CondHolds(bs[0], env)
      case None => None
      case Some(c) =>
        var take := live && !taken && c;
        match Render(bs[0].body, env, take)
        case None => None
        case Some(a) => Then(Blank(bs[0].head) + a.out, RenderBranches(bs[1..], a.env, live, taken || take))
  }

  // ---- The stack machine does the same ---------------------------------------------------------------

  function After(st: State, r: Shown): State {
    st.(out := st.out + r.out, env := r.env)
  }

  lemma {:induction false} RunAppend(a: seq<Item>, b: seq<Item>, st: State)
    ensures RunAll(a + b, st) == match RunAll(a, st) case None => None case Some(st1) => RunAll(b, st1)
    decreases |a|
  {
    if a == [] {
      assert a + b == b;
    } else {
      assert (a + b)[1..] == a[1..] + b && (a + b)[0] == a[0];
      if RunItem(a[0], st).Some? {
        RunAppend(a[1..], b, RunItem(a[0], st).value);
      }
    }
  }

  lemma RunOne(item: Item, st: State)
    ensures RunAll([item], st) == RunItem(item, st)
  {
    if RunItem(item, st).Some? {
      assert [item][1..] == [];
      assert RunAll([], RunItem(item, st).value) == RunItem(item, st);
    }
  }

  ghost predicate Agrees(run: Option<State>, st: State, r: Option<Shown>) {
    run == match r case None => None case Some(a) => Some(After(st, a))
  }

  lemma {:induction false} RunNodes(ns: seq<Node>, st: State)
    requires WfNodes(ns)
    ensures Agrees(RunAll(Flatten(ns), st), st, Render(ns, st.env, Active(st.stack)))
    decreases ns
  {
    hide FlattenNode, RenderNode, Active, RunItem;
    if ns == [] {
      assert After(st, Shown([], st.env)).out == st.out;
    } else {
      var n := ns[0];
      RunNode(n, st);
      RunAppend(FlattenNode(n), Flatten(ns[1..]), st);
      match RenderNode(n, st.env, Active(st.stack))
      case None =>
      case Some(a) =>
        RunNodes(ns[1..], After(st, a));
        match Render(ns[1..], a.env, Active(st.stack))
        case None =>
        case Some(z) => assert st.out + a.out + z.out == st.out + (a.out + z.out);
    }
  }

  lemma {:induction false} RunNode(n: Node, st: State)
    requires WfNode(n)
    ensures Agrees(RunAll(FlattenNode(n), st), st, RenderNode(n, st.env, Active(st.stack)))
    decreases n
  {
    hide Active, RunItem, FlattenBranches, RenderBranches, HeadItem;
    match n
    case Leaf(item) =>
      RunOne(item, st);
      LeafRuns(item, st);
    case Choice(bs, end) => RunBlock(bs, end, st);
  }

  lemma LeafRuns(item: Item, st: State)
    requires item.Plain?
    ensures RunItem(item, st) == Some(After(st, Shown(Show(Active(st.stack), item.s), if Active(st.stack) then ApplyAll(st.env, item.pragmas) else st.env)))
  {
  }

  /** What the innermost level looks like once branches have been looked at. */
  function Inside(st: State, l: Level): State {
    st.(stack := st.stack + [l])
  }

  lemma ActiveInside(stack: seq<Level>, l: Level)
    ensures Active(stack + [l]) <==> Active(stack) && l.live
  {
    if Active(stack + [l]) {
      forall i | 0 <= i < |stack|
        ensures stack[i].live
      {
        assert (stack + [l])[i] == stack[i];
      }
      assert (stack + [l])[|stack|] == l;
    }
  }

  /** A branch's body and the branches after it. */
  function BodyThen(bs: seq<Branch>, env: Env, live: bool, taken: bool, take: bool): Option<Shown>
    requires bs != []
  {
    match Render(bs[0].body, env, take)
    case None => None
    case Some(a) => Then(a.out, RenderBranches(bs[1..], a.env, live, taken))
  }

  /** What is left of the state when the block is over. */
  function Closing(st: State, r: Option<Shown>, end: Text): Option<State> {
    match r
    case None => None
    case Some(z) => Some(st.(out := st.out + (z.out + Blank(end)), env := z.env))
  }

  lemma ThenThen(a: Text, b: Text, r: Option<Shown>)
    ensures Then(a, Then(b, r)) == Then(a + b, r)
  {
    if r.Some? {
      assert a + (b + r.value.out) == a + b + r.value.out;
    }
  }

  lemma ClosingThen(st: State, t: Text, r: Option<Shown>, end: Text)
    ensures Closing(st, Then(t, r), end) == Closing(st.(out := st.out + t), r, end)
  {
    if r.Some? {
      assert st.out + t + (r.value.out + Blank(end)) == st.out + (t + r.value.out + Blank(end));
    }
  }

  lemma BranchesAre(bs: seq<Branch>, env: Env, live: bool, taken: bool)
    requires bs != []
    ensures RenderBranches(bs, env, live, taken) ==
            match CondHolds(bs[0], env)
            case None => None
            case Some(c) => Then(Blank(bs[0].head), BodyThen(bs, env, live, taken || (live && !taken && c), live && !taken && c))
  {
    hide CondHolds;
    match CondHolds(bs[0], env)
    case None =>
    case Some(c) =>
      var take := live && !taken && c;
      match Render(bs[0].body, env, take)
      case None =>
      case Some(a) => ThenThen(Blank(bs[0].head), a.out, RenderBranches(bs[1..], a.env, live, taken || take));
  }

  /** The first branch opens the level the others continue. */
  lemma {:induction false} RunBlock(bs: seq<Branch>, end: Text, st: State)
    requires bs != [] && bs[0].cond.Some? && forall b :: b in bs ==> WfNodes(b.body)
    ensures Agrees(RunAll(FlattenBranches(bs, true) + [End(end)], st), st, RenderNode(Choice(bs, end), st.env, Active(st.stack)))
    decreases bs
  {
    hide Evaluate, Active, WfNodes, RunAll, BodyThen;
    var b := bs[0];
    var live := Active(st.stack);
    var rest := Flatten(b.body) + (FlattenBranches(bs[1..], false) + [End(end)]);
    assert FlattenBranches(bs, true) + [End(end)] == [HeadItem(b, true)] + rest;
    RunAppend([HeadItem(b, true)], rest, st);
    RunOne(HeadItem(b, true), st);
    BranchesAre(bs, st.env, live, false);
    match Evaluate(b.cond.value, st.env)
    case None =>
    case Some(c) =>
      var take := live && c;
      var st1 := st.(out := st.out + Blank(b.head));
      assert RunItem(HeadItem(b, true), st) == Some(Inside(st1, Level(live, take, take)));
      BodyAndRest(bs, end, st1, live, take, take);
      ClosingThen(st, Blank(b.head), BodyThen(bs, st.env, live, take, take), end);
  }

  /** The body of the branch just entered, the branches after it and the %END. */
  lemma {:induction false} BodyAndRest(bs: seq<Branch>, end: Text, st: State, live: bool, taken: bool, take: bool)
    requires bs != [] && (forall b :: b in bs ==> WfNodes(b.body)) && live == Active(st.stack) && (take ==> live && taken)
    ensures RunAll(Flatten(bs[0].body) + (FlattenBranches(bs[1..], false) + [End(end)]), Inside(st, Level(live, taken, take)))
            == Closing(st, BodyThen(bs, st.env, live, taken, take), end)
    decreases bs, 0
  {
    hide Active, WfNodes, RunItem, RunAll, Render, RenderBranches, Flatten, FlattenBranches;
    var st1 := Inside(st, Level(live, taken, take));
    var rest := FlattenBranches(bs[1..], false) + [End(end)];
    ActiveInside(st.stack, Level(live, taken, take));
    RunNodes(bs[0].body, st1);
    RunAppend(Flatten(bs[0].body), rest, st1);
    match Render(bs[0].body, st.env, take)
    case None =>
    case Some(a) =>
      var st2 := st.(out := st.out + a.out, env := a.env);
      assert After(st1, a) == Inside(st2, Level(live, taken, take));
      RestRuns(bs[1..], end, st2, live, taken, take);
      ClosingThen(st, a.out, RenderBranches(bs[1..], a.env, live, taken), end);
  }

  lemma {:induction false} RestRuns(bs: seq<Branch>, end: Text, st: State, live: bool, taken: bool, take: bool)
    requires (forall b :: b in bs ==> WfNodes(b.body)) && live == Active(st.stack) && (take ==> live && taken)
    ensures RunAll(FlattenBranches(bs, false) + [End(end)], Inside(st, Level(live, taken, take)))
            == Closing(st, RenderBranches(bs, st.env, live, taken), end)
    decreases bs, 1
  {
    hide Active, WfNodes, Evaluate, RunAll, BodyThen, RunItem;
    var st1 := Inside(st, Level(live, taken, take));
    if bs == [] {
      assert FlattenBranches(bs, false) + [End(end)] == [End(end)];
      RunOne(End(end), st1);
      EndRuns(end, st, Level(live, taken, take));
    } else {
      var b := bs[0];
      var rest := Flatten(b.body) + (FlattenBranches(bs[1..], false) + [End(end)]);
      assert FlattenBranches(bs, false) + [End(end)] == [HeadItem(b, false)] + rest;
      RunAppend([HeadItem(b, false)], rest, st1);
      RunOne(HeadItem(b, false), st1);
      NextRuns(b, st, live, taken, take);
      BranchesAre(bs, st.env, live, taken);
      match CondHolds(b, st.env)
      case None =>
      case Some(c) =>
        var take1 := live && !taken && c;
        var st2 := st.(out := st.out + Blank(b.head));
        BodyAndRest(bs, end, st2, live, taken || take1, take1);
        ClosingThen(st, Blank(b.head), BodyThen(bs, st.env, live, taken || take1, take1), end);
    }
  }

  lemma EndRuns(end: Text, st: State, l: Level)
    ensures RunItem(End(end), Inside(st, l)) == Closing(st, Some(Shown([], st.env)), end)
  {
    var st1 := Inside(st, l);
    assert st1.stack[..|st1.stack| - 1] == st.stack;
    assert [] + Blank(end) == Blank(end);
  }

  lemma NextRuns(b: Branch, st: State, live: bool, taken: bool, take: bool)
    ensures RunItem(HeadItem(b, false), Inside(st, Level(live, taken, take))) ==
            match CondHolds(b, st.env)
            case None => None
            case Some(c) =>
              var take1 := live && !taken && c;
              Some(Inside(st.(out := st.out + Blank(b.head)), Level(live, taken || take1, take1)))
  {
    hide Evaluate;
    var st1 := Inside(st, Level(live, taken, take));
    assert st1.stack[..|st1.stack| - 1] == st.stack;
  }

  // ---- A source that is accepted is a tree --------------------------------------------------------------

  /** How deep the items nest, from depth `n` on; None when a directive has no %IF. */
  function Depth(items: seq<Item>, n: nat): Option<nat>
    decreases |items|
  {
    if items == [] then Some(n)
    else
      match items[0]
      case Plain(_, _) => Depth(items[1..], n)
      case If(_, _) => Depth(items[1..], n + 1)
      case Elsif(_, _) => if n == 0 then None else Depth(items[1..], n)
      case Else(_) => if n == 0 then None else Depth(items[1..], n)
      case End(_) => if n == 0 then None else Depth(items[1..], n - 1)
  }

  lemma {:induction false} RunKeepsDepth(items: seq<Item>, st: State)
    requires RunAll(items, st).Some?
    ensures Depth(items, |st.stack|) == Some(|RunAll(items, st).value.stack|)
    decreases |items|
  {
    hide Evaluate, Active;
    if items != [] {
      RunKeepsDepth(items[1..], RunItem(items[0], st).value);
    }
  }

  ghost predicate Continues(rest: seq<Item>) {
    rest != [] && (rest[0].Elsif? || rest[0].Else? || rest[0].End?)
  }

  lemma {:induction false} Grow(items: seq<Item>, n: nat) returns (ns: seq<Node>, rest: seq<Item>)
    requires Depth(items, n) == Some(0)
    ensures WfNodes(ns) && items == Flatten(ns) + rest && |rest| <= |items|
    ensures if n == 0 then rest == [] else Continues(rest) && Depth(rest, n) == Some(0)
    decreases |items|, 1
  {
    hide Flatten, FlattenNode, FlattenBranches, WfNodes, WfNode;
    if items == [] || Continues(items) {
      ns, rest := [], items;
      FlattenNone();
      assert items == [] + rest;
    } else if items[0].Plain? {
      var tail;
      tail, rest := Grow(items[1..], n);
      ns := [Leaf(items[0])] + tail;
      FlattenCons(Leaf(items[0]), tail);
      LeafItems(items[0]);
      assert items == [items[0]] + items[1..];
    } else {
      var body, r := Grow(items[1..], n + 1);
      var more, end, r2 := GrowBranches(r, n);
      var c := Choice([Branch(items[0].s, Some(items[0].cond), body)] + more, end);
      ChoiceItems(items[0], body, more, end);
      var tail;
      tail, rest := Grow(r2, n);
      ns := [c] + tail;
      FlattenCons(c, tail);
      Regroup(items[0], Flatten(body), FlattenBranches(more, false), End(end), Flatten(tail), rest);
      assert items == [items[0]] + items[1..];
    }
  }

  lemma Regroup(first: Item, body: seq<Item>, more: seq<Item>, end: Item, tail: seq<Item>, rest: seq<Item>)
    ensures [first] + (body + (more + [end] + (tail + rest))) == [first] + (body + (more + [end])) + tail + rest
  {
  }

  lemma FlattenNone()
    ensures Flatten([]) == [] && WfNodes([])
  {
  }

  lemma FlattenCons(n: Node, tail: seq<Node>)
    ensures Flatten([n] + tail) == FlattenNode(n) + Flatten(tail)
    ensures WfNode(n) && WfNodes(tail) ==> WfNodes([n] + tail)
  {
    assert ([n] + tail)[1..] == tail;
  }

  lemma LeafItems(item: Item)
    ensures FlattenNode(Leaf(item)) == [item] && (item.Plain? ==> WfNode(Leaf(item)))
  {
  }

  lemma ChoiceItems(item: Item, body: seq<Node>, more: seq<Branch>, end: Text)
    requires item.If? && WfNodes(body) && forall b :: b in more ==> WfNodes(b.body)
    ensures var c := Choice([Branch(item.s, Some(item.cond), body)] + more, end);
            WfNode(c) && FlattenNode(c) == [item] + (Flatten(body) + (FlattenBranches(more, false) + [End(end)]))
  {
    hide WfNodes, Flatten;
    var bs := [Branch(item.s, Some(item.cond), body)] + more;
    assert bs[1..] == more && HeadItem(bs[0], true) == item;
  }

  lemma {:induction false} GrowBranches(items: seq<Item>, n: nat) returns (bs: seq<Branch>, end: Text, rest: seq<Item>)
    requires Continues(items) && Depth(items, n + 1) == Some(0)
    ensures (forall b :: b in bs ==> WfNodes(b.body)) && items == FlattenBranches(bs, false) + [End(end)] + rest
    ensures |rest| < |items| && Depth(rest, n) == Some(0)
    decreases |items|, 0
  {
    hide Flatten, WfNodes;
    assert items == [items[0]] + items[1..];
    if items[0].End? {
      bs, end, rest := [], items[0].s, items[1..];
    } else {
      var body, r := Grow(items[1..], n + 1);
      var more;
      more, end, rest := GrowBranches(r, n);
      bs := [Branch(items[0].s, if items[0].Elsif? then Some(items[0].cond) else None, body)] + more;
      assert bs[1..] == more && HeadItem(bs[0], false) == items[0];
    }
  }

  // ---- The theorem ------------------------------------------------------------------------------------------

  function ItemBytes(items: seq<Item>): Text {
    if items == [] then [] else items[0].s + ItemBytes(items[1..])
  }

  /** The items of a source, put together again, are the source. */
  lemma {:induction false} LexIsLossless(s: Text)
    requires Lex(s).Some?
    ensures ItemBytes(Lex(s).value) == s
    decreases |s|
  {
    hide First;
    if s != [] {
      var item := First(s).value;
      LexIsLossless(s[|item.s|..]);
      var items := Lex(s).value;
      assert items[1..] == Lex(s[|item.s|..]).value;
      assert s == item.s + s[|item.s|..];
    }
  }

  /** `ns` is what the source says, as a tree. */
  ghost predicate IsTreeOf(ns: seq<Node>, src: Text) {
    WfNodes(ns) && Lex(src) == Some(Flatten(ns))
  }

  /** The full pass accepts a source exactly when it is a tree whose conditions can be
      evaluated in turn, and then shows what the tree says. */
  lemma FullPassIsRender(src: Text, env: Env)
    ensures forall ns :: IsTreeOf(ns, src) ==>
              FullPass(src, env) == match Render(ns, env, true) case None => None case Some(a) => Some(a.out)
    ensures FullPass(src, env).Some? ==> exists ns :: IsTreeOf(ns, src)
  {
    hide Lex, Render, Flatten, RunAll, WfNodes;
    var st := Start(env);
    RunsItems(src, st);
    forall ns | IsTreeOf(ns, src)
      ensures FullPass(src, env) == match Render(ns, env, true) case None => None case Some(a) => Some(a.out)
    {
      RunNodes(ns, st);
      if Render(ns, env, true).Some? {
        assert [] + Render(ns, env, true).value.out == Render(ns, env, true).value.out;
      }
    }
    if FullPass(src, env).Some? {
      var items := Lex(src).value;
      RunKeepsDepth(items, st);
      var ns, rest := Grow(items, 0);
      assert Flatten(ns) + rest == Flatten(ns);
      assert IsTreeOf(ns, src);
    }
  }

  // ---- At most one branch --------------------------------------------------------------------------------------

  function BytesOf(ns: seq<Node>): Text { ItemBytes(Flatten(ns)) }

  lemma {:induction false} BytesAppend(a: seq<Item>, b: seq<Item>)
    ensures ItemBytes(a + b) == ItemBytes(a) + ItemBytes(b)
    decreases |a|
  {
    if a == [] {
      assert a + b == b;
    } else {
      assert (a + b)[1..] == a[1..] + b;
      BytesAppend(a[1..], b);
    }
  }

  lemma BlankAppend(a: Text, b: Text)
    ensures Blank(a + b) == Blank(a) + Blank(b)
  {
  }

  /** Where nothing is shown everything is blanked, and no pragma takes effect. */
  lemma {:induction false} DeadNodes(ns: seq<Node>, env: Env)
    requires WfNodes(ns) && Render(ns, env, false).Some?
    ensures Render(ns, env, false) == Some(Shown(Blank(BytesOf(ns)), env))
    decreases ns
  {
    if ns != [] {
      DeadNode(ns[0], env);
      DeadNodes(ns[1..], env);
      BytesAppend(FlattenNode(ns[0]), Flatten(ns[1..]));
      BlankAppend(ItemBytes(FlattenNode(ns[0])), BytesOf(ns[1..]));
    }
  }

  lemma {:induction false} DeadNode(n: Node, env: Env)
    requires WfNode(n) && RenderNode(n, env, false).Some?
    ensures RenderNode(n, env, false) == Some(Shown(Blank(ItemBytes(FlattenNode(n))), env))
    decreases n
  {
    match n
    case Leaf(item) =>
      assert [item][1..] == [] && item.s + [] == item.s;
      assert ItemBytes([item]) == item.s + ItemBytes([]);
    case Choice(bs, end) =>
      DeadBranches(bs, env, false, false, true);
      BytesAppend(FlattenBranches(bs, true), [End(end)]);
      assert [End(end)][1..] == [] && end + [] == end;
      assert ItemBytes([End(end)]) == end + ItemBytes([]);
      BlankAppend(ItemBytes(FlattenBranches(bs, true)), end);
  }

  lemma {:induction false} DeadBranches(bs: seq<Branch>, env: Env, live: bool, taken: bool, first: bool)
    requires (forall b :: b in bs ==> WfNodes(b.body)) && RenderBranches(bs, env, live, taken).Some? && (taken || !live)
    ensures RenderBranches(bs, env, live, taken) == Some(Shown(Blank(ItemBytes(FlattenBranches(bs, first))), env))
    decreases bs
  {
    if bs != [] {
      var b := bs[0];
      DeadNodes(b.body, env);
      DeadBranches(bs[1..], env, live, taken, false);
      BranchBytes(bs, first);
      BlankAppend(b.head, BytesOf(b.body));
      BlankAppend(b.head + BytesOf(b.body), ItemBytes(FlattenBranches(bs[1..], false)));
    }
  }

  lemma BranchBytes(bs: seq<Branch>, first: bool)
    requires bs != []
    ensures ItemBytes(FlattenBranches(bs, first)) == bs[0].head + BytesOf(bs[0].body) + ItemBytes(FlattenBranches(bs[1..], false))
  {
    var h := HeadItem(bs[0], first);
    assert [h][1..] == [] && h.s + [] == h.s;
    assert ItemBytes([h]) == h.s + ItemBytes([]);
    BytesAppend([h], Flatten(bs[0].body));
    BytesAppend([h] + Flatten(bs[0].body), FlattenBranches(bs[1..], false));
  }

  /** Branch `k` is the chosen one: the first whose condition holds. No branch is
      chosen when `k` is the number of branches. */
  ghost predicate Chosen(bs: seq<Branch>, env: Env, k: nat) {
    && k <= |bs|
    && (forall i :: 0 <= i < k ==> CondHolds(bs[i], env) == Some(false))
    && (k < |bs| ==> CondHolds(bs[k], env) == Some(true))
  }

  /** Branch `k` of `bs` and nothing else, in text. */
  function OnlyBranch(bs: seq<Branch>, k: nat, shown: Text, first: bool): Text
    requires k < |bs|
  {
    Blank(ItemBytes(FlattenBranches(bs[..k], first))) + Blank(bs[k].head) + shown + Blank(ItemBytes(FlattenBranches(bs[k + 1..], false)))
  }

  lemma FirstOnly(bs: seq<Branch>, shown: Text, first: bool)
    requires bs != []
    ensures OnlyBranch(bs, 0, shown, first) == Blank(bs[0].head) + shown + Blank(ItemBytes(FlattenBranches(bs[1..], false)))
  {
    assert bs[..0] == [] && Blank([]) + Blank(bs[0].head) == Blank(bs[0].head);
    assert FlattenBranches(bs[..0], first) == [];
  }

  lemma LaterOnly(bs: seq<Branch>, j: nat, shown: Text, first: bool)
    requires bs != [] && j < |bs[1..]|
    ensures OnlyBranch(bs, j + 1, shown, first) == Blank(bs[0].head) + Blank(BytesOf(bs[0].body)) + OnlyBranch(bs[1..], j, shown, false)
  {
    hide ItemBytes, FlattenBranches;
    assert bs[j + 1] == bs[1..][j] && bs[j + 2..] == bs[1..][j + 1..];
    assert bs[..j + 1][1..] == bs[1..][..j] && bs[..j + 1][0] == bs[0];
    BranchBytes(bs[..j + 1], first);
    BlankAppend(bs[0].head, BytesOf(bs[0].body));
    BlankAppend(bs[0].head + BytesOf(bs[0].body), ItemBytes(FlattenBranches(bs[1..][..j], false)));
  }

  /** Of a block that is shown, exactly the chosen branch is shown; everything in front
      of it and behind it is blanked. */
  lemma {:induction false} OneBranchShown(bs: seq<Branch>, env: Env, first: bool) returns (k: nat)
    requires (forall b :: b in bs ==> WfNodes(b.body)) && RenderBranches(bs, env, true, false).Some?
    ensures Chosen(bs, env, k)
    ensures var r := RenderBranches(bs, env, true, false).value;
            if k == |bs| then r == Shown(Blank(ItemBytes(FlattenBranches(bs, first))), env)
            else
              var body := Render(bs[k].body, env, true);
              body.Some? && r == Shown(OnlyBranch(bs, k, body.value.out, first), body.value.env)
    decreases bs
  {
    hide ItemBytes, FlattenBranches, CondHolds, Render, WfNodes, OnlyBranch;
    if bs == [] {
      k := 0;
      NothingBlank(first);
    } else if CondHolds(bs[0], env) == Some(true) {
      k := 0;
      var a := Render(bs[0].body, env, true).value;
      DeadBranches(bs[1..], a.env, true, true, false);
      FirstOnly(bs, a.out, first);
    } else {
      DeadNodes(bs[0].body, env);
      var j := OneBranchShown(bs[1..], env, false);
      k := j + 1;
      assert Chosen(bs, env, k) by { ChosenLater(bs, env, j); }
      BranchBytes(bs, first);
      BlankAppend(bs[0].head, BytesOf(bs[0].body));
      BlankAppend(bs[0].head + BytesOf(bs[0].body), ItemBytes(FlattenBranches(bs[1..], false)));
      if k < |bs| {
        LaterOnly(bs, j, Render(bs[k].body, env, true).value.out, first);
      }
    }
  }

  lemma NothingBlank(first: bool)
    ensures Blank(ItemBytes(FlattenBranches([], first))) == []
  {
  }

  lemma ChosenLater(bs: seq<Branch>, env: Env, j: nat)
    requires bs != [] && Chosen(bs[1..], env, j) && CondHolds(bs[0], env) == Some(false)
    ensures Chosen(bs, env, j + 1)
  {
    hide CondHolds;
    forall i | 0 <= i < j + 1
      ensures CondHolds(bs[i], env) == Some(false)
    {
      if i > 0 {
        assert bs[i] == bs[1..][i - 1];
      }
    }
  }
}
