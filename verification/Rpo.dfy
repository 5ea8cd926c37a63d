/** The reverse post-order of a function's blocks. */
module Rpo {
  import opened Ir
  import opened Builder
  import opened CfgSound
  import opened CfgTheorem

  // ---- Successors in order ---------------------------------------------------------------

  /** Into an ascending list without duplicates. */
  function Insert(s: seq<BlockId>, b: BlockId): seq<BlockId> {
    if s == [] then [b]
    else if b < s[0] then [b] + s
    else if b == s[0] then s
    else [s[0]] + Insert(s[1..], b)
  }

  function Targets(arms: seq<(int, BlockId)>, default: BlockId): seq<BlockId> {
    if arms == [] then [default] else Insert(Targets(arms[1..], default), arms[0].1)
  }

  /** A switch lists each of its targets once, in ascending order. */
  function SuccList(t: Terminator): seq<BlockId> {
    match t
    case Goto(b) => [b]
    case CondBr(_, x, y) => [x, y]
    case Switch(_, arms, d) => Targets(arms, d)
    case _ => []
  }

  predicate Ascending(s: seq<BlockId>) {
    forall i, j :: 0 <= i < j < |s| ==> s[i] < s[j]
  }

  lemma {:induction false} InsertSorted(s: seq<BlockId>, b: BlockId)
    requires Ascending(s)
    ensures Ascending(Insert(s, b)) && forall x :: x in Insert(s, b) <==> x in s || x == b
    decreases |s|
  {
    if s != [] && s[0] < b {
      InsertSorted(s[1..], b);
      assert s == [s[0]] + s[1..];
    }
  }

  lemma {:induction false} TargetsSorted(arms: seq<(int, BlockId)>, d: BlockId)
    ensures Ascending(Targets(arms, d))
    ensures forall x :: x in Targets(arms, d) <==> x == d || exists k :: 0 <= k < |arms| && arms[k].1 == x
    decreases |arms|
  {
    if arms != [] {
      TargetsSorted(arms[1..], d);
      InsertSorted(Targets(arms[1..], d), arms[0].1);
      forall x
        ensures x in Targets(arms, d) <==> x == d || exists k :: 0 <= k < |arms| && arms[k].1 == x
      {
        if k :| 0 <= k < |arms| && arms[k].1 == x {
          assert k > 0 ==> arms[1..][k - 1] == arms[k];
        }
        if k :| 0 <= k < |arms[1..]| && arms[1..][k].1 == x {
          assert arms[k + 1].1 == x;
        }
      }
    }
  }

  /** The list has exactly the successors; a switch's has no duplicates. */
  lemma SuccListExact(t: Terminator)
    ensures forall s :: s in SuccList(t) <==> s in Succs(t)
    ensures t.Switch? ==> Ascending(SuccList(t))
  {
    if t.Switch? {
      TargetsSorted(t.arms, t.default);
    }
  }

  // ---- The traversal ------------------------------------------------------------------------

  /** The blocks seen, and those left behind for good, in that order. */
  datatype Walked = Walked(seen: set<BlockId>, order: seq<BlockId>)

  function Upto(n: nat): (r: set<BlockId>)
    ensures forall i: nat :: i in r <==> i < n
  {
    if n == 0 then {} else Upto(n - 1) + {n - 1}
  }

  function Ids(f: seq<Block>): set<BlockId> {
    Upto(|f|)
  }

  ghost predicate ListInside(f: seq<Block>, bs: seq<BlockId>) {
    forall k :: 0 <= k < |bs| ==> bs[k] < |f|
  }

  lemma SuccsInside(f: seq<Block>, b: BlockId)
    requires JumpsInside(f) && b < |f|
    ensures ListInside(f, SuccList(f[b].term))
  {
    SuccListExact(f[b].term);
    var bs := SuccList(f[b].term);
    forall k | 0 <= k < |bs|
      ensures bs[k] < |f|
    {
      assert bs[k] in Succs(f[b].term);
    }
  }

  ghost function Visit(f: seq<Block>, b: BlockId, s: Walked): (r: Walked)
    requires JumpsInside(f) && b < |f| && s.seen <= Ids(f)
    ensures s.seen <= r.seen <= Ids(f) && b in r.seen
    decreases |Ids(f) - s.seen|, 0
  {
    if b in s.seen then s
    else
      SuccsInside(f, b);
      assert Ids(f) - (s.seen + {b}) < Ids(f) - s.seen;
      Smaller(Ids(f) - (s.seen + {b}), Ids(f) - s.seen);
      var r := VisitAll(f, SuccList(f[b].term), s.(seen := s.seen + {b}));
      r.(order := r.order + [b])
  }

  ghost function VisitAll(f: seq<Block>, bs: seq<BlockId>, s: Walked): (r: Walked)
    requires JumpsInside(f) && ListInside(f, bs) && s.seen <= Ids(f)
    ensures s.seen <= r.seen <= Ids(f) && forall k :: 0 <= k < |bs| ==> bs[k] in r.seen
    decreases |Ids(f) - s.seen|, |bs|
  {
    if bs == [] then s
    else
      var r := Visit(f, bs[0], s);
      Fewer(Ids(f) - r.seen, Ids(f) - s.seen);
      VisitAll(f, bs[1..], r)
  }

  lemma Smaller(a: set<BlockId>, b: set<BlockId>)
    requires a < b
    ensures |a| < |b|
  {
    var x :| x in b && x !in a;
    Fewer(a, b - {x});
  }

  lemma {:induction false} Fewer(a: set<BlockId>, b: set<BlockId>)
    requires a <= b
    ensures |a| <= |b|
    decreases |a|
  {
    if x :| x in a {
      Fewer(a - {x}, b - {x});
    }
  }

  // ---- Walks ------------------------------------------------------------------------------------

  ghost predicate Edge(f: seq<Block>, u: BlockId, v: BlockId) {
    u < |f| && v < |f| && v in Succs(f[u].term)
  }

  ghost predicate IsWalk(f: seq<Block>, p: seq<BlockId>) {
    p != [] && (forall i :: 0 <= i < |p| ==> p[i] < |f|) && forall i :: 0 <= i < |p| - 1 ==> Edge(f, p[i], p[i + 1])
  }

  ghost predicate Reaches(f: seq<Block>, u: BlockId, v: BlockId) {
    exists p: seq<BlockId> :: IsWalk(f, p) && p[0] == u && p[|p| - 1] == v
  }

  lemma ReachesSelf(f: seq<Block>, u: BlockId)
    requires u < |f|
    ensures Reaches(f, u, u)
  {
    assert IsWalk(f, [u]);
  }

  lemma ReachesOn(f: seq<Block>, u: BlockId, v: BlockId, x: BlockId)
    requires Reaches(f, u, v) && Edge(f, v, x)
    ensures Reaches(f, u, x)
  {
    var p: seq<BlockId> :| IsWalk(f, p) && p[0] == u && p[|p| - 1] == v;
    assert IsWalk(f, p + [x]);
  }

  lemma ReachesTrans(f: seq<Block>, u: BlockId, v: BlockId, x: BlockId)
    requires Reaches(f, u, v) && Reaches(f, v, x)
    ensures Reaches(f, u, x)
  {
    var p: seq<BlockId> :| IsWalk(f, p) && p[0] == u && p[|p| - 1] == v;
    var q: seq<BlockId> :| IsWalk(f, q) && q[0] == v && q[|q| - 1] == x;
    var r := p + q[1..];
    forall i | 0 <= i < |r| - 1
      ensures Edge(f, r[i], r[i + 1])
    {
      if i >= |p| - 1 {
        assert r[i] == q[i - |p| + 1] && r[i + 1] == q[i - |p| + 2];
      }
    }
    assert IsWalk(f, r);
  }

  // ---- What the traversal keeps ---------------------------------------------------------------------

  /** Blocks entered and not yet left. */
  function Pending(s: Walked): set<BlockId> {
    s.seen - (set b | b in s.order)
  }

  ghost predicate Distinct(order: seq<BlockId>) {
    forall i, j :: 0 <= i < j < |order| ==> order[i] != order[j]
  }

  /** The successors of a block that was left have all been seen; one that was not
      left before it leads back to it. */
  ghost predicate EdgesKept(f: seq<Block>, s: Walked) {
    forall i, y: BlockId :: 0 <= i < |s.order| && Edge(f, s.order[i], y) ==>
      y in s.seen && (y in s.order[..i] || Reaches(f, y, s.order[i]))
  }

  /** A block that was left, the root aside, was entered from one still pending or
      left later. */
  ghost predicate Entered(f: seq<Block>, root: BlockId, s: Walked) {
    forall i :: 0 <= i < |s.order| ==> s.order[i] == root || EnteredAt(f, s, i)
  }

  ghost predicate EnteredAt(f: seq<Block>, s: Walked, i: nat)
    requires i < |s.order|
  {
    exists p: BlockId :: Edge(f, p, s.order[i]) && (p in Pending(s) || p in s.order[i + 1..])
  }

  ghost predicate Keeps(f: seq<Block>, root: BlockId, s: Walked) {
    && s.seen <= Ids(f) && Distinct(s.order) && (forall b :: b in s.order ==> b in s.seen)
    && EdgesKept(f, s) && Entered(f, root, s)
  }

  /** All pending blocks lead to `b`. */
  ghost predicate LeadTo(f: seq<Block>, s: Walked, b: BlockId) {
    forall g: BlockId :: g in Pending(s) ==> Reaches(f, g, b)
  }

  /** Entering `b`, from a pending block or as the root. */
  lemma {:induction false} VisitKeeps(f: seq<Block>, root: BlockId, b: BlockId, s: Walked)
    requires JumpsInside(f) && b < |f| && Keeps(f, root, s) && LeadTo(f, s, b)
    requires b == root || exists p: BlockId :: p in Pending(s) && Edge(f, p, b)
    ensures var r := Visit(f, b, s);
            Keeps(f, root, r) && Pending(r) == Pending(s) && s.order <= r.order
            && forall x: BlockId :: x in r.order && x !in s.order ==> Reaches(f, b, x)
    decreases |Ids(f) - s.seen|, 0
  {
    hide Reaches;
    if b !in s.seen {
      SuccsInside(f, b);
      Smaller(Ids(f) - (s.seen + {b}), Ids(f) - s.seen);
      var t := s.(seen := s.seen + {b});
      EnterKeeps(f, root, b, s);
      var bs := SuccList(f[b].term);
      SuccListExact(f[b].term);
      ReachesSelf(f, b);
      assert forall x: BlockId :: x in bs ==> Edge(f, b, x);
      VisitAllKeeps(f, root, b, bs, t);
      LeaveKeeps(f, root, b, s, VisitAll(f, bs, t));
    }
  }

  lemma EnterKeeps(f: seq<Block>, root: BlockId, b: BlockId, s: Walked)
    requires b < |f| && b !in s.seen && Keeps(f, root, s) && LeadTo(f, s, b)
    ensures var t := s.(seen := s.seen + {b}); Keeps(f, root, t) && Pending(t) == Pending(s) + {b} && LeadTo(f, t, b)
  {
    hide Reaches;
    var t := s.(seen := s.seen + {b});
    ReachesSelf(f, b);
    assert Pending(t) == Pending(s) + {b};
    forall i | 0 <= i < |t.order| && t.order[i] != root
      ensures EnteredAt(f, t, i)
    {
      assert EnteredAt(f, s, i);
    }
  }

  /** Leaving `b`: its successors are seen, and it was entered from where it was. */
  lemma LeaveKeeps(f: seq<Block>, root: BlockId, b: BlockId, s: Walked, r: Walked)
    requires b < |f| && Keeps(f, root, r) && Pending(r) == Pending(s) + {b} && b !in Pending(s) && LeadTo(f, r, b)
    requires forall y: BlockId :: Edge(f, b, y) ==> y in r.seen
    requires b == root || exists p: BlockId :: p in Pending(s) && Edge(f, p, b)
    ensures var z := r.(order := r.order + [b]); Keeps(f, root, z) && Pending(z) == Pending(s)
  {
    hide Reaches, Edge, EdgesKept, Entered;
    var z := r.(order := r.order + [b]);
    assert b !in r.order;
    assert Pending(z) == Pending(s);
    LeaveEdges(f, root, b, r);
    LeaveEntered(f, root, b, s, r);
  }

  lemma LeaveEdges(f: seq<Block>, root: BlockId, b: BlockId, r: Walked)
    requires Keeps(f, root, r) && LeadTo(f, r, b) && forall y: BlockId :: Edge(f, b, y) ==> y in r.seen
    ensures EdgesKept(f, r.(order := r.order + [b]))
  {
    hide Reaches, Edge, Entered;
    var z := r.(order := r.order + [b]);
    forall i, y: BlockId | 0 <= i < |z.order| && Edge(f, z.order[i], y)
      ensures y in z.seen && (y in z.order[..i] || Reaches(f, y, z.order[i]))
    {
      if i < |r.order| {
        assert z.order[i] == r.order[i] && z.order[..i] == r.order[..i];
      } else {
        assert z.order[..i] == r.order;
        assert y in r.order || y in Pending(r);
      }
    }
  }

  lemma LeaveEntered(f: seq<Block>, root: BlockId, b: BlockId, s: Walked, r: Walked)
    requires Entered(f, root, r) && Pending(r) == Pending(s) + {b} && b !in Pending(s)
    requires b == root || exists p: BlockId :: p in Pending(s) && Edge(f, p, b)
    requires Pending(r.(order := r.order + [b])) == Pending(s)
    ensures Entered(f, root, r.(order := r.order + [b]))
  {
    hide Reaches, Edge;
    var z := r.(order := r.order + [b]);
    forall i | 0 <= i < |z.order| && z.order[i] != root
      ensures EnteredAt(f, z, i)
    {
      if i < |r.order| {
        assert EnteredAt(f, r, i);
        var p: BlockId :| Edge(f, p, r.order[i]) && (p in Pending(r) || p in r.order[i + 1..]);
        assert z.order[i + 1..] == r.order[i + 1..] + [b];
        assert p in Pending(z) || p in z.order[i + 1..];
      } else {
        var p: BlockId :| p in Pending(s) && Edge(f, p, b);
        assert p in Pending(z);
      }
    }
  }

  /** The successors of the pending block `b`, one after the other. */
  lemma {:induction false} VisitAllKeeps(f: seq<Block>, root: BlockId, b: BlockId, bs: seq<BlockId>, s: Walked)
    requires JumpsInside(f) && b in Pending(s) && ListInside(f, bs) && Keeps(f, root, s) && LeadTo(f, s, b)
    requires b < |f| && forall x: BlockId :: x in bs ==> Edge(f, b, x)
    ensures var r := VisitAll(f, bs, s);
            Keeps(f, root, r) && Pending(r) == Pending(s) && s.order <= r.order
            && forall x: BlockId :: x in r.order && x !in s.order ==> Reaches(f, b, x)
    decreases |Ids(f) - s.seen|, |bs|
  {
    hide Reaches, Keeps, Edge;
    if bs != [] {
      var x := bs[0];
      SeenInside(f, root, s);
      var r := Visit(f, x, s);
      Fewer(Ids(f) - r.seen, Ids(f) - s.seen);
      forall g: BlockId | g in Pending(s)
        ensures Reaches(f, g, x)
      {
        ReachesOn(f, g, b, x);
      }
      VisitKeeps(f, root, x, s);
      VisitAllKeeps(f, root, b, bs[1..], r);
      var z := VisitAll(f, bs[1..], r);
      ReachesSelf(f, b);
      ReachesOn(f, b, b, x);
      forall y: BlockId | y in z.order && y !in s.order
        ensures Reaches(f, b, y)
      {
        if y in r.order {
          ReachesTrans(f, b, x, y);
        }
      }
    }
  }

  lemma SeenInside(f: seq<Block>, root: BlockId, s: Walked)
    requires Keeps(f, root, s)
    ensures s.seen <= Ids(f)
  {
  }

  // ---- The order ------------------------------------------------------------------------------------------

  function Reversed(s: seq<BlockId>): (r: seq<BlockId>)
    ensures |r| == |s| && forall i :: 0 <= i < |s| ==> r[i] == s[|s| - 1 - i]
  {
    seq(|s|, i requires 0 <= i < |s| => s[|s| - 1 - i])
  }

  ghost function Order(f: seq<Block>): seq<BlockId>
    requires JumpsInside(f) && f != []
  {
    Reversed(Visit(f, ENTRY, Walked({}, [])).order)
  }

  ghost predicate Dominates(f: seq<Block>, d: BlockId, b: BlockId) {
    forall p: seq<BlockId> :: IsWalk(f, p) && p[0] == ENTRY && p[|p| - 1] == b ==> d in p
  }

  ghost predicate At(order: seq<BlockId>, i: nat, b: BlockId) {
    i < |order| && order[i] == b
  }

  lemma WholeTraversal(f: seq<Block>)
    requires JumpsInside(f) && f != []
    ensures var s := Visit(f, ENTRY, Walked({}, []));
            && Keeps(f, ENTRY, s) && s.seen == (set b | b in s.order) && Pending(s) == {}
            && s.order != [] && s.order[|s.order| - 1] == ENTRY
            && forall x: BlockId :: x in s.order ==> Reaches(f, ENTRY, x)
  {
    var s0 := Walked({}, []);
    VisitKeeps(f, ENTRY, ENTRY, s0);
    var s := Visit(f, ENTRY, s0);
    assert Pending(s0) == {};
    forall b: BlockId | b in s.seen
      ensures b in s.order
    {
      NotPending(s, b);
    }
  }

  lemma NotPending(s: Walked, b: BlockId)
    requires Pending(s) == {} && b in s.seen
    ensures b in s.order
  {
    assert b !in Pending(s);
  }

  /** A set of blocks that contains the entry and every successor of its blocks
      contains whatever the entry reaches. */
  lemma {:induction false} ClosedCovers(f: seq<Block>, seen: set<BlockId>, p: seq<BlockId>, n: nat)
    requires IsWalk(f, p) && p[0] in seen && n < |p|
    requires forall x: BlockId, y: BlockId :: x in seen && Edge(f, x, y) ==> y in seen
    ensures p[n] in seen
  {
    if n > 0 {
      ClosedCovers(f, seen, p, n - 1);
      assert Edge(f, p[n - 1], p[n - 1 + 1]);
    }
  }

  /** The list, seen from behind. */
  lemma InOrder(f: seq<Block>, b: BlockId)
    requires JumpsInside(f) && f != []
    ensures var s := Visit(f, ENTRY, Walked({}, []));
            && |Order(f)| == |s.order| && (s.order != [] ==> Order(f)[0] == s.order[|s.order| - 1])
            && (b in Order(f) <==> b in s.order)
  {
    hide Visit;
    var s := Visit(f, ENTRY, Walked({}, []));
    var o := Order(f);
    if b in s.order {
      var j :| 0 <= j < |s.order| && s.order[j] == b;
      assert o[|o| - 1 - j] == b;
    }
  }

  lemma Behind(f: seq<Block>, i: nat)
    requires JumpsInside(f) && f != [] && i < |Order(f)|
    ensures var s := Visit(f, ENTRY, Walked({}, [])); i < |s.order| && Order(f)[i] == s.order[|s.order| - 1 - i]
  {
    hide Visit;
  }

  lemma ReversedDistinct(s: seq<BlockId>)
    requires Distinct(s)
    ensures Distinct(Reversed(s))
  {
    var r := Reversed(s);
    forall i, j | 0 <= i < j < |r|
      ensures r[i] != r[j]
    {
      assert s[|s| - 1 - j] != s[|s| - 1 - i];
    }
  }

  /** Exactly the blocks the entry reaches are listed, once each, the entry first. */
  lemma OrderIsExact(f: seq<Block>)
    requires JumpsInside(f) && f != []
    ensures var o := Order(f);
            && o != [] && o[0] == ENTRY && Distinct(o)
            && forall b: BlockId :: b in o <==> b < |f| && Reaches(f, ENTRY, b)
  {
    hide Visit, Order, Reaches, IsWalk;
    WholeTraversal(f);
    InOrder(f, ENTRY);
    var s := Visit(f, ENTRY, Walked({}, []));
    LeftAreClosed(f, s);
    assert Distinct(Order(f)) by { OrderDistinct(f); }
    forall b: BlockId
      ensures b in Order(f) <==> b < |f| && Reaches(f, ENTRY, b)
    {
      InOrder(f, b);
      if b < |f| && Reaches(f, ENTRY, b) {
        ReachedIsSeen(f, s.seen, b);
      }
    }
  }

  lemma OrderDistinct(f: seq<Block>)
    requires JumpsInside(f) && f != []
    ensures Distinct(Order(f))
  {
    hide Visit, Reversed, Distinct;
    WholeTraversal(f);
    ReversedDistinct(Visit(f, ENTRY, Walked({}, [])).order);
  }

  lemma ReachedIsSeen(f: seq<Block>, seen: set<BlockId>, b: BlockId)
    requires ENTRY in seen && Reaches(f, ENTRY, b)
    requires forall x: BlockId, y: BlockId :: x in seen && Edge(f, x, y) ==> y in seen
    ensures b in seen
  {
    var p: seq<BlockId> :| IsWalk(f, p) && p[0] == ENTRY && p[|p| - 1] == b;
    ClosedCovers(f, seen, p, |p| - 1);
  }

  lemma LeftAreClosed(f: seq<Block>, s: Walked)
    requires Keeps(f, ENTRY, s) && s.seen == (set b | b in s.order)
    ensures forall x: BlockId, y: BlockId :: x in s.seen && Edge(f, x, y) ==> y in s.seen
  {
    hide Reaches, Edge, EdgesKept, Entered;
    forall x: BlockId, y: BlockId | x in s.seen && Edge(f, x, y)
      ensures y in s.seen
    {
      assert x in s.order;
      EdgeFromLeft(f, s, x, y);
    }
  }

  lemma EdgeFromLeft(f: seq<Block>, s: Walked, x: BlockId, y: BlockId)
    requires EdgesKept(f, s) && x in s.order && Edge(f, x, y)
    ensures y in s.seen
  {
    hide Reaches, Edge;
    var i :| 0 <= i < |s.order| && s.order[i] == x;
  }

  /** An edge to a block that does not come later closes a cycle. */
  lemma RetreatingEdgesClose(f: seq<Block>, i: nat, j: nat)
    requires JumpsInside(f) && f != [] && i < |Order(f)| && j <= i && Edge(f, Order(f)[i], Order(f)[j])
    ensures Reaches(f, Order(f)[j], Order(f)[i])
  {
    hide Visit, Order, Reaches, Edge, Keeps, Pending;
    WholeTraversal(f);
    InOrder(f, ENTRY);
    var s := Visit(f, ENTRY, Walked({}, []));
    var n := |s.order|;
    assert Order(f)[i] == s.order[n - 1 - i] && Order(f)[j] == s.order[n - 1 - j] by { Behind(f, i); Behind(f, j); }
    BackEdge(f, s, n - 1 - i, n - 1 - j);
  }

  lemma BackEdge(f: seq<Block>, s: Walked, k: nat, m: nat)
    requires Keeps(f, ENTRY, s) && k <= m < |s.order| && Edge(f, s.order[k], s.order[m])
    ensures Reaches(f, s.order[m], s.order[k])
  {
    hide Reaches, Edge;
    var v := s.order[m];
    assert EdgesKept(f, s);
    assert Edge(f, s.order[k], v);
    assert v in s.seen;
    assert v in s.order[..k] || Reaches(f, v, s.order[k]);
  }

  /** Every block but the entry comes after one of its predecessors. */
  lemma PredecessorBefore(f: seq<Block>, i: nat) returns (j: nat)
    requires JumpsInside(f) && f != [] && 0 < i < |Order(f)|
    ensures j < i && Edge(f, Order(f)[j], Order(f)[i])
  {
    hide Visit, Order, Edge, Reaches, Keeps;
    WholeTraversal(f);
    InOrder(f, ENTRY);
    var s := Visit(f, ENTRY, Walked({}, []));
    var n := |s.order|;
    var m := EnteredFrom(f, s, n - 1 - i);
    j := n - 1 - m;
    Behind(f, i);
    Behind(f, j);
  }

  lemma EnteredFrom(f: seq<Block>, s: Walked, k: nat) returns (m: nat)
    requires Keeps(f, ENTRY, s) && Pending(s) == {} && k < |s.order| - 1 && s.order[|s.order| - 1] == ENTRY
    ensures k < m < |s.order| && Edge(f, s.order[m], s.order[k])
  {
    hide Edge, EdgesKept;
    assert s.order[k] != ENTRY;
    assert EnteredAt(f, s, k);
    var p: BlockId :| Edge(f, p, s.order[k]) && (p in Pending(s) || p in s.order[k + 1..]);
    var rest := s.order[k + 1..];
    var i :| 0 <= i < |rest| && rest[i] == p;
    m := k + 1 + i;
  }

  /** A walk from the entry to the block at position `i` over blocks listed no later. */
  lemma {:induction false} ForwardWalk(f: seq<Block>, i: nat) returns (p: seq<BlockId>)
    requires JumpsInside(f) && f != [] && i < |Order(f)|
    ensures IsWalk(f, p) && p[0] == ENTRY && p[|p| - 1] == Order(f)[i]
    ensures forall x: BlockId :: x in p ==> exists j: nat :: j <= i && At(Order(f), j, x)
    decreases i
  {
    hide Order;
    OrderIsExact(f);
    var o := Order(f);
    assert At(o, i, o[i]);
    if i == 0 {
      p := [ENTRY];
    } else {
      var j := PredecessorBefore(f, i);
      var q := ForwardWalk(f, j);
      p := q + [o[i]];
      forall x: BlockId | x in p
        ensures exists m: nat :: m <= i && At(o, m, x)
      {
        if x in q {
          var m: nat :| m <= j && At(o, m, x);
          assert m <= i;
        }
      }
    }
  }

  /** A block's dominators come no later than the block. */
  lemma DominatorsFirst(f: seq<Block>, d: BlockId, i: nat)
    requires JumpsInside(f) && f != [] && i < |Order(f)| && Dominates(f, d, Order(f)[i])
    ensures exists j: nat :: j <= i && At(Order(f), j, d)
  {
    hide Order;
    var p := ForwardWalk(f, i);
    assert d in p;
  }

  // ---- The traversal in place ----------------------------------------------------------------------------------

  class Traversal {
    const f: seq<Block>
    const visited: array<bool>
    var order: seq<BlockId>

    ghost predicate Valid()
      reads this
    {
      JumpsInside(f) && visited.Length == |f|
    }

    ghost function Now(): Walked
      reads this, visited
      requires Valid()
    {
      Walked((set i: nat | i < visited.Length && visited[i]), order)
    }

    constructor (f: seq<Block>)
      requires JumpsInside(f)
      ensures Valid() && this.f == f && fresh(visited) && Now() == Walked({}, [])
    {
      this.f := f;
      visited := new bool[|f|](_ => false);
      order := [];
    }

    method Dfs(b: BlockId)
      requires Valid() && b < |f|
      modifies this`order, visited
      ensures Valid() && Now() == Visit(f, b, old(Now()))
      decreases |Ids(f) - Now().seen|, 0
    {
      assert Now().seen <= Ids(f);
      if visited[b] {
        return;
      }
      visited[b] := true;
      assert Now() == old(Now()).(seen := old(Now()).seen + {b});
      Smaller(Ids(f) - Now().seen, Ids(f) - old(Now()).seen);
      SuccsInside(f, b);
      ghost var entered := Now();
      var succs := SuccList(f[b].term);
      var i := 0;
      while i < |succs|
        invariant 0 <= i <= |succs| && Valid() && Now().seen <= Ids(f) && entered.seen <= Now().seen
        invariant ListInside(f, succs[i..])
        invariant VisitAll(f, succs, entered) == VisitAll(f, succs[i..], Now())
      {
        assert succs[i..][0] == succs[i] && succs[i..][1..] == succs[i + 1..];
        Fewer(Ids(f) - Now().seen, Ids(f) - entered.seen);
        Dfs(succs[i]);
        i := i + 1;
      }
      order := order + [b];
    }
  }

  method ReversePostOrder(f: seq<Block>) returns (o: seq<BlockId>)
    requires JumpsInside(f) && f != []
    ensures o == Order(f)
  {
    var t := new Traversal(f);
    t.Dfs(ENTRY);
    o := Reversed(t.order);
  }
}
