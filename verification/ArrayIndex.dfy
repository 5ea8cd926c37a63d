/** Row-major flattening of array indices: which element an index list names. */
module ArrayIndex {
  import opened Ir
  import opened Machine
  import opened Source

  /** The offset of the element, or of the start of the sub-array, that `vs` selects. */
  function Flat(dims: seq<Dim>, vs: seq<int>): int {
    if vs == [] || dims == [] then 0
    else (vs[0] - dims[0].lo) * Total(dims[1..]) + Flat(dims[1..], vs[1..])
  }

  ghost predicate Counted(dims: seq<Dim>) {
    forall d :: d in dims ==> d.count >= 1
  }

  ghost predicate InBounds(dims: seq<Dim>, vs: seq<int>) {
    |vs| <= |dims| && forall k :: 0 <= k < |vs| ==> dims[k].lo <= vs[k] < dims[k].lo + dims[k].count
  }

  lemma {:induction false} TotalAtLeastOne(dims: seq<Dim>)
    requires Counted(dims)
    ensures Total(dims) >= 1
    decreases |dims|
  {
    if dims != [] {
      TotalAtLeastOne(dims[1..]);
      Mul(1, dims[0].count, Total(dims[1..]));
    }
  }

  lemma Mul(a: int, b: int, m: int)
    requires a <= b && m >= 0
    ensures a * m <= b * m
  {
    assert (b - a) * m >= 0;
  }

  /** The selected sub-array lies inside the array: its start is not negative, and as
      many elements as the remaining dimensions have still fit. */
  lemma {:induction false} FlatInside(dims: seq<Dim>, vs: seq<int>)
    requires Counted(dims) && InBounds(dims, vs)
    ensures 0 <= Flat(dims, vs) && Flat(dims, vs) + Total(dims[|vs|..]) <= Total(dims)
    decreases |vs|
  {
    if vs != [] {
      FlatInside(dims[1..], vs[1..]);
      var t := Total(dims[1..]);
      TotalAtLeastOne(dims[1..]);
      Mul(0, vs[0] - dims[0].lo, t);
      Mul(vs[0] - dims[0].lo + 1, dims[0].count, t);
      assert (vs[0] - dims[0].lo + 1) * t == (vs[0] - dims[0].lo) * t + t;
      assert dims[1..][|vs[1..]|..] == dims[|vs|..];
    } else {
      assert dims[0..] == dims;
    }
  }

  lemma Apart(a: int, b: int, m: int)
    requires m >= 0
    ensures a < b ==> a * m + m <= b * m
  {
    if a < b {
      Mul(a + 1, b, m);
      assert (a + 1) * m == a * m + m;
    }
  }

  /** A quotient and a remainder are determined by what they make. */
  lemma Digits(a: int, r: int, b: int, s: int, m: int)
    requires 0 <= r < m && 0 <= s < m && a * m + r == b * m + s
    ensures a == b && r == s
  {
    Apart(a, b, m);
    Apart(b, a, m);
  }

  lemma QuotientFits(n: int, count: int, t: int)
    requires t >= 1 && 0 <= n < count * t
    ensures 0 <= n / t < count && n == (n / t) * t + n % t
  {
    assert n == t * (n / t) + n % t;
    Apart(n / t, count, t);
    Apart(count, n / t, t);
  }

  /** Different index lists of the same length select different places. */
  lemma {:induction false} FlatInjective(dims: seq<Dim>, vs: seq<int>, us: seq<int>)
    requires Counted(dims) && InBounds(dims, vs) && InBounds(dims, us) && |vs| == |us| && Flat(dims, vs) == Flat(dims, us)
    ensures vs == us
    decreases |vs|
  {
    if vs != [] {
      var t := Total(dims[1..]);
      FlatInside(dims[1..], vs[1..]);
      FlatInside(dims[1..], us[1..]);
      TotalAtLeastOne(dims[1..][|vs[1..]|..]);
      Digits(vs[0] - dims[0].lo, Flat(dims[1..], vs[1..]), us[0] - dims[0].lo, Flat(dims[1..], us[1..]), t);
      FlatInjective(dims[1..], vs[1..], us[1..]);
      assert vs == [vs[0]] + vs[1..] && us == [us[0]] + us[1..];
    }
  }

  /** Every element has an index list. */
  lemma {:induction false} FlatOnto(dims: seq<Dim>, n: int) returns (vs: seq<int>)
    requires Counted(dims) && 0 <= n < Total(dims)
    ensures |vs| == |dims| && InBounds(dims, vs) && Flat(dims, vs) == n
    decreases |dims|
  {
    if dims == [] {
      vs := [];
    } else {
      var t := Total(dims[1..]);
      TotalAtLeastOne(dims[1..]);
      var q := n / t;
      QuotientFits(n, dims[0].count, t);
      var rest := FlatOnto(dims[1..], n % t);
      vs := [dims[0].lo + q] + rest;
      assert vs[1..] == rest;
      forall k | 0 <= k < |vs|
        ensures dims[k].lo <= vs[k] < dims[k].lo + dims[k].count
      {
        if k > 0 {
          assert vs[k] == rest[k - 1] && dims[k] == dims[1..][k - 1];
        }
      }
    }
  }

  /** A list cut short selects the start of the sub-array the longer lists go into. */
  lemma {:induction false} FlatSplits(dims: seq<Dim>, vs: seq<int>, us: seq<int>)
    requires |vs| + |us| <= |dims|
    ensures Flat(dims, vs + us) == Flat(dims, vs) + Flat(dims[|vs|..], us)
    decreases |vs|
  {
    if vs == [] {
      assert vs + us == us && dims[0..] == dims;
    } else {
      FlatSplits(dims[1..], vs[1..], us);
      assert (vs + us)[1..] == vs[1..] + us && dims[1..][|vs[1..]|..] == dims[|vs|..];
    }
  }

  /** What the index expressions of a designator evaluate to, as far as they are
      within bounds. */
  function Values(w: World, dims: seq<Dim>, ixs: seq<Expr>, st: State): seq<int>
    decreases |ixs|
  {
    if ixs == [] || dims == [] then []
    else match Eval(w, ixs[0], st)
      case Escaped(_) => []
      case Val(v, st1) =>
        if !(dims[0].lo <= v < dims[0].lo + dims[0].count) then []
        else [v as int] + Values(w, dims[1..], ixs[1..], st1)
  }

  /** A designator that does not raise an exception names the element its index values
      select. */
  lemma {:induction false} RankIsFlat(w: World, dims: seq<Dim>, ixs: seq<Expr>, st: State)
    requires |ixs| <= |dims| && Rank(w, dims, ixs, st).Val?
    ensures var vs := Values(w, dims, ixs, st);
            |vs| == |ixs| && InBounds(dims, vs) && Rank(w, dims, ixs, st).v == Flat(dims, vs)
    decreases |ixs|
  {
    if ixs != [] {
      var st1 := Eval(w, ixs[0], st).st;
      RankIsFlat(w, dims[1..], ixs[1..], st1);
      var vs := Values(w, dims, ixs, st);
      assert vs[1..] == Values(w, dims[1..], ixs[1..], st1);
      forall k | 0 <= k < |vs|
        ensures dims[k].lo <= vs[k] < dims[k].lo + dims[k].count
      {
        if k > 0 {
          assert vs[k] == vs[1..][k - 1] && dims[k] == dims[1..][k - 1];
        }
      }
    }
  }

  /** Two designators of one array that name the same element have the same indices. */
  lemma SameElementSameIndices(w: World, x: string, dims: seq<Dim>, ixs: seq<Expr>, jxs: seq<Expr>, st: State, st1: State)
    requires GoodDims(dims) && |ixs| == |jxs| <= |dims|
    requires Locate(w, Elem(x, dims, ixs), st).Val? && Locate(w, Elem(x, dims, jxs), st1).Val?
    ensures Locate(w, Elem(x, dims, ixs), st).v == Locate(w, Elem(x, dims, jxs), st1).v
            <==> Values(w, dims, ixs, st) == Values(w, dims, jxs, st1)
  {
    RankIsFlat(w, dims, ixs, st);
    RankIsFlat(w, dims, jxs, st1);
    if Rank(w, dims, ixs, st).v == Rank(w, dims, jxs, st1).v {
      FlatInjective(dims, Values(w, dims, ixs, st), Values(w, dims, jxs, st1));
    }
  }
}
