/** The unwind table of a compiled module: live entries are packed to the front, the
    rest is zeroed, and the live ones are sorted, all in place. */
module Unwind {
  import opened Ir

  datatype Entry = Entry(begin: nat, end: nat, data: nat)

  const ZERO := Entry(0, 0, 0)

  predicate Live(e: Entry) { e.begin < e.end }

  function LiveOf(s: seq<Entry>): (r: seq<Entry>)
    ensures |r| <= |s|
  {
    if s == [] then []
    else LiveOf(s[..|s| - 1]) + if Live(s[|s| - 1]) then [s[|s| - 1]] else []
  }

  // ---- Sorting -------------------------------------------------------------------------------

  /** Behind all entries that do not begin later: a stable sort has one result only. */
  function Insert(e: Entry, s: seq<Entry>): (r: seq<Entry>)
    ensures |r| == |s| + 1
  {
    if s == [] || e.begin >= s[|s| - 1].begin then s + [e] else Insert(e, s[..|s| - 1]) + [s[|s| - 1]]
  }

  function Sort(s: seq<Entry>): (r: seq<Entry>)
    ensures |r| == |s|
  {
    if s == [] then [] else Insert(s[|s| - 1], Sort(s[..|s| - 1]))
  }

  ghost predicate Sorted(s: seq<Entry>) {
    forall i, j :: 0 <= i < j < |s| ==> s[i].begin <= s[j].begin
  }

  lemma {:induction false} InsertKeeps(e: Entry, s: seq<Entry>)
    ensures multiset(Insert(e, s)) == multiset(s) + multiset{e}
    decreases |s|
  {
    if s != [] && e.begin < s[|s| - 1].begin {
      InsertKeeps(e, s[..|s| - 1]);
      assert s == s[..|s| - 1] + [s[|s| - 1]];
    }
  }

  lemma {:induction false} InsertSorts(e: Entry, s: seq<Entry>)
    requires Sorted(s)
    ensures Sorted(Insert(e, s))
    decreases |s|
  {
    if s == [] || s[|s| - 1].begin <= e.begin {
      InsertHere(e, s);
    } else {
      var (init, last) := (s[..|s| - 1], s[|s| - 1]);
      InsertSorts(e, init);
      AllBefore(e, init, last);
      SortedSnoc(Insert(e, init), last);
    }
  }

  lemma AllBefore(e: Entry, s: seq<Entry>, last: Entry)
    requires e.begin <= last.begin && forall i :: 0 <= i < |s| ==> s[i].begin <= last.begin
    ensures forall x :: x in multiset(Insert(e, s)) ==> x.begin <= last.begin
  {
    hide Insert;
    InsertKeeps(e, s);
    forall x | x in multiset(Insert(e, s))
      ensures x.begin <= last.begin
    {
      assert x == e || x in s;
    }
  }

  lemma SortedSnoc(s: seq<Entry>, last: Entry)
    requires Sorted(s) && forall x :: x in multiset(s) ==> x.begin <= last.begin
    ensures Sorted(s + [last])
  {
    forall i | 0 <= i < |s|
      ensures s[i].begin <= last.begin
    {
      assert s[i] in multiset(s);
    }
  }

  /** The same entries, each as often, in order. */
  lemma {:induction false} SortIs(s: seq<Entry>)
    ensures Sorted(Sort(s)) && multiset(Sort(s)) == multiset(s)
    decreases |s|
  {
    if s != [] {
      var (init, last) := (s[..|s| - 1], s[|s| - 1]);
      SortIs(init);
      assert s == init + [last];
      InsertKeeps(last, Sort(init));
      InsertSorts(last, Sort(init));
    }
  }

  // ---- The table, in place ----------------------------------------------------------------------

  /** Packs live entries to the front and zeroes the others. */
  method Pack(entries: array<Entry>) returns (live: nat)
    modifies entries
    ensures live == |LiveOf(old(entries[..]))|
    ensures entries[..live] == LiveOf(old(entries[..])) && forall i :: live <= i < entries.Length ==> entries[i] == ZERO
  {
    live := 0;
    ghost var was := entries[..];
    for i := 0 to entries.Length
      invariant live <= i && entries[..live] == LiveOf(was[..i]) && entries[i..] == was[i..]
    {
      assert was[..i + 1][..i] == was[..i];
      assert entries[i] == was[i];
      if entries[i].begin < entries[i].end {
        if i != live {
          entries[live] := entries[i];
        }
        live := live + 1;
      }
    }
    assert was[..entries.Length] == was;
    for i := live to entries.Length
      invariant entries[..live] == LiveOf(was) && forall j :: live <= j < i ==> entries[j] == ZERO
    {
      entries[i] := ZERO;
    }
  }

  /** Moves the entry behind a sorted stretch to its place in it. */
  method InsertInPlace(entries: array<Entry>, n: nat)
    requires n < entries.Length
    modifies entries
    ensures entries[..n + 1] == Insert(old(entries[n]), old(entries[..n])) && entries[n + 1..] == old(entries[n + 1..])
  {
    hide Insert;
    var e := entries[n];
    ghost var was := entries[..];
    var k := n;
    while k > 0 && entries[k - 1].begin > e.begin
      invariant k <= n
      invariant forall j :: 0 <= j < k || n < j < entries.Length ==> entries[j] == was[j]
      invariant forall j :: k < j <= n ==> entries[j] == was[j - 1]
      invariant Insert(e, was[..n]) == Insert(e, was[..k]) + was[k..n]
    {
      InsertShift(e, was, k, n);
      entries[k] := entries[k - 1];
      k := k - 1;
    }
    InsertHere(e, was[..k]);
    entries[k] := e;
    assert entries[..n + 1] == was[..k] + [e] + was[k..n];
  }

  lemma InsertShift(e: Entry, s: seq<Entry>, k: nat, n: nat)
    requires 0 < k <= n <= |s| && e.begin < s[k - 1].begin
    ensures Insert(e, s[..k]) + s[k..n] == Insert(e, s[..k - 1]) + s[k - 1..n]
  {
    hide Insert;
    assert s[..k] == s[..k - 1] + [s[k - 1]] && s[k - 1..n] == [s[k - 1]] + s[k..n];
    InsertBefore(e, s[..k - 1], s[k - 1]);
  }

  lemma InsertBefore(e: Entry, s: seq<Entry>, last: Entry)
    requires e.begin < last.begin
    ensures Insert(e, s + [last]) == Insert(e, s) + [last]
  {
    assert (s + [last])[..|s|] == s;
  }

  lemma InsertHere(e: Entry, s: seq<Entry>)
    requires s == [] || s[|s| - 1].begin <= e.begin
    ensures Insert(e, s) == s + [e]
  {
  }

  /** A stable sort of the first `live` entries by where they begin. */
  method SortFront(entries: array<Entry>, live: nat)
    requires live <= entries.Length
    modifies entries
    ensures entries[..live] == Sort(old(entries[..live])) && entries[live..] == old(entries[live..])
  {
    hide Sort, Insert;
    ghost var all := entries[..];
    ghost var was := entries[..live];
    assert was[..0] == [] && Sort([]) == [] by { SortNothing(); }
    for i := 0 to live
      invariant entries[..i] == Sort(was[..i]) && entries[i..] == all[i..]
    {
      assert entries[i] == all[i] == was[i];
      assert entries[i + 1..] == entries[i..][1..] == all[i + 1..];
      SortStep(was, i);
      InsertInPlace(entries, i);
    }
    assert was[..live] == was;
  }

  lemma SortNothing()
    ensures Sort([]) == []
  {
  }

  lemma SortStep(s: seq<Entry>, i: nat)
    requires i < |s|
    ensures Sort(s[..i + 1]) == Insert(s[i], Sort(s[..i]))
  {
    assert s[..i + 1][..i] == s[..i];
  }

  /** The table that is registered: the live entries in order, and zeroes behind. */
  method PackAndSort(entries: array<Entry>) returns (live: nat)
    modifies entries
    ensures live <= entries.Length && entries[..live] == Sort(LiveOf(old(entries[..])))
    ensures forall i :: live <= i < entries.Length ==> entries[i] == ZERO
  {
    live := Pack(entries);
    ghost var tail := entries[live..];
    assert forall i :: 0 <= i < |tail| ==> tail[i] == ZERO;
    SortFront(entries, live);
    assert forall i :: live <= i < entries.Length ==> entries[i] == tail[i - live];
  }

  // ---- Searching the table ------------------------------------------------------------------------

  predicate Contains(e: Entry, pc: nat) { e.begin <= pc < e.end }

  /** No two places of the table hold entries that overlap. */
  ghost predicate Disjoint(s: seq<Entry>) {
    forall i, j :: 0 <= i < j < |s| ==> s[i].end <= s[j].begin || s[j].end <= s[i].begin
  }

  /** The unwinder's search, which relies on the order. */
  method Search(table: seq<Entry>, pc: nat) returns (found: Option<Entry>)
    requires Sorted(table) && Disjoint(table) && forall i :: 0 <= i < |table| ==> Live(table[i])
    ensures found.Some? ==> found.value in table && Contains(found.value, pc)
    ensures found.None? ==> forall e :: e in table ==> !Contains(e, pc)
  {
    var lo, hi := 0, |table|;
    while lo < hi
      invariant lo <= hi <= |table|
      invariant forall i :: 0 <= i < lo ==> table[i].end <= pc
      invariant forall i :: hi <= i < |table| ==> pc < table[i].begin
    {
      var mid := (lo + hi) / 2;
      if pc < table[mid].begin {
        hi := mid;
      } else if table[mid].end <= pc {
        lo := mid + 1;
      } else {
        return Some(table[mid]);
      }
    }
    found := None;
  }

  lemma {:induction false} LiveOfIs(s: seq<Entry>, e: Entry)
    ensures multiset(LiveOf(s))[e] == if Live(e) then multiset(s)[e] else 0
    decreases |s|
  {
    if s != [] {
      LiveOfIs(s[..|s| - 1], e);
      assert s == s[..|s| - 1] + [s[|s| - 1]];
    }
  }

  ghost predicate DisjointMembers(m: multiset<Entry>) {
    && (forall e, f :: e in m && f in m && e != f ==> e.end <= f.begin || f.end <= e.begin)
    && forall e :: e in m ==> m[e] == 1
  }

  lemma DisjointSeq(s: seq<Entry>)
    requires DisjointMembers(multiset(s))
    ensures Disjoint(s)
  {
    forall i, j | 0 <= i < j < |s|
      ensures s[i].end <= s[j].begin || s[j].end <= s[i].begin
    {
      assert s[i] in multiset(s) && s[j] in multiset(s);
      SameTwice(s, i, j);
    }
  }

  lemma SameTwice(s: seq<Entry>, i: nat, j: nat)
    requires i < j < |s|
    ensures s[i] == s[j] ==> multiset(s)[s[i]] >= 2
  {
    assert s == s[..j] + s[j..];
    assert s[i] == s[..j][i] && s[i] in multiset(s[..j]);
    assert s[j] == s[j..][0] && s[j] in multiset(s[j..]);
  }

  /** What the search asks of a table holds of the packed and sorted one. */
  lemma TableIsReady(was: seq<Entry>)
    requires DisjointMembers(multiset(LiveOf(was)))
    ensures var table := Sort(LiveOf(was));
            Sorted(table) && Disjoint(table) && forall i :: 0 <= i < |table| ==> Live(table[i])
  {
    hide LiveOf, Sort, Sorted, Disjoint, DisjointMembers, Live;
    var table := Sort(LiveOf(was));
    SortIs(LiveOf(was));
    DisjointSeq(table);
    forall i | 0 <= i < |table|
      ensures Live(table[i])
    {
      assert table[i] in multiset(table);
      LiveOfIs(was, table[i]);
    }
  }

  /** In the registered table an entry is found for an address exactly when an entry of the
      section, as the linker left it, contains the address. */
  method FindAfterPacking(entries: array<Entry>, pc: nat) returns (found: Option<Entry>)
    requires DisjointMembers(multiset(LiveOf(entries[..])))
    modifies entries
    ensures found.Some? ==> found.value in old(entries[..]) && Contains(found.value, pc)
    ensures found.None? ==> forall e :: e in old(entries[..]) ==> !Contains(e, pc)
  {
    ghost var was := entries[..];
    var live := PackAndSort(entries);
    TableIsReady(was);
    found := Search(entries[..live], pc);
    SameEntries(was, pc);
  }

  lemma SameEntries(was: seq<Entry>, pc: nat)
    ensures forall e :: e in Sort(LiveOf(was)) && Contains(e, pc) <==> e in was && Contains(e, pc)
  {
    hide LiveOf, Sort;
    SortIs(LiveOf(was));
    var table := Sort(LiveOf(was));
    forall e
      ensures e in table && Contains(e, pc) <==> e in was && Contains(e, pc)
    {
      LiveOfIs(was, e);
      assert e in table <==> e in multiset(table);
      assert e in was <==> e in multiset(was);
    }
  }
}
