/** Memory for code compiled at run time: sections cut from one reservation. */
module Jit {
  import opened Ir

  const PAGE: nat := 4096
  const MODULE_RESERVE: nat := 4 * 1024 * 1024
  const TWO64: nat := 0x1_0000_0000_0000_0000

  // ---- Sections ----------------------------------------------------------------------------

  ghost predicate IsPowerOfTwo(a: nat)
    decreases a
  {
    a == 1 || (a > 1 && a % 2 == 0 && IsPowerOfTwo(a / 2))
  }

  /** The next multiple, the sum and the mask in 64 bits; the mask clears what is left
      over, since the alignment is a power of two. */
  function AlignUp(x: nat, a: nat): nat
    requires a >= 1
  {
    var y := (x + a - 1) % TWO64;
    y - y % a
  }

  function Max(a: nat, b: nat): nat { if a < b then b else a }

  /** What is asked for, and whether the system would commit pages it could commit. */
  datatype Request = Request(size: nat, align: nat, granted: bool)

  datatype Section = Section(start: nat, size: nat, align: nat)

  function StartFor(used: nat, req: Request): nat {
    AlignUp(AlignUp(used, PAGE), Max(req.align, 8))
  }

  function EndFor(used: nat, req: Request): nat {
    AlignUp((StartFor(used, req) + req.size) % TWO64, PAGE)
  }

  /** Pages can be committed inside the reservation only, and not none of them. */
  predicate Commits(start: nat, count: nat, granted: bool) {
    granted && 0 < count && start + count <= MODULE_RESERVE
  }

  /** A difference in unsigned 64 bits. */
  function Minus(a: nat, b: nat): nat { (a - b) % TWO64 }

  /** Where the section is put, if anywhere. */
  function Place(used: nat, req: Request): Option<nat> {
    var (start, end) := (StartFor(used, req), EndFor(used, req));
    if req.size == 0 || end > MODULE_RESERVE || !Commits(start, Minus(end, start), req.granted) then None
    else Some(start)
  }

  function UsedAfter(used: nat, req: Request): nat {
    if Place(used, req).None? then used else EndFor(used, req)
  }

  class Bump {
    const reserved: bool
    var used: nat

    constructor (reserved: bool)
      ensures used == 0 && this.reserved == reserved
    {
      used, this.reserved := 0, reserved;
    }

    method Alloc(req: Request) returns (at: Option<nat>)
      modifies this
      ensures reserved ==> at == Place(old(used), req) && used == UsedAfter(old(used), req)
      ensures !reserved ==> at == None && used == old(used)
      ensures reserved && old(used) <= 0x40_0000 && Asked(req) ==>
        forall s: nat, e: nat :: FirstFit(s, e, old(used), req) ==>
          if req.size > 0 && req.granted && e <= 0x40_0000 then at == Some(s) && used == e else at == None && used == old(used)
    {
      if reserved && used <= 0x40_0000 && Asked(req) {
        forall s: nat, e: nat | FirstFit(s, e, used, req)
          ensures Place(used, req) == if req.size > 0 && req.granted && e <= 0x40_0000 then Some(s) else None
          ensures UsedAfter(used, req) == if req.size > 0 && req.granted && e <= 0x40_0000 then e else used
        {
          PlacedIff(used, req, s, e);
        }
      }
      if req.size == 0 {
        return None;
      }
      if !reserved {
        return None;
      }
      var start := AlignUp(used, PAGE);
      var userAlign := Max(req.align, 8);
      start := AlignUp(start, userAlign);
      var end := (start + req.size) % TWO64;
      var endRounded := AlignUp(end, PAGE);
      if endRounded > MODULE_RESERVE {
        return None;
      }
      var committed := Commits(start, Minus(endRounded, start), req.granted);
      if !committed {
        return None;
      }
      used := endRounded;
      return Some(start);
    }
  }

  /** All sections of a run of requests, in order. */
  function Sections(used: nat, reqs: seq<Request>): seq<Section>
    decreases |reqs|
  {
    if reqs == [] then []
    else
      var rest := Sections(UsedAfter(used, reqs[0]), reqs[1..]);
      match Place(used, reqs[0])
      case None => rest
      case Some(at) => [Section(at, reqs[0].size, reqs[0].align)] + rest
  }

  /** What a caller may ask for: any size of 64 bits, a power of two of 32 bits to align to. */
  ghost predicate Asked(req: Request) {
    IsPowerOfTwo(req.align) && req.align < 0x1_0000_0000 && req.size < TWO64
  }

  predicate Aligned(s: Section) {
    s.start % PAGE == 0 && s.start % Max(s.align, 8) == 0
  }

  lemma {:induction false} PowersDivide(a: nat, b: nat)
    requires IsPowerOfTwo(a) && IsPowerOfTwo(b) && a <= b
    ensures b % a == 0
    decreases b
  {
    if a > 1 {
      PowersDivide(a / 2, b / 2);
      TwiceDivides(a / 2, b / 2);
    }
  }

  lemma TwiceDivides(a: nat, b: nat)
    requires a >= 1 && b % a == 0
    ensures 2 * b % (2 * a) == 0
  {
    var k := b / a;
    assert b == k * a;
    assert 2 * b == k * (2 * a);
    TimesMod(k, 2 * a);
  }

  lemma AtLeastOnce(k: int, m: nat)
    ensures k >= 1 ==> k * m >= m
    ensures k <= -1 ==> k * m + m <= 0
  {
  }

  lemma TimesMod(k: nat, m: nat)
    requires m >= 1
    ensures k * m % m == 0
  {
    var x := k * m;
    var (q, r) := (x / m, x % m);
    assert x == q * m + r;
    assert (k - q) * m == r;
    AtLeastOnce(k - q, m);
  }

  lemma AlignUpIs(x: nat, a: nat)
    requires a >= 1 && x + a - 1 < TWO64
    ensures x <= AlignUp(x, a) < x + a && AlignUp(x, a) % a == 0
  {
    var y := x + a - 1;
    var q := y / a;
    assert y - y % a == q * a;
    TimesMod(q, a);
  }

  /** One section: aligned, behind what has been used, and before what is used afterwards. */
  lemma OneSection(used: nat, req: Request)
    requires used <= MODULE_RESERVE && Asked(req)
    ensures used <= UsedAfter(used, req) <= MODULE_RESERVE
    ensures var p := Place(used, req);
            p.Some? ==> used <= p.value && p.value + req.size <= UsedAfter(used, req) && Aligned(Section(p.value, req.size, req.align))
  {
    hide AlignUp;
    var a := Max(req.align, 8);
    AlignUpIs(used, PAGE);
    var page := AlignUp(used, PAGE);
    AlignUpIs(page, a);
    PageKept(page, req.align);
    if Place(used, req).Some? {
      GrantedIsInside(used, req);
      AlignUpIs(StartFor(used, req) + req.size, PAGE);
    }
  }

  /** A granted section has not wrapped around: were its end in front of its start, the
      pages to commit would be none or nearly all there are. */
  lemma GrantedIsInside(used: nat, req: Request)
    requires used <= MODULE_RESERVE && Asked(req) && Place(used, req).Some?
    ensures StartFor(used, req) + req.size + PAGE - 1 < TWO64
    ensures Place(used, req).value + req.size <= MODULE_RESERVE
  {
    hide AlignUp;
    var (start, end) := (StartFor(used, req), EndFor(used, req));
    AlignUpIs(used, PAGE);
    AlignUpIs(AlignUp(used, PAGE), Max(req.align, 8));
    PageKept(AlignUp(used, PAGE), req.align);
    WrappedIsRefused(start, req.size, req.granted);
    WrappedEnd(start + req.size);
    AlignUpIs(start + req.size, PAGE);
  }

  // ---- Every request that fits is granted ----------------------------------------------------------

  /** `s` is the first place from `used` on that is a page start and aligned as asked. */
  ghost predicate LeastAligned(s: nat, used: nat, align: nat)
    requires align >= 1
  {
    used <= s && s % 4096 == 0 && s % align == 0 && forall t: nat :: used <= t < s && t % 4096 == 0 ==> t % align != 0
  }

  /** `e` is the first page start from `x` on. */
  ghost predicate LeastPage(e: nat, x: nat) {
    x <= e && e % 4096 == 0 && forall t: nat :: x <= t < e ==> t % 4096 != 0
  }

  /** The first place that will do, and the end of its last page. */
  ghost predicate FirstFit(s: nat, e: nat, used: nat, req: Request)
    requires req.align >= 1
  {
    LeastAligned(s, used, req.align) && LeastPage(e, s + req.size)
  }

  lemma NoneBetween(x: nat, t: nat, y: nat, a: nat)
    requires a >= 1 && y % a == 0 && t < y < x + a && x <= t
    ensures t % a != 0
  {
    if t % a == 0 {
      NearestIsSelf(t, y, a);
    }
  }

  lemma UpIsLeast(x: nat, a: nat, t: nat)
    requires a >= 1 && x + a - 1 < TWO64 && x <= t < AlignUp(x, a)
    ensures t % a != 0
  {
    hide AlignUp;
    AlignUpIs(x, a);
    NoneBetween(x, t, AlignUp(x, a), a);
  }

  lemma StartIsLeast(used: nat, req: Request)
    requires used <= MODULE_RESERVE && Asked(req)
    ensures LeastAligned(StartFor(used, req), used, req.align) && StartFor(used, req) < TWO64 - PAGE
  {
    hide AlignUp;
    var a := Max(req.align, 8);
    var page := AlignUp(used, PAGE);
    AlignUpIs(used, PAGE);
    AlignUpIs(page, a);
    PageKept(page, req.align);
    var start := AlignUp(page, a);
    PowersDivide8(req.align);
    MultipleOf(start, a, req.align);
    forall t: nat | used <= t < start && t % 4096 == 0
      ensures t % req.align != 0
    {
      if t < page {
        UpIsLeast(used, PAGE, t);
      } else {
        UpIsLeast(page, a, t);
        PageIsEight(t);
      }
    }
  }

  lemma PageIsEight(t: nat)
    requires t % 4096 == 0
    ensures t % 8 == 0
  {
    MultipleOf(t, 4096, 8);
  }

  lemma PowersDivide8(align: nat)
    requires IsPowerOfTwo(align)
    ensures Max(align, 8) % align == 0
  {
    if align < 8 {
      assert IsPowerOfTwo(8) by { PowersOfTwo(); }
      PowersDivide(align, 8);
    } else {
      TimesMod(1, align);
    }
  }

  lemma LeastIsOne(s: nat, t: nat, used: nat, align: nat)
    requires align >= 1 && LeastAligned(s, used, align) && LeastAligned(t, used, align)
    ensures s == t
  {
  }

  /** A section is given if and only if something is asked for, the system commits, and the
      first place aligned to the page and as asked leaves room up to the end of a page; it
      is given at that place, and that page's end is where the next one may begin. */
  lemma PlacedIff(used: nat, req: Request, s: nat, e: nat)
    requires used <= 0x40_0000 && Asked(req) && FirstFit(s, e, used, req)
    ensures Place(used, req) == if req.size > 0 && req.granted && e <= 0x40_0000 then Some(s) else None
    ensures UsedAfter(used, req) == if req.size > 0 && req.granted && e <= 0x40_0000 then e else used
  {
    hide AlignUp, LeastAligned;
    StartIsLeast(used, req);
    LeastIsOne(s, StartFor(used, req), used, req.align);
    if s + req.size + PAGE - 1 < TWO64 {
      AlignUpIs(s + req.size, PAGE);
      var end := AlignUp(s + req.size, PAGE);
      assert end >= e;
      if e < end {
        UpIsLeast(s + req.size, PAGE, e);
      }
    } else if Place(used, req).Some? {
      GrantedIsInside(used, req);
    }
  }

  /** There is such a place and such an end. */
  lemma PlaceExists(used: nat, req: Request) returns (s: nat, e: nat)
    requires used <= 0x40_0000 && Asked(req)
    ensures FirstFit(s, e, used, req)
  {
    hide AlignUp, LeastAligned;
    StartIsLeast(used, req);
    s := StartFor(used, req);
    var x := s + req.size;
    e := x + (4096 - x % 4096) % 4096;
    forall t: nat | x <= t < e
      ensures t % 4096 != 0
    {
      NoneBetween(x, t, e, 4096);
    }
  }

  /** Rounding an end in front of a page start stays in front of it. */
  lemma EndInFront(start: nat, end: nat)
    requires start % PAGE == 0 && end < start < TWO64 - PAGE
    ensures AlignUp(end, PAGE) <= start
    ensures !Commits(start, Minus(AlignUp(end, PAGE), start), true)
  {
  }

  lemma WrappedIsRefused(start: nat, size: nat, granted: bool)
    requires start % PAGE == 0 && start < TWO64 - PAGE && size < TWO64
    ensures start + size >= TWO64 ==> !Commits(start, Minus(AlignUp((start + size) % TWO64, PAGE), start), granted)
  {
    hide AlignUp;
    if start + size >= TWO64 {
      EndInFront(start, start + size - TWO64);
    }
  }

  /** Rounding the last addresses of all up gives the first one. */
  lemma WrappedEnd(x: nat)
    requires x < TWO64
    ensures x + PAGE - 1 >= TWO64 ==> AlignUp(x, PAGE) == 0
  {
  }

  /** Aligning a page start keeps it a page start. */
  lemma PageKept(page: nat, align: nat)
    requires page % PAGE == 0 && IsPowerOfTwo(align) && page + Max(align, 8) < TWO64
    ensures AlignUp(page, Max(align, 8)) % PAGE == 0
  {
    hide AlignUp;
    var a := Max(align, 8);
    assert IsPowerOfTwo(8) && IsPowerOfTwo(PAGE) by { PowersOfTwo(); }
    AlignUpIs(page, a);
    if a <= PAGE {
      PowersDivide(a, PAGE);
      MultipleOf(page, PAGE, a);
      NearestIsSelf(page, AlignUp(page, a), a);
    } else {
      PowersDivide(PAGE, a);
      MultipleOf(AlignUp(page, a), a, PAGE);
    }
  }

  lemma PowersOfTwo()
    ensures IsPowerOfTwo(8) && IsPowerOfTwo(PAGE)
  {
    assert IsPowerOfTwo(1) && IsPowerOfTwo(2) && IsPowerOfTwo(4) && IsPowerOfTwo(8) && IsPowerOfTwo(16) && IsPowerOfTwo(32);
    assert IsPowerOfTwo(64) && IsPowerOfTwo(128) && IsPowerOfTwo(256) && IsPowerOfTwo(512) && IsPowerOfTwo(1024);
    assert IsPowerOfTwo(2048);
  }

  lemma MultipleOf(x: nat, b: nat, a: nat)
    requires a >= 1 && b >= 1 && x % b == 0 && b % a == 0
    ensures x % a == 0
  {
    var (k, j) := (x / b, b / a);
    assert x == k * b && b == j * a;
    assert x == (k * j) * a;
    TimesMod(k * j, a);
  }

  lemma NearestIsSelf(x: nat, y: nat, a: nat)
    requires a >= 1 && x % a == 0 && y % a == 0 && x <= y < x + a
    ensures y == x
  {
    var (i, j) := (x / a, y / a);
    assert x == i * a && y == j * a;
    assert (j - i) * a == y - x;
    AtLeastOnce(j - i, a);
  }

  /** Aligned, behind `lo` and inside the reservation. */
  predicate Inside(s: Section, lo: nat) {
    Aligned(s) && s.size > 0 && lo <= s.start && s.start + s.size <= MODULE_RESERVE
  }

  ghost predicate Apart(ss: seq<Section>, lo: nat) {
    && (forall i :: 0 <= i < |ss| ==> Inside(ss[i], lo))
    && forall i, j :: 0 <= i < j < |ss| ==> ss[i].start + ss[i].size <= ss[j].start
  }

  lemma ApartLower(ss: seq<Section>, lo: nat, lo2: nat)
    requires Apart(ss, lo) && lo2 <= lo
    ensures Apart(ss, lo2)
  {
    hide Aligned;
    forall i | 0 <= i < |ss|
      ensures Inside(ss[i], lo2)
    {
      assert Inside(ss[i], lo);
    }
  }

  lemma ApartCons(s: Section, ss: seq<Section>, lo: nat, mid: nat)
    requires Inside(s, lo) && s.start + s.size <= mid && Apart(ss, mid) && lo <= mid
    ensures Apart([s] + ss, lo)
  {
    hide Aligned;
    var all := [s] + ss;
    ApartLower(ss, mid, lo);
    forall i, j | 0 <= i < j < |all|
      ensures all[i].start + all[i].size <= all[j].start
    {
      assert Inside(ss[j - 1], mid);
    }
  }

  /** Over every run of requests: sections are aligned, inside the reservation, in the
      order they were asked for, and none overlaps another. */
  lemma {:induction false} SectionsApart(used: nat, reqs: seq<Request>)
    requires used <= MODULE_RESERVE && forall r :: r in reqs ==> Asked(r)
    ensures Apart(Sections(used, reqs), used)
    decreases |reqs|
  {
    hide Place, UsedAfter, Aligned, Asked, Apart;
    if reqs == [] {
      assert Apart([], used) by { NoneApart(used); }
    } else {
      var req := reqs[0];
      var mid := UsedAfter(used, req);
      assert req in reqs;
      OneSection(used, req);
      PlacedHasSize(used, req);
      SectionsApart(mid, reqs[1..]);
      var rest := Sections(mid, reqs[1..]);
      if Place(used, req).Some? {
        ApartCons(Section(Place(used, req).value, req.size, req.align), rest, used, mid);
      } else {
        ApartLower(rest, mid, used);
      }
    }
  }

  lemma NoneApart(used: nat)
    ensures Apart([], used)
  {
  }

  lemma PlacedHasSize(used: nat, req: Request)
    ensures Place(used, req).Some? ==> req.size > 0
  {
  }
}
