/**
 lib/nvme_xfer.c: describing a physical buffer to an NVMe controller by PRP entries and lists
 (section 4.3 of NVMe 1.3). The page size is a parameter; the source has 4096.
 */
module Prp {
  import opened Basics

  // ---- what the controller reads -------------------------------------------

  datatype Chunk = Chunk(addr: nat, len: nat)
  datatype Read = Bad | Chunks(s: seq<Chunk>)

  function Least(a: nat, b: nat): (r: nat)
    ensures r <= a && r <= b && (r == a || r == b)
  {
    if a <= b then a else b
  }

  /** The slot is the last of its page: it holds a pointer if the data goes on beyond one page. */
  predicate LastInPage(base: nat, slot: nat, page: Pos)
  {
    (base + 8 * (slot + 1)) % page == 0
  }

  ghost predicate GoodPage(page: Pos, base: nat)
  {
    page > 8 && page % 8 == 0 && base % 8 == 0
  }

  function Cons(c: Chunk, r: Read): Read
  {
    if r.Bad? then Bad else Chunks([c] + r.s)
  }

  lemma {:induction false} NotTwice(base: nat, slot: nat, page: Pos)
    requires GoodPage(page, base) && (base + 8 * slot) % page == 0
    ensures !LastInPage(base, slot, page)
  {
    var a := base + 8 * slot;
    DivModUnique(a + 8, a / page, 8, page);
  }

  /** r bytes, described by the list from slot on. The list lies at base in memory. */
  function Walk(list: seq<nat>, base: nat, slot: nat, r: nat, page: Pos): Read
    requires GoodPage(page, base)
    decreases r, if LastInPage(base, slot, page) then 1 else 0
  {
    if r == 0 then Chunks([])
    else if slot >= |list| then Bad
    else if LastInPage(base, slot, page) && r > page then
      var p := list[slot];
      if p < base || (p - base) % 8 != 0 || p % page != 0 then Bad
      else
        NotTwice(base, (p - base) / 8, page);
        Walk(list, base, (p - base) / 8, r, page)
    else
      var n := Least(r, page);
      Cons(Chunk(list[slot], n), Walk(list, base, slot + 1, r - n, page))
  }

  /** A transfer of total bytes with the two pointers of a command. */
  function Transfer(prp1: nat, prp2: nat, list: seq<nat>, base: nat, total: nat, page: Pos): Read
    requires GoodPage(page, base)
  {
    var n := Least(total, page - prp1 % page);
    var r := total - n;
    if total == 0 then Chunks([])
    else if r == 0 then Chunks([Chunk(prp1, n)])
    else if r <= page then Chunks([Chunk(prp1, n), Chunk(prp2, r)])
    else if prp2 != base then Bad
    else Cons(Chunk(prp1, n), Walk(list, base, 0, r, page))
  }

  // ---- what it should read -------------------------------------------------

  /** The pages that hold r bytes from s on. */
  function PagesOf(s: nat, r: nat, page: Pos): seq<nat>
    decreases r
  {
    if r == 0 then [] else [s] + PagesOf(s + page, r - Least(r, page), page)
  }

  /** r bytes laid out over pages. */
  function Laid(ps: seq<nat>, r: nat, page: Pos): seq<Chunk>
    decreases r
  {
    if r == 0 || ps == [] then []
    else
      var n := Least(r, page);
      [Chunk(ps[0], n)] + Laid(ps[1..], r - n, page)
  }

  /** The bytes of the chunks, in order. */
  function Bytes(c: seq<Chunk>): seq<nat>
  {
    if c == [] then [] else seq(c[0].len, i => c[0].addr + i) + Bytes(c[1..])
  }

  function Range(s: nat, r: nat): (b: seq<nat>)
    ensures |b| == r && forall i :: 0 <= i < r ==> b[i] == s + i
  {
    seq(r, i => s + i)
  }

  lemma {:induction false} RangeJoin(s: nat, a: nat, b: nat)
    ensures Range(s, a) + Range(s + a, b) == Range(s, a + b)
  {
  }

  lemma {:induction false} BytesJoin(c: seq<Chunk>, d: seq<Chunk>)
    ensures Bytes(c + d) == Bytes(c) + Bytes(d)
  {
    if c == [] {
      assert c + d == d;
    } else {
      var b := seq(c[0].len, i => c[0].addr + i);
      BytesJoin(c[1..], d);
      assert (c + d)[1..] == c[1..] + d && (c + d)[0] == c[0];
      assert b + (Bytes(c[1..]) + Bytes(d)) == (b + Bytes(c[1..])) + Bytes(d);
    }
  }

  lemma {:induction false} PagesBytes(s: nat, r: nat, page: Pos)
    ensures Bytes(Laid(PagesOf(s, r, page), r, page)) == Range(s, r)
    decreases r
  {
    if r > 0 {
      var n := Least(r, page);
      PagesBytes(s + page, r - n, page);
      var ps, c := PagesOf(s, r, page), Laid(PagesOf(s, r, page), r, page);
      assert ps[1..] == PagesOf(s + page, r - n, page);
      assert c[1..] == Laid(ps[1..], r - n, page) && c[0] == Chunk(s, n);
      if r > page {
        RangeJoin(s, n, r - n);
      } else {
        assert Range(s, r) == Range(s, n) + Range(s + page, 0);
      }
    }
  }

  /** Whole pages, and what follows them. */
  lemma {:induction false} LaidJoin(ps: seq<nat>, qs: seq<nat>, r: nat, q: nat, page: Pos)
    requires r == |ps| * page
    ensures Laid(ps + qs, r + q, page) == Laid(ps, r, page) + Laid(qs, q, page)
    decreases |ps|
  {
    if ps == [] {
      assert ps + qs == qs;
    } else {
      assert |ps| * page == (|ps| - 1) * page + page;
      MulMonotone(0, |ps| - 1, page);
      LaidJoin(ps[1..], qs, r - page, q, page);
      assert (ps + qs)[1..] == ps[1..] + qs;
    }
  }

  // ---- a list as it is built -----------------------------------------------

  /** The slots a to b - 1 list the pages, whole ones with more to follow. */
  ghost predicate Path(list: seq<nat>, base: nat, a: nat, b: nat, ps: seq<nat>, page: Pos)
    decreases |ps|
  {
    if ps == [] then a == b
    else
      && a < b <= |list|
      && if LastInPage(base, a, page) then
           a + 1 < b && list[a] == base + 8 * (a + 1) && list[a + 1] == ps[0] && Path(list, base, a + 2, b, ps[1..], page)
         else
           list[a] == ps[0] && Path(list, base, a + 1, b, ps[1..], page)
  }

  lemma {:induction false} PathFrame(list: seq<nat>, list': seq<nat>, base: nat, a: nat, b: nat, ps: seq<nat>,
                                     page: Pos)
    requires Path(list, base, a, b, ps, page) && |list| == |list'| && b <= |list| && list[..b] == list'[..b]
    ensures Path(list', base, a, b, ps, page)
    decreases |ps|
  {
    if ps != [] {
      assert list[a] == list[..b][a] == list'[..b][a];
      if LastInPage(base, a, page) {
        assert list[a + 1] == list[..b][a + 1] == list'[..b][a + 1];
        PathFrame(list, list', base, a + 2, b, ps[1..], page);
      } else {
        PathFrame(list, list', base, a + 1, b, ps[1..], page);
      }
    }
  }

  /** One page more. */
  lemma {:induction false} PathAppend(list: seq<nat>, base: nat, a: nat, b: nat, b': nat, ps: seq<nat>, p: nat,
                                      page: Pos)
    requires Path(list, base, a, b, ps, page) && b < b' <= |list|
    requires if LastInPage(base, b, page) then b' == b + 2 && list[b] == base + 8 * (b + 1) && list[b + 1] == p
             else b' == b + 1 && list[b] == p
    ensures Path(list, base, a, b', ps + [p], page)
    decreases |ps|
  {
    if ps == [] {
      assert Path(list, base, b', b', [], page);
    } else {
      assert (ps + [p])[1..] == ps[1..] + [p];
      PathAppend(list, base, if LastInPage(base, a, page) then a + 2 else a + 1, b, b', ps[1..], p, page);
    }
  }

  lemma {:induction false} ChainNext(list: seq<nat>, base: nat, a: nat, r: nat, page: Pos)
    requires GoodPage(page, base) && a + 1 < |list| && LastInPage(base, a, page) && list[a] == base + 8 * (a + 1)
    requires r > page
    ensures Walk(list, base, a, r, page) == Cons(Chunk(list[a + 1], page), Walk(list, base, a + 2, r - page, page))
  {
    NotTwice(base, a + 1, page);
    assert (list[a] - base) / 8 == a + 1;
  }

  /** With something to follow, the controller reads these pages and goes on at slot b. */
  lemma {:induction false} PathWalk(list: seq<nat>, base: nat, a: nat, b: nat, ps: seq<nat>, p: nat, d: nat, r: Pos,
                                    page: Pos)
    requires GoodPage(page, base) && Path(list, base, a, b, ps, page) && d == |ps| * page
    requires Walk(list, base, b, r, page) == Chunks(Laid([p], r, page))
    ensures Walk(list, base, a, d + r, page) == Chunks(Laid(ps + [p], d + r, page))
    decreases |ps|
  {
    if ps == [] {
      assert ps + [p] == [p];
    } else {
      assert |ps| * page == (|ps| - 1) * page + page;
      MulMonotone(0, |ps| - 1, page);
      assert (ps + [p])[1..] == ps[1..] + [p];
      if LastInPage(base, a, page) {
        PathWalk(list, base, a + 2, b, ps[1..], p, d - page, r, page);
        ChainNext(list, base, a, d + r, page);
      } else {
        PathWalk(list, base, a + 1, b, ps[1..], p, d - page, r, page);
      }
    }
  }

  /** line 93: the page after them completes the list, wherever its slot is. */
  lemma {:induction false} FinishedList(list: seq<nat>, base: nat, slot: nat, ps: seq<nat>, p: nat, r: nat, page: Pos)
    requires GoodPage(page, base) && slot < |list| && list[slot] == p
    requires Path(list, base, 0, slot, ps, page) && |ps| * page < r <= |ps| * page + page
    ensures Walk(list, base, 0, r, page) == Chunks(Laid(ps + [p], r, page))
  {
    var q := r - |ps| * page;
    assert Laid([p], q, page) == [Chunk(p, q)] + Laid([], 0, page);
    assert Walk(list, base, slot, q, page) == Chunks(Laid([p], q, page));
    PathWalk(list, base, 0, slot, ps, p, |ps| * page, q, page);
  }

  // ---- struct nvme_xfer ----------------------------------------------------

  /** The slot that comes after k pages. */
  function SlotAfter(base: nat, page: Pos, k: nat): nat
  {
    if k == 0 then 0
    else
      var slot := SlotAfter(base, page, k - 1);
      if LastInPage(base, slot, page) then slot + 2 else slot + 1
  }

  lemma {:induction false} SlotGrows(base: nat, page: Pos, j: nat, k: nat)
    requires j <= k
    ensures SlotAfter(base, page, j) + (k - j) <= SlotAfter(base, page, k)
  {
    if j < k {
      SlotGrows(base, page, j, k - 1);
    }
  }

  /** How much of total bytes from start on lies in the first page. */
  function Head(start: nat, total: nat, page: Pos): nat
  {
    Least(total, page - start % page)
  }

  /** What a transfer is to move: the part in the first page, then r bytes over the other pages. */
  datatype Content = Content(first: nat, head: nat, ps: seq<nat>, r: nat)

  function ChunksOf(c: Content, page: Pos): seq<Chunk>
  {
    (if c.head == 0 then [] else [Chunk(c.first, c.head)]) + Laid(c.ps, c.r, page)
  }

  /**
   All pages are needed, and only the last may be partly used; the first page is used to its end
   if there are more.
   */
  ghost predicate GoodContent(c: Content, page: Pos)
  {
    && c.head <= page - c.first % page
    && (c.ps == [] <==> c.r == 0) && (c.r > 0 ==> c.head == page - c.first % page && (|c.ps| - 1) * page < c.r <= (|c.ps| - 1) * page + page)
  }

  /** One buffer. */
  function Single(start: nat, total: nat, page: Pos): Content
  {
    var n := Head(start, total, page);
    Content(start, n, PagesOf(start + n, total - n, page), total - n)
  }

  /** Another one, page aligned. */
  function Extended(c: Content, start: nat, total: nat, page: Pos): Content
  {
    Content(c.first, c.head, c.ps + PagesOf(start, total, page), c.r + total)
  }

  /** The last page is used to its end. */
  ghost predicate Whole(c: Content, page: Pos)
  {
    c.head == page - c.first % page && c.r == |c.ps| * page
  }

  lemma {:induction false} PagesCount(s: nat, r: nat, page: Pos)
    ensures PagesOf(s, r, page) == [] <==> r == 0
    ensures r > 0 ==> (|PagesOf(s, r, page)| - 1) * page < r <= (|PagesOf(s, r, page)| - 1) * page + page
    decreases r
  {
    if r > page {
      var k := |PagesOf(s + page, r - page, page)|;
      PagesCount(s + page, r - page, page);
      assert k * page == (k - 1) * page + page;
    } else if r > 0 {
      assert PagesOf(s + page, 0, page) == [];
    }
  }

  lemma {:induction false} ExtendedGood(c: Content, start: nat, total: nat, page: Pos)
    requires GoodContent(c, page) && Whole(c, page)
    ensures GoodContent(Extended(c, start, total, page), page)
  {
    PagesCount(start, total, page);
    var a, b := |c.ps|, |PagesOf(start, total, page)|;
    if total > 0 {
      assert (a + b - 1) * page == a * page + (b - 1) * page;
    } else if c.r > 0 {
      assert a * page == (a - 1) * page + page;
    }
  }

  /** The bytes of one buffer. */
  lemma {:induction false} SingleBytes(start: nat, total: nat, page: Pos)
    ensures GoodContent(Single(start, total, page), page)
    ensures Bytes(ChunksOf(Single(start, total, page), page)) == Range(start, total)
  {
    var n := Head(start, total, page);
    var rest := Laid(PagesOf(start + n, total - n, page), total - n, page);
    PagesCount(start + n, total - n, page);
    PagesBytes(start + n, total - n, page);
    if n == 0 {
      assert [] + rest == rest;
    } else {
      assert ([Chunk(start, n)] + rest)[1..] == rest;
      RangeJoin(start, n, total - n);
    }
  }

  /** The bytes of a buffer after those of a content. */
  lemma {:induction false} ExtendedBytes(c: Content, start: nat, total: nat, page: Pos)
    requires Whole(c, page)
    ensures Bytes(ChunksOf(Extended(c, start, total, page), page)) == Bytes(ChunksOf(c, page)) + Range(start, total)
  {
    var ps := PagesOf(start, total, page);
    var h := if c.head == 0 then [] else [Chunk(c.first, c.head)];
    LaidJoin(c.ps, ps, c.r, total, page);
    PagesBytes(start, total, page);
    assert h + (Laid(c.ps, c.r, page) + Laid(ps, total, page)) == (h + Laid(c.ps, c.r, page)) + Laid(ps, total, page);
    BytesJoin(ChunksOf(c, page), Laid(ps, total, page));
  }

  /** The test of line 41. */
  predicate EndsPage(xferBytes: nat, first: nat, page: Pos)
  {
    xferBytes % page == page - first % page
  }

  lemma {:induction false} ModPlus(k: nat, x: nat, page: Pos)
    ensures (k * page + x) % page == x % page
  {
    DivBounds(x, page);
    assert (k + x / page) * page == k * page + x / page * page;
    DivModUnique(k * page + x, k + x / page, x % page, page);
  }

  lemma {:induction false} SumRest(f: nat, e: nat, page: Pos)
    requires 1 <= f <= page && 1 <= e <= page
    ensures (f + e) % page == f <==> e == page && f != page
  {
    if f + e < page {
      DivModUnique(f + e, 0, f + e, page);
    } else if f + e < 2 * page {
      DivModUnique(f + e, 1, f + e - page, page);
    } else {
      DivModUnique(f + e, 2, 0, page);
    }
  }

  lemma {:induction false} HeadRest(h: nat, page: Pos)
    requires h <= page
    ensures h % page == if h == page then 0 else h
  {
    if h == page {
      DivModUnique(h, 1, 0, page);
    } else {
      DivModUnique(h, 0, h, page);
    }
  }

  lemma {:induction false} LaterRest(f: nat, r: nat, n: nat, page: Pos)
    requires 1 <= f <= page && 1 <= n && (n - 1) * page < r <= (n - 1) * page + page
    ensures (f + r) % page == f <==> r == n * page && f != page
  {
    var k: nat, e: nat := n - 1, r - (n - 1) * page;
    assert n * page == k * page + page;
    ModPlus(k, f + e, page);
    SumRest(f, e, page);
  }

  /**
   It is to make sure that the last page is used to its end. It does so, but it also fails
   whenever the first buffer starts at the beginning of a page.
   */
  lemma {:induction false} EndsPageWhen(c: Content, page: Pos)
    requires GoodContent(c, page)
    ensures EndsPage(c.head + c.r, c.first, page) <==> Whole(c, page) && c.first % page != 0
  {
    if c.r == 0 {
      HeadRest(c.head, page);
    } else {
      LaterRest(c.head, c.r, |c.ps|, page);
    }
  }

  /** A whole page and another one: the second is refused, though the first went to the end of its page. */
  lemma {:induction false} SecondPageRefused(start: nat, page: Pos)
    requires start % page == 0
    ensures Whole(Single(start, page, page), page) && !EndsPage(page, start, page)
  {
    assert PagesOf(start + page, 0, page) == [];
  }

  lemma {:induction false} PageStart(s: nat, page: Pos)
    ensures (s - s % page + page) % page == 0
  {
    DivBounds(s, page);
    var q := s / page;
    assert (q + 1) * page == q * page + page;
    DivModUnique(s - s % page + page, q + 1, 0, page);
  }

  lemma {:induction false} PageArithmetic(start: nat, end: nat, page: Pos)
    requires start <= end
    ensures start / page >= end / page ==> end - start < page - start % page
    ensures start / page < end / page ==> end - start >= page - start % page
  {
    DivBounds(start, page);
    DivBounds(end, page);
    var a, b := start / page, end / page;
    assert start == a * page + start % page && end == b * page + end % page;
    assert (a + 1) * page == a * page + page;
    if a < b {
      MulMonotone(a + 1, b, page);
    } else {
      MulMonotone(b, a, page);
    }
  }

  /** lines 30-38: the first page, as far as the buffer goes. */
  lemma {:induction false} FirstPage(start: nat, end: nat, page: Pos)
    requires start <= end
    ensures start / page >= end / page ==> Single(start, end - start, page) == Content(start, end - start, [], 0)
    ensures start / page < end / page ==>
      var c, next := Content(start, page - start % page, [], 0), start - start % page + page;
      && GoodContent(c, page) && Whole(c, page) && next % page == 0 && next <= end
      && Single(start, end - start, page) == if next < end then Extended(c, next, end - next, page) else c
  {
    PageArithmetic(start, end, page);
    PageStart(start, page);
    if start / page >= end / page {
      assert PagesOf(end, 0, page) == [];
    } else {
      var n := page - start % page;
      assert PagesOf(end, 0, page) == [];
      assert [] + PagesOf(start + n, end - start - n, page) == PagesOf(start + n, end - start - n, page);
    }
  }

  /** One page off the front. */
  lemma {:induction false} NextPage(cur: seq<nat>, all: seq<nat>, start: nat, end: nat, page: Pos)
    requires start < end && all == cur + PagesOf(start, end - start, page)
    ensures |cur| < |all| && (end - start <= page ==> all == cur + [start])
    ensures end - start > page ==> all == cur + [start] + PagesOf(start + page, end - (start + page), page)
  {
    if end - start <= page {
      assert PagesOf(start + page, 0, page) == [];
    }
  }

  /** One or two pointers in the command. */
  lemma {:induction false} ReadShort(c: Content, prp2: nat, list: seq<nat>, base: nat, page: Pos)
    requires GoodPage(page, base) && GoodContent(c, page) && (c.ps == [] || c.ps == [prp2])
    ensures Transfer(c.first, prp2, list, base, c.head + c.r, page) == Chunks(ChunksOf(c, page))
  {
    if c.ps != [] {
      assert Laid(c.ps, c.r, page) == [Chunk(prp2, c.r)] + Laid([], 0, page);
    }
  }

  /** One pointer and the list. */
  lemma {:induction false} ReadLong(c: Content, list: seq<nat>, base: nat, slot: nat, page: Pos)
    requires GoodPage(page, base) && GoodContent(c, page) && |c.ps| > 1 && slot < |list|
    requires list[slot] == c.ps[|c.ps| - 1]
    requires Path(list, base, 0, slot, c.ps[..|c.ps| - 1], page)
    ensures Transfer(c.first, base, list, base, c.head + c.r, page) == Chunks(ChunksOf(c, page))
  {
    var k := |c.ps| - 1;
    FinishedList(list, base, slot, c.ps[..k], c.ps[k], c.r, page);
    assert c.ps[..k] + [c.ps[k]] == c.ps;
    MulMonotone(1, k, page);
  }

  datatype Added = Ok | NoRoom | NotAtPageEnd | NotAligned

  class Xfer {
    var first: nat
    var last: nat
    var prpSize: nat
    var xferBytes: nat
    const list: array<nat>
    const base: nat
    const page: Pos

    constructor (l: array<nat>, b: nat, p: Pos)
      requires l.Length > 0 && GoodPage(p, b)
      ensures Valid() && prpSize == 0 && list == l && base == b && page == p
    {
      list, base, page, first, last, prpSize, xferBytes := l, b, p, 0, 0, 0, 0;
    }

    ghost predicate Valid()
      reads this
    {
      list.Length > 0 && GoodPage(page, base)
    }

    /** All pages but the last are in the list; the last waits in last. */
    ghost predicate Listed(ps: seq<nat>)
      requires ps != []
      reads this, list
    {
      && prpSize >= 2 && prpSize - 2 == SlotAfter(base, page, |ps| - 1) < list.Length && last == ps[|ps| - 1]
      && Path(list[..], base, 0, prpSize - 2, ps[..|ps| - 1], page)
    }

    /** The entries describe the content. */
    ghost predicate Describes(c: Content)
      reads this, list
    {
      && GoodContent(c, page) && first == c.first && xferBytes == c.head + c.r
      && if c.ps == [] then prpSize == 1 else Listed(c.ps)
    }

    /** lines 61-70: one entry goes to the list, with a pointer before it where a page of the list ends; start waits. */
    method Push(start: nat, ghost ps: seq<nat>) returns (ok: bool)
      requires Valid() && ps != [] && Listed(ps)
      modifies this`prpSize, this`last, list
      ensures ok <==> SlotAfter(base, page, |ps|) < list.Length
      ensures ok ==> Listed(ps + [start])
    {
      var idx := prpSize - 2;
      ghost var slot, before, k := idx, list[..], |ps| - 1;
      if idx >= list.Length - 1 {
        return false;
      }
      if (base + 8 * (idx + 1)) % page == 0 {
        list[idx] := base + 8 * (idx + 1);
        idx := idx + 1;
        if idx >= list.Length - 1 {
          return false;
        }
      }
      list[idx] := last;
      prpSize := idx + 3;
      last := start;
      assert list[..][..slot] == before[..slot];
      PathFrame(before, list[..], base, 0, slot, ps[..k], page);
      PathAppend(list[..], base, 0, slot, idx + 1, ps[..k], ps[k], page);
      assert ps[..k] + [ps[k]] == (ps + [start])[..|ps|];
      ok := true;
    }

    /** lines 60-77: the pages from start0 on are added to ps. */
    method AddRest(start0: nat, end: nat, ghost ps: seq<nat>) returns (ok: bool)
      requires Valid() && ps != [] && Listed(ps) && start0 < end
      modifies this`last, this`prpSize, this`xferBytes, list
      ensures ok <==> SlotAfter(base, page, |ps| + |PagesOf(start0, end - start0, page)| - 1) < list.Length
      ensures ok ==> Listed(ps + PagesOf(start0, end - start0, page)) && xferBytes == old(xferBytes) + (end - start0)
    {
      var start := start0;
      ghost var cur: seq<nat>, all: seq<nat> := ps, ps + PagesOf(start0, end - start0, page);
      while true
        invariant cur != [] && Listed(cur) && start0 <= start < end && all == cur + PagesOf(start, end - start, page)
        invariant xferBytes == old(xferBytes) + (start - start0)
        decreases end - start
      {
        NextPage(cur, all, start, end, page);
        var pushed := Push(start, cur);
        if !pushed {
          SlotGrows(base, page, |cur|, |all| - 1);
          return false;
        }
        cur := cur + [start];
        if end - start <= page {
          xferBytes := xferBytes + (end - start);
          return true;
        }
        start := start + page;
        xferBytes := xferBytes + page;
      }
    }

    /** lines 46-77: the same, after no page or some. */
    method AddList(start: nat, end: nat, ghost ps: seq<nat>) returns (ok: bool)
      requires Valid() && start < end && if ps == [] then prpSize == 1 else Listed(ps)
      modifies this`last, this`prpSize, this`xferBytes, list
      ensures ok <==> SlotAfter(base, page, |ps + PagesOf(start, end - start, page)| - 1) < list.Length
      ensures ok ==> Listed(ps + PagesOf(start, end - start, page)) && xferBytes == old(xferBytes) + (end - start)
    {
      ghost var all := ps + PagesOf(start, end - start, page);
      NextPage(ps, all, start, end, page);
      if prpSize < 2 {
        last := start;
        prpSize := 2;
        assert ([start])[..0] == [] && ps + [start] == [start];
        if end - start <= page {
          xferBytes := xferBytes + (end - start);
          return true;
        }
        xferBytes := xferBytes + page;
        ok := AddRest(start + page, end, [start]);
      } else {
        ok := AddRest(start, end, ps);
      }
    }

    /** lines 44-77, with a content c that ends at the end of a page. */
    method AddPages(start: nat, end: nat, ghost c: Content) returns (res: Added)
      requires Valid() && Describes(c) && Whole(c, page)
      modifies this`last, this`prpSize, this`xferBytes, list
      ensures res == NotAligned <==> start % page != 0
      ensures start % page == 0 && start >= end ==> res == Ok && Describes(c)
      ensures start % page == 0 && start < end ==>
        (res == Ok || res == NoRoom) && (res == Ok <==> SlotAfter(base, page, |Extended(c, start, end - start, page).ps| - 1) < list.Length)
      ensures start < end && res == Ok ==> Describes(Extended(c, start, end - start, page))
    {
      if start % page != 0 {
        return NotAligned;
      }
      if start >= end {
        return Ok;
      }
      ExtendedGood(c, start, end - start, page);
      NextPage(c.ps, c.ps + PagesOf(start, end - start, page), start, end, page);
      var ok := AddList(start, end, c.ps);
      res := if ok then Ok else NoRoom;
    }

    /** lines 27-57, for a transfer without entries. */
    method AddFirst(start0: nat, end: nat, ghost c: Content) returns (res: Added)
      requires Valid() && prpSize == 0 && start0 <= end && c == Single(start0, end - start0, page)
      modifies this`first, this`last, this`prpSize, this`xferBytes, list
      ensures res == Ok || res == NoRoom
      ensures res == Ok <==> c.ps == [] || SlotAfter(base, page, |c.ps| - 1) < list.Length
      ensures res == Ok ==> Describes(c)
    {
      SingleBytes(start0, end - start0, page);
      first := start0;
      prpSize := 1;
      FirstPage(start0, end, page);
      if start0 / page >= end / page {
        xferBytes := end - start0;
        return Ok;
      }
      xferBytes := page - start0 % page;
      var start := start0 - start0 % page + page;
      res := AddPages(start, end, Content(start0, page - start0 % page, [], 0));
    }

    /**
     nvme_add_phys_buffer. On a transfer without entries (c has no meaning) or with the content
     c it succeeds exactly if the entries fit into the list, and the assertions of lines 41 and
     44 hold.
     */
    method AddPhysBuffer(start0: nat, end: nat, ghost c: Content) returns (res: Added, ghost c': Content)
      requires Valid() && start0 % 4 == 0 && end % 4 == 0 && start0 <= end
      requires prpSize == 0 || Describes(c)
      modifies this`first, this`last, this`prpSize, this`xferBytes, list
      ensures c' == if old(prpSize) == 0 then Single(start0, end - start0, page) else Extended(c, start0, end - start0, page)
      ensures res == NotAtPageEnd <==> old(prpSize) > 0 && !(Whole(c, page) && c.first % page != 0)
      ensures res == NotAligned <==> old(prpSize) > 0 && Whole(c, page) && c.first % page != 0 && start0 % page != 0
      ensures res == Ok || res == NoRoom ==>
        (res == Ok <==> c'.ps == [] || SlotAfter(base, page, |c'.ps| - 1) < list.Length)
      ensures res == Ok ==> Describes(c')
      ensures res == Ok ==> Bytes(ChunksOf(c', page)) == (if old(prpSize) == 0 then [] else Bytes(ChunksOf(c, page))) + Range(start0, end - start0)
    {
      ghost var total := end - start0;
      if prpSize == 0 {
        c' := Single(start0, total, page);
        SingleBytes(start0, total, page);
        res := AddFirst(start0, end, c');
      } else {
        c' := Extended(c, start0, total, page);
        EndsPageWhen(c, page);
        if !EndsPage(xferBytes, first, page) {
          return NotAtPageEnd, c';
        }
        ExtendedBytes(c, start0, total, page);
        res := AddPages(start0, end, c);
        if start0 >= end {
          assert PagesOf(start0, total, page) == [] && c'.ps == c.ps;
        }
      }
    }

    /** nvme_emit_read: the two pointers of the command. The transfer must be whole blocks. */
    method EmitRead(block: Pos, ghost c: Content) returns (ok: bool, prp1: nat, prp2: nat)
      requires Valid() && Describes(c)
      modifies list
      ensures ok <==> xferBytes % block == 0
      ensures ok ==> Transfer(prp1, prp2, list[..], base, xferBytes, page) == Chunks(ChunksOf(c, page))
    {
      prp1, prp2 := first, 0;
      if xferBytes % block != 0 {
        return false, prp1, prp2;
      }
      if prpSize == 2 {
        prp2 := last;
        SlotGrows(base, page, 0, |c.ps| - 1);
        ReadShort(c, last, list[..], base, page);
      } else if prpSize > 2 {
        prp2 := base;
        ghost var before, ps := list[..], c.ps[..|c.ps| - 1];
        list[prpSize - 2] := last;
        assert list[..][..prpSize - 2] == before[..prpSize - 2];
        PathFrame(before, list[..], base, 0, prpSize - 2, ps, page);
        ReadLong(c, list[..], base, prpSize - 2, page);
      } else {
        ReadShort(c, 0, list[..], base, page);
      }
      ok := true;
    }
  }
}
