/**
 aarch64/mmu_asm.S and lib/mmu.c: VMSAv8-64 translation tables with a 4 KiB granule
 and four levels.

 Addresses and frames are counted in 4 KiB pages: a virtual page number is a byte
 address shifted right by 12.  A descriptor is split into its two type bits, its
 output frame and its attribute bits.
 */
module Mmu {
  import opened Basics

  /** 48-bit virtual addresses */
  const PAGES: nat := 0x10_0000_0000

  /** Pages that one entry of a level covers: 1 << (shift - 12). */
  function Span(level: nat): Pos
    requires level <= 3
  {
    if level == 0 then 0x800_0000 else if level == 1 then 0x4_0000 else if level == 2 then 0x200 else 1
  }

  /** addr >> shift */
  function Slot(level: nat, vpn: nat): nat
    requires level <= 3
  {
    vpn / Span(level)
  }

  /** addr >> shift & 0x1ff */
  function Index(level: nat, vpn: nat): (i: nat)
    requires level <= 3
    ensures i < 512
  {
    Slot(level, vpn) % 512
  }

  lemma {:induction false} SlotUp(level: nat, vpn: nat)
    requires 1 <= level <= 3
    ensures Slot(level, vpn) / 512 == Slot(level - 1, vpn)
  {
  }

  lemma {:induction false} SlotRange(level: nat, vpn: nat)
    requires level <= 3
    ensures Slot(level, vpn) * Span(level) <= vpn < Slot(level, vpn) * Span(level) + Span(level)
  {
  }

  lemma {:induction false} SlotTop(vpn: nat)
    requires vpn < PAGES
    ensures Slot(0, vpn) / 512 == 0
  {
  }

  // ---- descriptors and tables ----------------------------------------------

  /** low is bits 1:0: 0 invalid, 1 block, 3 table or page. */
  datatype Desc = Desc(low: nat, frame: nat, attrs: nat)

  const EMPTY := Desc(0, 0, 0)

  type Table = t: seq<Desc> | |t| == 512 witness seq(512, _ => EMPTY)

  function EmptyTable(): (t: Table)
    ensures forall i :: 0 <= i < 512 ==> t[i] == EMPTY
  {
    seq(512, _ => EMPTY)
  }

  /** Which part of the address space a table in use translates, and the table that points to it. */
  datatype Home = Home(level: nat, slot: nat, parent: nat)

  datatype Space = Space(base: nat, tabs: seq<Table>, next: nat, homes: seq<Home>)

  /** The last entry looked at when translating. */
  datatype Leaf = Leaf(level: nat, entry: Desc)

  predicate IsTable(s: Space, level: nat, e: Desc)
  {
    level < 3 && e.low == 3 && s.base <= e.frame < s.base + |s.tabs|
  }

  /** Follow the tables from table t of the given level as far as they go. */
  function StopAt(s: Space, t: nat, level: nat, vpn: nat): Leaf
    requires t < |s.tabs| && level <= 3
    decreases 3 - level
  {
    var e := s.tabs[t][Index(level, vpn)];
    if IsTable(s, level, e) then StopAt(s, e.frame - s.base, level + 1, vpn) else Leaf(level, e)
  }

  function Stop(s: Space, vpn: nat): Leaf
    requires 0 < |s.tabs|
  {
    StopAt(s, 0, 0, vpn)
  }

  /** lib/mmu.c map_address lines 62-63, 69-70 and 76-77: a block or page, or an assertion. */
  function Output(leaf: Leaf, vpn: nat): Option<(nat, nat)>
  {
    if leaf.level == 3 && leaf.entry.low == 3 then Some((leaf.entry.frame, leaf.entry.attrs))
    else if 1 <= leaf.level <= 2 && leaf.entry.low == 1 then
      Some((leaf.entry.frame / Span(leaf.level) * Span(leaf.level) + vpn % Span(leaf.level), leaf.entry.attrs))
    else None
  }

  /** The frame and attributes that a page translates to. */
  function Walk(s: Space, vpn: nat): Option<(nat, nat)>
    requires 0 < |s.tabs|
  {
    Output(Stop(s, vpn), vpn)
  }

  // ---- tables that form a tree ---------------------------------------------

  ghost predicate HomeOk(s: Space, t: nat)
    requires s.next <= |s.tabs| && |s.homes| == s.next && t < s.next
  {
    var h := s.homes[t];
    if t == 0 then h == Home(0, 0, 0)
    else
      && 1 <= h.level <= 3 && h.parent < s.next
      && s.homes[h.parent].level == h.level - 1
      && s.homes[h.parent].slot == h.slot / 512
      && s.tabs[h.parent][h.slot % 512].low == 3
      && s.tabs[h.parent][h.slot % 512].frame == s.base + t
  }

  ghost predicate EntryOk(s: Space, t: nat, i: nat)
    requires s.next <= |s.tabs| && |s.homes| == s.next && t < s.next && i < 512
  {
    var e, level := s.tabs[t][i], s.homes[t].level;
    && (e.low == 0 || e.low == 3 || (e.low == 1 && 1 <= level <= 2))
    && (e.low == 3 && level < 3 ==>
          && s.base <= e.frame < s.base + s.next
          && s.homes[e.frame - s.base] == Home(level + 1, 512 * s.homes[t].slot + i, t))
  }

  ghost predicate Tree(s: Space)
  {
    && 1 <= s.next <= |s.tabs| && |s.homes| == s.next
    && (forall t :: 0 <= t < s.next ==> HomeOk(s, t))
    && (forall t, i :: 0 <= t < s.next && 0 <= i < 512 ==> EntryOk(s, t, i))
  }

  /** Table t is the one that the walk for vpn goes through at its level. */
  ghost predicate Covers(s: Space, t: nat, vpn: nat)
    requires t < |s.homes| && s.homes[t].level <= 3
  {
    s.homes[t].slot == Slot(s.homes[t].level, vpn) / 512
  }

  lemma {:induction false} CoversIndex(s: Space, t: nat, vpn: nat)
    requires t < |s.homes| && s.homes[t].level <= 3 && Covers(s, t, vpn)
    ensures 512 * s.homes[t].slot + Index(s.homes[t].level, vpn) == Slot(s.homes[t].level, vpn)
  {
  }

  lemma {:induction false} CoversChild(s: Space, t: nat, c: nat, vpn: nat)
    requires t < |s.homes| && c < |s.homes| && s.homes[t].level < 3 && Covers(s, t, vpn)
    requires s.homes[c].level == s.homes[t].level + 1
    requires s.homes[c].slot == 512 * s.homes[t].slot + Index(s.homes[t].level, vpn)
    ensures Covers(s, c, vpn)
  {
    CoversIndex(s, t, vpn);
    SlotUp(s.homes[c].level, vpn);
  }

  /** A table is reached by the walk of every page it covers. */
  lemma {:induction false} WalkThrough(s: Space, t: nat, vpn: nat)
    requires Tree(s) && vpn < PAGES && t < s.next && HomeOk(s, t)
    requires s.homes[t].level <= 3 && Covers(s, t, vpn)
    ensures Stop(s, vpn) == StopAt(s, t, s.homes[t].level, vpn)
    decreases s.homes[t].level
  {
    if t != 0 {
      var h := s.homes[t];
      var p := h.parent;
      assert HomeOk(s, p);
      SlotUp(h.level, vpn);
      assert Covers(s, p, vpn);
      WalkThrough(s, p, vpn);
      assert Index(h.level - 1, vpn) == h.slot % 512;
      assert IsTable(s, h.level - 1, s.tabs[p][h.slot % 512]);
    }
  }

  /** s2 differs from s at most in entry i of table t, among the tables that s uses. */
  ghost predicate SameBut(s: Space, s2: Space, t: nat, i: nat)
  {
    && s2.base == s.base && |s2.tabs| == |s.tabs| && s.next <= |s.tabs|
    && forall u, j :: 0 <= u < s.next && 0 <= j < 512 && !(u == t && j == i) ==> s2.tabs[u][j] == s.tabs[u][j]
  }

  /** Changing an entry changes no walk outside the pages the entry covers. */
  lemma {:induction false} StopElsewhere(s: Space, s2: Space, t: nat, i: nat, u: nat, vpn: nat)
    requires Tree(s) && SameBut(s, s2, t, i) && t < s.next && i < 512 && u < s.next
    requires s.homes[t].level <= 3 && s.homes[u].level <= 3 && Covers(s, u, vpn)
    requires Slot(s.homes[t].level, vpn) != 512 * s.homes[t].slot + i
    ensures StopAt(s2, u, s.homes[u].level, vpn) == StopAt(s, u, s.homes[u].level, vpn)
    decreases 3 - s.homes[u].level
  {
    var level := s.homes[u].level;
    var j := Index(level, vpn);
    CoversIndex(s, u, vpn);
    assert s2.tabs[u][j] == s.tabs[u][j];
    assert EntryOk(s, u, j);
    var e := s.tabs[u][j];
    if IsTable(s, level, e) {
      var c := e.frame - s.base;
      CoversChild(s, u, c, vpn);
      StopElsewhere(s, s2, t, i, c, vpn);
    }
  }

  function SetEntry(s: Space, t: nat, i: nat, e: Desc): Space
    requires t < |s.tabs| && i < 512
  {
    Space(s.base, s.tabs[t := s.tabs[t][i := e]], s.next, s.homes)
  }

  /** Table s.next is cleared and put into use by entry i of table t. */
  function LinkTable(s: Space, t: nat, i: nat): Space
    requires t < s.next < |s.tabs| && t < |s.homes| && i < 512
  {
    Space(s.base,
          s.tabs[s.next := EmptyTable()][t := s.tabs[t][i := Desc(3, s.base + s.next, 0)]],
          s.next + 1,
          s.homes + [Home(s.homes[t].level + 1, 512 * s.homes[t].slot + i, t)])
  }

  /** An entry that points to no table may be replaced by any block, page or invalid entry. */
  lemma {:induction false} SetEntryTree(s: Space, t: nat, i: nat, e: Desc)
    requires Tree(s) && t < s.next && i < 512
    requires s.homes[t].level == 3 || s.tabs[t][i].low != 3
    requires e.low == 0 || (e.low == 1 && 1 <= s.homes[t].level <= 2) || (e.low == 3 && s.homes[t].level == 3)
    ensures Tree(SetEntry(s, t, i, e))
  {
    var s2 := SetEntry(s, t, i, e);
    forall u | 0 <= u < s2.next
      ensures HomeOk(s2, u)
    {
      assert HomeOk(s, u);
    }
    forall u, j | 0 <= u < s2.next && 0 <= j < 512
      ensures EntryOk(s2, u, j)
    {
      assert EntryOk(s, u, j);
    }
  }

  lemma {:induction false} SetEntryStop(s: Space, t: nat, i: nat, e: Desc, vpn: nat)
    requires Tree(s) && t < s.next && i < 512 && vpn < PAGES
    requires s.homes[t].level == 3 || s.tabs[t][i].low != 3
    requires e.low == 0 || (e.low == 1 && 1 <= s.homes[t].level <= 2) || (e.low == 3 && s.homes[t].level == 3)
    ensures s.homes[t].level <= 3
    ensures Slot(s.homes[t].level, vpn) == 512 * s.homes[t].slot + i ==>
              && Stop(s, vpn) == Leaf(s.homes[t].level, s.tabs[t][i])
              && Stop(SetEntry(s, t, i, e), vpn) == Leaf(s.homes[t].level, e)
    ensures Slot(s.homes[t].level, vpn) != 512 * s.homes[t].slot + i ==>
              Stop(SetEntry(s, t, i, e), vpn) == Stop(s, vpn)
  {
    var s2, level := SetEntry(s, t, i, e), s.homes[t].level;
    assert HomeOk(s, t) && HomeOk(s, 0);
    if Slot(level, vpn) == 512 * s.homes[t].slot + i {
      assert Covers(s, t, vpn) && Covers(s2, t, vpn);
      WalkThrough(s, t, vpn);
      SetEntryTree(s, t, i, e);
      assert HomeOk(s2, t);
      WalkThrough(s2, t, vpn);
      assert Index(level, vpn) == i;
    } else {
      SlotTop(vpn);
      assert Covers(s, 0, vpn);
      StopElsewhere(s, s2, t, i, 0, vpn);
    }
  }

  lemma {:induction false} LinkTableTree(s: Space, t: nat, i: nat)
    requires Tree(s) && t < s.next < |s.tabs| && i < 512
    requires s.homes[t].level < 3 && s.tabs[t][i].low != 3
    ensures Tree(LinkTable(s, t, i))
  {
    var s2 := LinkTable(s, t, i);
    forall u | 0 <= u < s2.next
      ensures HomeOk(s2, u)
    {
      assert u < s.next ==> HomeOk(s, u);
      if u == s.next {
        assert s2.homes[u].slot / 512 == s.homes[t].slot;
        assert s2.homes[u].slot % 512 == i;
      }
    }
    forall u, j | 0 <= u < s2.next && 0 <= j < 512
      ensures EntryOk(s2, u, j)
    {
      assert u < s.next ==> EntryOk(s, u, j);
    }
  }

  lemma {:induction false} LinkTableStop(s: Space, t: nat, i: nat, vpn: nat)
    requires Tree(s) && t < s.next < |s.tabs| && i < 512 && vpn < PAGES
    requires s.homes[t].level < 3 && s.tabs[t][i].low != 3
    ensures Slot(s.homes[t].level, vpn) == 512 * s.homes[t].slot + i ==>
              && Stop(s, vpn) == Leaf(s.homes[t].level, s.tabs[t][i])
              && Stop(LinkTable(s, t, i), vpn) == Leaf(s.homes[t].level + 1, EMPTY)
    ensures Slot(s.homes[t].level, vpn) != 512 * s.homes[t].slot + i ==>
              Stop(LinkTable(s, t, i), vpn) == Stop(s, vpn)
  {
    var s2, level := LinkTable(s, t, i), s.homes[t].level;
    assert HomeOk(s, t) && HomeOk(s, 0);
    if Slot(level, vpn) == 512 * s.homes[t].slot + i {
      assert Covers(s, t, vpn);
      WalkThrough(s, t, vpn);
      LinkTableTree(s, t, i);
      assert HomeOk(s2, t) && Covers(s2, t, vpn);
      WalkThrough(s2, t, vpn);
      assert Index(level, vpn) == i;
      assert StopAt(s2, s.next, level + 1, vpn) == Leaf(level + 1, EMPTY);
    } else {
      SlotTop(vpn);
      assert Covers(s, 0, vpn);
      StopElsewhere(s, s2, t, i, 0, vpn);
    }
  }

  // ---- mapping -------------------------------------------------------------

  /** Map the pages [first, end) to the frames from frame on. */
  datatype Request = Request(first: nat, end: nat, frame: nat, attrs: nat)

  datatype MapResult = Done | Overlap | OutOfTables

  /** The whole entry of the given level that holds vpn can be one block (or page) of the mapping. */
  predicate Fits(r: Request, vpn: nat, level: nat)
    requires level <= 3
  {
    && (r.frame - r.first) % Span(level) == 0
    && r.first <= Slot(level, vpn) * Span(level)
    && Slot(level, vpn) * Span(level) + Span(level) <= r.end
  }

  /** The largest entries that the mapping allows. */
  function ChunkLevel(r: Request, vpn: nat): (level: nat)
    ensures 1 <= level <= 3
  {
    if Fits(r, vpn, 1) then 1 else if Fits(r, vpn, 2) then 2 else 3
  }

  lemma {:induction false} SameSlot(level: nat, a: nat, b: nat)
    requires level <= 3 && Slot(level, a) == Slot(level, b)
    ensures forall l :: 0 <= l <= level ==> Slot(l, a) == Slot(l, b)
    decreases level
  {
    if level > 0 {
      SlotUp(level, a);
      SlotUp(level, b);
      SameSlot(level - 1, a, b);
    }
  }

  ghost predicate Untouched(s0: Space, s: Space, r: Request)
    requires 0 < |s0.tabs| && 0 < |s.tabs|
  {
    forall vpn :: 0 <= vpn < PAGES && !(r.first <= vpn < r.end) ==> Walk(s, vpn) == Walk(s0, vpn)
  }

  /** The page is mapped as asked, by an entry of its chunk's level, which no table was in the way of. */
  ghost predicate MappedPage(s0: Space, s: Space, r: Request, vpn: nat)
    requires 0 < |s0.tabs| && 0 < |s.tabs| && r.first <= vpn
  {
    && Stop(s, vpn).level == ChunkLevel(r, vpn)
    && Walk(s, vpn) == Some((r.frame + vpn - r.first, r.attrs))
    && Stop(s0, vpn).level <= ChunkLevel(r, vpn)
  }

  /** No page of the request is mapped. */
  ghost predicate Free(s: Space, r: Request)
    requires 0 < |s.tabs|
  {
    forall vpn :: r.first <= vpn < r.end ==> Walk(s, vpn) == None
  }

  ghost predicate SameTranslation(s0: Space, s: Space)
    requires 0 < |s0.tabs| && 0 < |s.tabs|
  {
    forall vpn :: 0 <= vpn < PAGES ==> Walk(s, vpn) == Walk(s0, vpn)
  }

  lemma {:induction false} StillFree(s0: Space, s: Space, r: Request)
    requires 0 < |s0.tabs| && 0 < |s.tabs| && SameTranslation(s0, s) && Free(s0, r) && r.end <= PAGES
    ensures Free(s, r)
  {
  }

  lemma {:induction false} FreePart(s: Space, r: Request, q: Request)
    requires 0 < |s.tabs| && Free(s, r) && r.first <= q.first && q.end <= r.end
    ensures Free(s, q)
  {
  }

  /** No page of the request has a table below the level it is going to be mapped at. */
  ghost predicate NothingInTheWay(s: Space, r: Request)
    requires 0 < |s.tabs|
  {
    forall vpn :: r.first <= vpn < r.end ==> Stop(s, vpn).level <= ChunkLevel(r, vpn)
  }

  ghost predicate FreePage(s0: Space, s: Space, r: Request, vpn: nat)
    requires 0 < |s0.tabs| && 0 < |s.tabs|
  {
    && Walk(s, vpn) == None
    && (Stop(s, vpn).level > ChunkLevel(r, vpn) <==> Stop(s0, vpn).level > ChunkLevel(r, vpn))
  }

  /** Space s0 with the part of the request below addr carried out. */
  ghost predicate Progress(s0: Space, s: Space, r: Request, addr: nat)
  {
    && Tree(s) && 0 < |s0.tabs|
    && r.first <= addr <= r.end <= PAGES
    && Untouched(s0, s, r)
    && (forall vpn :: r.first <= vpn < addr ==> MappedPage(s0, s, r, vpn))
    && (forall vpn :: addr <= vpn < r.end ==> FreePage(s0, s, r, vpn))
  }

  lemma {:induction false} NothingWas(s0: Space, s: Space, r: Request)
    requires Progress(s0, s, r, r.end)
    ensures NothingInTheWay(s0, r)
  {
    forall vpn | r.first <= vpn < r.end ensures Stop(s0, vpn).level <= ChunkLevel(r, vpn) {
      assert MappedPage(s0, s, r, vpn);
    }
  }

  /** The entry that the loop writes for addr. */
  function ChunkDesc(r: Request, addr: nat, level: nat): Desc
    requires r.first <= addr
  {
    Desc(if level < 3 then 1 else 3, r.frame + addr - r.first, r.attrs)
  }

  lemma {:induction false} ChunkOutput(r: Request, addr: nat, level: nat, vpn: nat)
    requires 1 <= level <= 3 && r.first <= addr && addr % Span(level) == 0
    requires (r.frame - r.first) % Span(level) == 0 && Slot(level, vpn) == Slot(level, addr)
    ensures Output(Leaf(level, ChunkDesc(r, addr, level)), vpn) == Some((r.frame + vpn - r.first, r.attrs))
  {
    var n := Span(level);
    InChunk(addr, level, vpn);
    if level < 3 {
      var k := (r.frame - r.first) / n;
      assert r.frame - r.first == k * n && addr == addr / n * n;
      assert r.frame + addr - r.first == (k + addr / n) * n;
      assert vpn % n == vpn - addr;
    }
  }

  lemma {:induction false} InChunk(addr: nat, level: nat, vpn: nat)
    requires level <= 3 && addr % Span(level) == 0
    ensures Slot(level, vpn) == Slot(level, addr) <==> addr <= vpn < addr + Span(level)
  {
  }

  /** The loop is at table t of the given level, on the way to addr. */
  ghost predicate AtTable(s: Space, t: nat, level: nat, addr: nat)
  {
    && Tree(s) && level <= 3 && t < s.next
    && s.homes[t].level == level && Covers(s, t, addr)
  }

  lemma {:induction false} WriteStop(s: Space, r: Request, addr: nat, level: nat, t: nat, vpn: nat)
    requires AtTable(s, t, level, addr) && 1 <= level && r.first <= addr && vpn < PAGES
    requires addr % Span(level) == 0 && ChunkLevel(r, addr) == level
    requires s.tabs[t][Index(level, addr)].low % 2 == 0
    ensures var s2 := SetEntry(s, t, Index(level, addr), ChunkDesc(r, addr, level));
      if addr <= vpn < addr + Span(level) then
        && Stop(s, vpn).level == ChunkLevel(r, vpn) && Stop(s2, vpn).level == ChunkLevel(r, vpn)
        && Walk(s2, vpn) == Some((r.frame + vpn - r.first, r.attrs))
      else Stop(s2, vpn) == Stop(s, vpn)
  {
    var i, e := Index(level, addr), ChunkDesc(r, addr, level);
    CoversIndex(s, t, addr);
    SetEntryStop(s, t, i, e, vpn);
    InChunk(addr, level, vpn);
    if addr <= vpn < addr + Span(level) {
      SameSlot(level, addr, vpn);
      ChunkOutput(r, addr, level, vpn);
    }
  }

  /** One step: the entry for the chunk at addr is written. */
  lemma {:induction false} WriteProgress(s0: Space, s: Space, r: Request, addr: nat, level: nat, t: nat)
    requires Progress(s0, s, r, addr) && AtTable(s, t, level, addr) && 1 <= level
    requires addr % Span(level) == 0 && addr + Span(level) <= r.end && ChunkLevel(r, addr) == level
    requires s.tabs[t][Index(level, addr)].low % 2 == 0
    ensures Progress(s0, SetEntry(s, t, Index(level, addr), ChunkDesc(r, addr, level)), r, addr + Span(level))
  {
    var i, e := Index(level, addr), ChunkDesc(r, addr, level);
    var s2 := SetEntry(s, t, i, e);
    SetEntryTree(s, t, i, e);
    forall vpn | 0 <= vpn < PAGES && !(r.first <= vpn < r.end)
      ensures Walk(s2, vpn) == Walk(s0, vpn)
    {
      WriteStop(s, r, addr, level, t, vpn);
    }
    forall vpn | r.first <= vpn < addr + Span(level)
      ensures MappedPage(s0, s2, r, vpn)
    {
      WriteStop(s, r, addr, level, t, vpn);
      assert if vpn < addr then MappedPage(s0, s, r, vpn) else FreePage(s0, s, r, vpn);
    }
    forall vpn | addr + Span(level) <= vpn < r.end
      ensures FreePage(s0, s2, r, vpn)
    {
      WriteStop(s, r, addr, level, t, vpn);
      assert FreePage(s0, s, r, vpn);
    }
  }

  lemma {:induction false} LinkStop(s: Space, r: Request, addr: nat, level: nat, t: nat, vpn: nat)
    requires AtTable(s, t, level, addr) && level < 3 && s.next < |s.tabs| && vpn < PAGES
    requires forall l :: 1 <= l <= level ==> !Fits(r, addr, l)
    requires s.tabs[t][Index(level, addr)].low % 2 == 0
    ensures var s2 := LinkTable(s, t, Index(level, addr));
      && Walk(s2, vpn) == Walk(s, vpn)
      && (Stop(s2, vpn) == Stop(s, vpn) ||
          (Stop(s, vpn).level == level && Stop(s2, vpn).level == level + 1 && level < ChunkLevel(r, vpn)))
  {
    var i := Index(level, addr);
    CoversIndex(s, t, addr);
    assert EntryOk(s, t, i);
    LinkTableStop(s, t, i, vpn);
    if Slot(level, vpn) == Slot(level, addr) {
      SameSlot(level, addr, vpn);
      assert forall l :: 1 <= l <= level ==> Fits(r, vpn, l) == Fits(r, addr, l);
    }
  }

  /** One step: a table is added for an entry that cannot be one block of the mapping. */
  lemma {:induction false} LinkProgress(s0: Space, s: Space, r: Request, addr: nat, level: nat, t: nat)
    requires Progress(s0, s, r, addr) && AtTable(s, t, level, addr) && level < 3 && s.next < |s.tabs|
    requires forall l :: 1 <= l <= level ==> !Fits(r, addr, l)
    requires s.tabs[t][Index(level, addr)].low % 2 == 0
    ensures Progress(s0, LinkTable(s, t, Index(level, addr)), r, addr)
  {
    var s2 := LinkTable(s, t, Index(level, addr));
    LinkTableTree(s, t, Index(level, addr));
    forall vpn | 0 <= vpn < PAGES && !(r.first <= vpn < r.end)
      ensures Walk(s2, vpn) == Walk(s0, vpn)
    {
      LinkStop(s, r, addr, level, t, vpn);
    }
    forall vpn | r.first <= vpn < addr
      ensures MappedPage(s0, s2, r, vpn)
    {
      LinkStop(s, r, addr, level, t, vpn);
      assert MappedPage(s0, s, r, vpn);
    }
    forall vpn | addr <= vpn < r.end
      ensures FreePage(s0, s2, r, vpn)
    {
      LinkStop(s, r, addr, level, t, vpn);
      assert FreePage(s0, s, r, vpn);
    }
  }

  // ---- the tables a mapping takes ------------------------------------------

  /** An entry, by its level and its number within the level. */
  type Entry = (nat, nat)

  /** The entries on the walks of the request that had no table and now have one. */
  ghost function Linked(s0: Space, s: Space, r: Request): set<Entry>
    requires 0 < |s0.tabs| && 0 < |s.tabs|
  {
    set vpn: nat, l: nat | r.first <= vpn < r.end && l < 3 && Stop(s0, vpn).level <= l < Stop(s, vpn).level :: (l, Slot(l, vpn))
  }

  /** The entries that have no table and need one for the pages of the request below end. */
  ghost function Missing(s: Space, r: Request, end: nat): set<Entry>
    requires 0 < |s.tabs|
  {
    set vpn: nat, l: nat | r.first <= vpn < r.end && vpn < end && l < 3 && Stop(s, vpn).level <= l < ChunkLevel(r, vpn) ::
      (l, Slot(l, vpn))
  }

  /** One table was taken for each entry linked, and only where one was missing up to addr. */
  ghost predicate Counted(s0: Space, s: Space, r: Request, addr: nat)
  {
    && 0 < |s0.tabs| && 0 < |s.tabs|
    && s.next == s0.next + |Linked(s0, s, r)| && Linked(s0, s, r) <= Missing(s0, r, addr + 1)
    && forall vpn :: r.first <= vpn < r.end ==> Stop(s0, vpn).level <= Stop(s, vpn).level
  }

  lemma {:induction false} StartCounted(s: Space, r: Request, addr: nat)
    requires 0 < |s.tabs|
    ensures Counted(s, s, r, addr)
  {
    assert Linked(s, s, r) == {};
  }

  /** Pages under one entry share the tables above it, and the one below it. */
  lemma {:induction false} SharedWalk(s: Space, t: nat, level: nat, l: nat, a: nat, b: nat)
    requires t < |s.tabs| && level <= l <= 3 && Slot(l, a) == Slot(l, b) && StopAt(s, t, level, a).level > l
    ensures StopAt(s, t, level, b).level > l
    decreases 3 - level
  {
    SameSlot(l, a, b);
    var e := s.tabs[t][Index(level, a)];
    assert e == s.tabs[t][Index(level, b)];
    StopDeeper(s, e.frame - s.base, level + 1, b);
    if level < l {
      SharedWalk(s, e.frame - s.base, level + 1, l, a, b);
    }
  }

  lemma {:induction false} NotLinked(s0: Space, s: Space, r: Request, addr: nat, level: nat)
    requires 0 < |s0.tabs| && 0 < |s.tabs| && level < 3 && Stop(s, addr).level == level
    ensures (level, Slot(level, addr)) !in Linked(s0, s, r)
  {
    forall vpn: nat | r.first <= vpn < r.end && level < Stop(s, vpn).level
      ensures Slot(level, vpn) != Slot(level, addr)
    {
      if Slot(level, vpn) == Slot(level, addr) {
        SharedWalk(s, 0, 0, level, vpn, addr);
      }
    }
  }

  lemma {:induction false} IsMissing(s0: Space, s: Space, r: Request, addr: nat, level: nat)
    requires Counted(s0, s, r, addr) && r.first <= addr < r.end && level < 3
    requires Stop(s, addr).level == level && level < ChunkLevel(r, addr)
    ensures (level, Slot(level, addr)) in Missing(s0, r, addr + 1) && (level, Slot(level, addr)) !in Linked(s0, s, r)
    ensures |Linked(s0, s, r)| < |Missing(s0, r, addr + 1)|
  {
    NotLinked(s0, s, r, addr, level);
    SmallerSet(Linked(s0, s, r), Missing(s0, r, addr + 1), (level, Slot(level, addr)));
  }

  lemma {:induction false} SmallerSet(a: set<Entry>, b: set<Entry>, e: Entry)
    requires a <= b && e in b && e !in a
    ensures |a| < |b|
  {
    SubsetSize(a, b - {e});
  }

  lemma {:induction false} SubsetSize(a: set<Entry>, b: set<Entry>)
    requires a <= b
    ensures |a| <= |b|
    decreases |a|
  {
    if a != {} {
      var e :| e in a;
      SubsetSize(a - {e}, b - {e});
    }
  }

  lemma {:induction false} MissingGrows(s: Space, r: Request, a: nat, b: nat)
    requires 0 < |s.tabs| && a <= b
    ensures Missing(s, r, a) <= Missing(s, r, b) && |Missing(s, r, a)| <= |Missing(s, r, b)|
  {
    SubsetSize(Missing(s, r, a), Missing(s, r, b));
  }

  /** Writing an entry adds no table. */
  lemma {:induction false} WriteCounted(s0: Space, s: Space, r: Request, addr: nat, level: nat, t: nat)
    requires Counted(s0, s, r, addr) && r.first <= addr && r.end <= PAGES
    requires AtTable(s, t, level, addr) && 1 <= level && addr % Span(level) == 0 && ChunkLevel(r, addr) == level
    requires s.tabs[t][Index(level, addr)].low % 2 == 0
    ensures Counted(s0, SetEntry(s, t, Index(level, addr), ChunkDesc(r, addr, level)), r, addr)
  {
    var s2 := SetEntry(s, t, Index(level, addr), ChunkDesc(r, addr, level));
    forall vpn: nat | vpn < r.end
      ensures Stop(s2, vpn).level == Stop(s, vpn).level
    {
      WriteStop(s, r, addr, level, t, vpn);
    }
    assert Linked(s0, s2, r) == Linked(s0, s, r);
  }

  lemma {:induction false} CountedLater(s0: Space, s: Space, r: Request, a: nat, b: nat)
    requires Counted(s0, s, r, a) && a <= b
    ensures Counted(s0, s, r, b)
  {
    MissingGrows(s0, r, a + 1, b + 1);
  }

  /** Linking a table adds the one entry. */
  lemma {:induction false} LinkCounted(s0: Space, s: Space, r: Request, addr: nat, level: nat, t: nat)
    requires Counted(s0, s, r, addr) && r.first <= addr < r.end <= PAGES
    requires AtTable(s, t, level, addr) && level < 3 && s.next < |s.tabs| && level < ChunkLevel(r, addr)
    requires s.tabs[t][Index(level, addr)].low % 2 == 0
    ensures Counted(s0, LinkTable(s, t, Index(level, addr)), r, addr)
  {
    var s2 := LinkTable(s, t, Index(level, addr));
    CoversIndex(s, t, addr);
    assert EntryOk(s, t, Index(level, addr));
    forall vpn: nat | vpn < r.end
      ensures GrownAt(s, s2, addr, level, vpn)
    {
      LinkTableStop(s, t, Index(level, addr), vpn);
    }
    OneMore(s0, s, s2, r, addr, level);
  }

  /** The page has a table more if it is under the same entry as addr. */
  ghost predicate GrownAt(s: Space, s2: Space, addr: nat, level: nat, vpn: nat)
    requires 0 < |s.tabs| && 0 < |s2.tabs| && level < 3
  {
    if Slot(level, vpn) == Slot(level, addr) then Stop(s, vpn).level == level && Stop(s2, vpn).level == level + 1
    else Stop(s2, vpn).level == Stop(s, vpn).level
  }

  lemma {:induction false} OneMore(s0: Space, s: Space, s2: Space, r: Request, addr: nat, level: nat)
    requires Counted(s0, s, r, addr) && 0 < |s2.tabs| && r.first <= addr < r.end && level < 3
    requires level < ChunkLevel(r, addr)
    requires (forall vpn: nat :: vpn < r.end ==> GrownAt(s, s2, addr, level, vpn)) && s2.next == s.next + 1
    ensures Counted(s0, s2, r, addr)
  {
    var a, b, e := Linked(s0, s, r), Linked(s0, s2, r), (level, Slot(level, addr));
    assert GrownAt(s, s2, addr, level, addr);
    IsMissing(s0, s, r, addr, level);
    LinkedMore(s0, s, s2, r, addr, level);
    assert b == a + {e};
    forall vpn | r.first <= vpn < r.end
      ensures Stop(s0, vpn).level <= Stop(s2, vpn).level
    {
      assert GrownAt(s, s2, addr, level, vpn);
    }
  }

  lemma {:induction false} LinkedMore(s0: Space, s: Space, s2: Space, r: Request, addr: nat, level: nat)
    requires Counted(s0, s, r, addr) && 0 < |s2.tabs| && r.first <= addr < r.end && level < 3
    requires forall vpn: nat :: vpn < r.end ==> GrownAt(s, s2, addr, level, vpn)
    ensures Linked(s0, s2, r) == Linked(s0, s, r) + {(level, Slot(level, addr))}
  {
    assert GrownAt(s, s2, addr, level, addr);
    StillLinked(s0, s, s2, r, addr, level);
    OnlyLinked(s0, s, s2, r, addr, level);
  }

  lemma {:induction false} StillLinked(s0: Space, s: Space, s2: Space, r: Request, addr: nat, level: nat)
    requires 0 < |s0.tabs| && 0 < |s.tabs| && 0 < |s2.tabs| && level < 3
    requires forall vpn: nat :: vpn < r.end ==> GrownAt(s, s2, addr, level, vpn)
    ensures Linked(s0, s, r) <= Linked(s0, s2, r)
  {
    forall vpn: nat, l: nat | r.first <= vpn < r.end && l < 3 && Stop(s0, vpn).level <= l < Stop(s, vpn).level
      ensures (l, Slot(l, vpn)) in Linked(s0, s2, r)
    {
      assert GrownAt(s, s2, addr, level, vpn);
    }
  }

  lemma {:induction false} OnlyLinked(s0: Space, s: Space, s2: Space, r: Request, addr: nat, level: nat)
    requires 0 < |s0.tabs| && 0 < |s.tabs| && 0 < |s2.tabs| && level < 3
    requires forall vpn: nat :: vpn < r.end ==> GrownAt(s, s2, addr, level, vpn)
    ensures Linked(s0, s2, r) <= Linked(s0, s, r) + {(level, Slot(level, addr))}
  {
    forall vpn: nat, l: nat | r.first <= vpn < r.end && l < 3 && Stop(s0, vpn).level <= l < Stop(s2, vpn).level
      ensures (l, Slot(l, vpn)) in Linked(s0, s, r) + {(level, Slot(level, addr))}
    {
      assert GrownAt(s, s2, addr, level, vpn);
    }
  }

  /** The attributes do not matter. */
  lemma {:induction false} SameMissing(s: Space, r: Request, attrs: nat)
    requires 0 < |s.tabs|
    ensures Missing(s, r, r.end) == Missing(s, r.(attrs := attrs), r.end)
    ensures NothingInTheWay(s, r) <==> NothingInTheWay(s, r.(attrs := attrs))
  {
    var r' := r.(attrs := attrs);
    assert forall vpn :: ChunkLevel(r, vpn) == ChunkLevel(r', vpn);
  }

  /** Where the mapping ends or stops, every table missing before has been linked. */
  lemma {:induction false} AllLinked(s0: Space, s: Space, r: Request, addr: nat)
    requires Progress(s0, s, r, addr) && Counted(s0, s, r, addr)
    requires addr < r.end ==> Stop(s0, addr).level > ChunkLevel(r, addr)
    ensures Linked(s0, s, r) == Missing(s0, r, addr)
  {
    forall vpn: nat | r.first <= vpn < addr
      ensures Stop(s, vpn).level == ChunkLevel(r, vpn)
    {
      assert MappedPage(s0, s, r, vpn);
    }
    assert Missing(s0, r, addr + 1) == Missing(s0, r, addr);
  }

  /** The first page of the request that has a table below the level it is going to be mapped at. */
  ghost predicate FirstInTheWay(s: Space, r: Request, addr: nat)
    requires 0 < |s.tabs|
  {
    && r.first <= addr < r.end && Stop(s, addr).level > ChunkLevel(r, addr)
    && forall vpn :: r.first <= vpn < addr ==> Stop(s, vpn).level <= ChunkLevel(r, vpn)
  }

  lemma {:induction false} SomethingWas(s0: Space, s: Space, r: Request, addr: nat)
    requires Progress(s0, s, r, addr) && addr < r.end && Stop(s, addr).level > ChunkLevel(r, addr)
    ensures FirstInTheWay(s0, r, addr)
  {
    assert FreePage(s0, s, r, addr);
    forall vpn | r.first <= vpn < addr
      ensures Stop(s0, vpn).level <= ChunkLevel(r, vpn)
    {
      assert MappedPage(s0, s, r, vpn);
    }
  }

  /** Up to addr nothing is in the way. */
  ghost predicate FreeUpTo(s: Space, r: Request, addr: nat)
    requires 0 < |s.tabs|
  {
    forall vpn :: r.first <= vpn <= addr ==> Stop(s, vpn).level <= ChunkLevel(r, vpn)
  }

  lemma {:induction false} NothingYet(s0: Space, s: Space, r: Request, addr: nat)
    requires Progress(s0, s, r, addr) && addr < r.end && Stop(s, addr).level <= ChunkLevel(r, addr)
    ensures FreeUpTo(s0, r, addr)
  {
    forall vpn | r.first <= vpn <= addr
      ensures Stop(s0, vpn).level <= ChunkLevel(r, vpn)
    {
      assert if vpn < addr then MappedPage(s0, s, r, vpn) else FreePage(s0, s, r, vpn);
    }
  }

  /** There are tables for the pages of the request below end. */
  ghost predicate EnoughFor(s: Space, r: Request, end: nat)
    requires 0 < |s.tabs|
  {
    s.next + |Missing(s, r, end)| <= |s.tabs|
  }

  /** What is going to happen: mapped, stopped by a table in the way, or no table left. */
  ghost predicate WillBe(s: Space, r: Request, res: MapResult)
    requires 0 < |s.tabs|
  {
    match res
    case Done => NothingInTheWay(s, r) && EnoughFor(s, r, r.end)
    case Overlap => exists at :: FirstInTheWay(s, r, at) && EnoughFor(s, r, at)
    case OutOfTables => exists at :: r.first <= at < r.end && FreeUpTo(s, r, at) && !EnoughFor(s, r, at + 1)
  }

  /** It is going to be this and nothing else. */
  ghost predicate Foretold(s: Space, r: Request, res: MapResult)
    requires 0 < |s.tabs|
  {
    forall x :: WillBe(s, r, x) <==> x == res
  }

  lemma {:induction false} EnoughBefore(s: Space, r: Request, a: nat, b: nat)
    requires 0 < |s.tabs| && a <= b && EnoughFor(s, r, b)
    ensures EnoughFor(s, r, a)
  {
    MissingGrows(s, r, a, b);
  }

  lemma {:induction false} NotOut(s: Space, r: Request, at: nat, end: nat)
    requires 0 < |s.tabs| && r.first <= at < r.end && FreeUpTo(s, r, at) && EnoughFor(s, r, end)
    requires end == r.end || FirstInTheWay(s, r, end)
    ensures EnoughFor(s, r, at + 1)
  {
    assert at < end;
    EnoughBefore(s, r, at + 1, end);
  }

  /** Only one of the three. */
  lemma {:induction false} OnlyOne(s: Space, r: Request, res: MapResult)
    requires 0 < |s.tabs| && WillBe(s, r, res)
    ensures Foretold(s, r, res)
  {
    if WillBe(s, r, OutOfTables) {
      var at :| r.first <= at < r.end && FreeUpTo(s, r, at) && !EnoughFor(s, r, at + 1);
      if WillBe(s, r, Overlap) {
        var x :| FirstInTheWay(s, r, x) && EnoughFor(s, r, x);
        NotOut(s, r, at, x);
      }
      if WillBe(s, r, Done) {
        NotOut(s, r, at, r.end);
      }
    }
  }

  /** The same as a property of the tables as they are, and what the pages below some page cost. */
  type Tally = (Space, nat) -> bool
  type Cost = nat -> nat

  ghost predicate Looked(s: Space, addr: nat)
  {
    true
  }

  /** The tally is Counted; Looked brings that up for one state. */
  ghost predicate Tallies(tally: Tally, cost: Cost, s0: Space, r: Request)
  {
    forall s, addr: nat {:trigger Looked(s, addr)} ::
      0 < |s0.tabs| && cost(addr) == |Missing(s0, r, addr)| && (tally(s, addr) <==> Counted(s0, s, r, addr))
  }

  lemma {:induction false} GetTally(s0: Space, r: Request) returns (tally: Tally, cost: Cost)
    requires 0 < |s0.tabs|
    ensures Tallies(tally, cost, s0, r) && tally(s0, r.first)
  {
    tally, cost := (s: Space, addr: nat) => Counted(s0, s, r, addr), (addr: nat) => |Missing(s0, r, addr)|;
    StartCounted(s0, r, r.first);
  }

  lemma {:induction false} WriteTally(tally: Tally, cost: Cost, s0: Space, s: Space, s2: Space, r: Request, addr: nat,
                                      level: nat, t: nat)
    requires Tallies(tally, cost, s0, r) && tally(s, addr) && r.first <= addr && r.end <= PAGES
    requires AtTable(s, t, level, addr) && 1 <= level && addr % Span(level) == 0 && ChunkLevel(r, addr) == level
    requires s.tabs[t][Index(level, addr)].low % 2 == 0
    requires s2 == SetEntry(s, t, Index(level, addr), ChunkDesc(r, addr, level))
    ensures tally(s2, addr + Span(level))
  {
    assert Looked(s, addr) && Looked(s2, addr + Span(level));
    WriteCounted(s0, s, r, addr, level, t);
    CountedLater(s0, s2, r, addr, addr + Span(level));
  }

  lemma {:induction false} LinkTally(tally: Tally, cost: Cost, s0: Space, s: Space, s2: Space, r: Request, addr: nat,
                                     level: nat, t: nat)
    requires Tallies(tally, cost, s0, r) && tally(s, addr) && r.first <= addr < r.end <= PAGES
    requires AtTable(s, t, level, addr) && level < 3 && s.next < |s.tabs| && level < ChunkLevel(r, addr)
    requires s.tabs[t][Index(level, addr)].low % 2 == 0 && s2 == LinkTable(s, t, Index(level, addr))
    ensures tally(s2, addr)
  {
    assert Looked(s, addr) && Looked(s2, addr);
    LinkCounted(s0, s, r, addr, level, t);
  }

  /** No table is left, and one is missing. */
  lemma {:induction false} RanOut(tally: Tally, cost: Cost, s0: Space, s: Space, r: Request, addr: nat, level: nat)
    requires Tallies(tally, cost, s0, r) && tally(s, addr) && r.first <= addr < r.end && level < 3
    requires 0 < |s.tabs| && Stop(s, addr).level == level && level < ChunkLevel(r, addr)
    ensures s.next < s0.next + cost(addr + 1)
  {
    assert Looked(s, addr) && Looked(s, addr + 1);
    IsMissing(s0, s, r, addr, level);
  }

  lemma {:induction false} EndTally(tally: Tally, cost: Cost, s0: Space, s: Space, r: Request, addr: nat)
    requires Tallies(tally, cost, s0, r) && tally(s, addr) && Progress(s0, s, r, addr)
    requires addr < r.end ==> Stop(s0, addr).level > ChunkLevel(r, addr)
    ensures s.next == s0.next + cost(addr)
  {
    assert Looked(s, addr);
    AllLinked(s0, s, r, addr);
  }

  /** How a mapping ends, in these terms. */
  ghost predicate EndsWith(s0: Space, s: Space, r: Request, res: MapResult, at: nat, cost: Cost)
    requires 0 < |s0.tabs|
  {
    match res
    case Done => NothingInTheWay(s0, r) && s.next == s0.next + cost(r.end)
    case Overlap => FirstInTheWay(s0, r, at) && s.next == s0.next + cost(at)
    case OutOfTables => r.first <= at < r.end && FreeUpTo(s0, r, at) && s.next == |s.tabs| < s0.next + cost(at + 1)
  }

  lemma {:induction false} EndDone(tally: Tally, cost: Cost, s0: Space, s: Space, r: Request)
    requires Tallies(tally, cost, s0, r) && tally(s, r.end) && Progress(s0, s, r, r.end)
    ensures EndsWith(s0, s, r, Done, r.end, cost)
  {
    NothingWas(s0, s, r);
    EndTally(tally, cost, s0, s, r, r.end);
  }

  lemma {:induction false} EndOverlap(tally: Tally, cost: Cost, s0: Space, s: Space, r: Request, addr: nat)
    requires Tallies(tally, cost, s0, r) && tally(s, addr) && Progress(s0, s, r, addr)
    requires addr < r.end && Stop(s, addr).level > ChunkLevel(r, addr)
    ensures EndsWith(s0, s, r, Overlap, addr, cost)
  {
    SomethingWas(s0, s, r, addr);
    EndTally(tally, cost, s0, s, r, addr);
  }

  lemma {:induction false} EndOut(tally: Tally, cost: Cost, s0: Space, s: Space, r: Request, addr: nat, level: nat)
    requires Tallies(tally, cost, s0, r) && tally(s, addr) && Progress(s0, s, r, addr)
    requires addr < r.end && level < 3 && Stop(s, addr).level == level < ChunkLevel(r, addr) && s.next == |s.tabs|
    ensures EndsWith(s0, s, r, OutOfTables, addr, cost)
  {
    NothingYet(s0, s, r, addr);
    RanOut(tally, cost, s0, s, r, addr, level);
  }

  lemma {:induction false} EndsAsSaid(tally: Tally, cost: Cost, s0: Space, s: Space, r: Request, res: MapResult,
                                      at: nat)
    requires Tallies(tally, cost, s0, r) && 0 < |s0.tabs| && EndsWith(s0, s, r, res, at, cost) && |s.tabs| == |s0.tabs|
    requires s.next <= |s.tabs|
    ensures WillBe(s0, r, res) && (res == Done ==> s.next == s0.next + |Missing(s0, r, r.end)|)
  {
    assert Looked(s, r.end) && Looked(s, at) && Looked(s, at + 1);
  }

  // ---- unmapping -----------------------------------------------------------

  /** The identity mapping of [first, end). */
  function Identity(first: nat, end: nat): Request
  {
    Request(first, end, first, 0)
  }

  /** Every page of the request is mapped, by an entry of its chunk's level. */
  ghost predicate MappedInChunks(s: Space, r: Request)
    requires 0 < |s.tabs|
  {
    forall vpn :: r.first <= vpn < r.end ==> Stop(s, vpn).level == ChunkLevel(r, vpn) && Walk(s, vpn).Some?
  }

  /** The page is unmapped, and the tables on its walk are still there. */
  ghost predicate Emptied(s0: Space, s: Space, vpn: nat)
    requires 0 < |s0.tabs| && 0 < |s.tabs|
  {
    Walk(s, vpn) == None && Stop(s, vpn).level == Stop(s0, vpn).level
  }

  ghost predicate Cleared(s0: Space, s: Space, r: Request, addr: nat)
  {
    && Tree(s) && 0 < |s0.tabs|
    && r.first <= addr <= r.end <= PAGES
    && Untouched(s0, s, r)
    && (forall vpn :: r.first <= vpn < addr ==> Emptied(s0, s, vpn))
    && (forall vpn :: addr <= vpn < r.end ==> Stop(s, vpn) == Stop(s0, vpn))
  }

  lemma {:induction false} ClearStop(s: Space, addr: nat, level: nat, t: nat, vpn: nat)
    requires AtTable(s, t, level, addr) && addr % Span(level) == 0 && vpn < PAGES
    requires level == 3 || s.tabs[t][Index(level, addr)].low != 3
    ensures var s2 := SetEntry(s, t, Index(level, addr), EMPTY);
      if addr <= vpn < addr + Span(level) then Emptied(s, s2, vpn) else Stop(s2, vpn) == Stop(s, vpn)
  {
    CoversIndex(s, t, addr);
    SetEntryStop(s, t, Index(level, addr), EMPTY, vpn);
    InChunk(addr, level, vpn);
  }

  /** One step: the entry for the pages from addr on is cleared. */
  lemma {:induction false} ClearProgress(s0: Space, s: Space, r: Request, addr: nat, level: nat, t: nat)
    requires Cleared(s0, s, r, addr) && AtTable(s, t, level, addr)
    requires addr % Span(level) == 0 && addr + Span(level) <= r.end
    requires level == 3 || s.tabs[t][Index(level, addr)].low != 3
    ensures Cleared(s0, SetEntry(s, t, Index(level, addr), EMPTY), r, addr + Span(level))
  {
    var s2 := SetEntry(s, t, Index(level, addr), EMPTY);
    SetEntryTree(s, t, Index(level, addr), EMPTY);
    forall vpn | 0 <= vpn < PAGES && !(r.first <= vpn < r.end)
      ensures Walk(s2, vpn) == Walk(s0, vpn)
    {
      ClearStop(s, addr, level, t, vpn);
    }
    forall vpn | r.first <= vpn < addr + Span(level)
      ensures Emptied(s0, s2, vpn)
    {
      ClearStop(s, addr, level, t, vpn);
      assert vpn < addr ==> Emptied(s0, s, vpn);
    }
    forall vpn | addr + Span(level) <= vpn < r.end
      ensures Stop(s2, vpn) == Stop(s0, vpn)
    {
      ClearStop(s, addr, level, t, vpn);
    }
  }

  /** Multiples of a level's span. */
  lemma {:induction false} Aligned(level: nat, a: nat) returns (q: nat)
    requires level <= 3 && a % Span(level) == 0
    ensures a == q * Span(level) && Slot(level, a) == q && Slot(level, a + Span(level)) == q + 1
    ensures (a + Span(level)) % Span(level) == 0
  {
    q := a / Span(level);
  }

  lemma {:induction false} AlignedGap(level: nat, a: nat, b: nat)
    requires level <= 3 && a % Span(level) == 0 && b % Span(level) == 0 && a < b
    ensures a + Span(level) <= b
  {
    if level == 0 {
      assert Span(level) == 0x800_0000;
    } else if level == 1 {
      assert Span(level) == 0x4_0000;
    } else if level == 2 {
      assert Span(level) == 0x200;
    }
  }

  /** addr is the page that entry k starts at, in the table that first is in. */
  predicate RunSlot(level: nat, first: nat, addr: nat, k: nat)
    requires level <= 3
  {
    Slot(level, addr) == Slot(level, first) + k - Index(level, first)
  }

  lemma {:induction false} RunIndex(level: nat, first: nat, addr: nat, last: nat, k: nat)
    requires level <= 3 && first <= addr <= last
    requires addr % Span(level) == 0 && (last + 1) % Span(level) == 0
    requires Slot(level, first) / 512 == Slot(level, last) / 512
    requires Slot(level, addr) == Slot(level, first) + k - Index(level, first) && k <= Index(level, last)
    ensures k == Index(level, addr) && Slot(level, addr) / 512 == Slot(level, first) / 512
    ensures addr + Span(level) <= last + 1
    ensures k < Index(level, last) ==> addr + Span(level) <= last
  {
    var p := Slot(level, first) / 512;
    assert Slot(level, addr) == 512 * p + k;
    AlignedGap(level, addr, last + 1);
    InChunk(addr, level, last);
  }

  lemma {:induction false} LastSlot(level: nat, last: nat)
    requires level <= 3 && (last + 1) % Span(level) == 0
    ensures Slot(level, last + 1) == Slot(level, last) + 1
  {
    if level == 0 {
      assert Span(level) == 0x800_0000;
    } else if level == 1 {
      assert Span(level) == 0x4_0000;
    } else if level == 2 {
      assert Span(level) == 0x200;
    }
  }

  /** After the last entry of a run, all of it has been cleared. */
  lemma {:induction false} RunEnd(level: nat, first: nat, addr: nat, last: nat)
    requires level <= 3 && first <= last
    requires addr % Span(level) == 0 && (last + 1) % Span(level) == 0
    requires Slot(level, first) / 512 == Slot(level, last) / 512
    requires Slot(level, addr) == Slot(level, first) + Index(level, last) + 1 - Index(level, first)
    ensures addr == last + 1
  {
    var a := Aligned(level, addr);
    var b := Aligned(level, last + 1);
    LastSlot(level, last);
  }

  lemma {:induction false} RunChunk(r: Request, level: nat, first: nat, addr: nat)
    requires 1 <= level <= 3 && ChunkLevel(r, first) == level && r.frame == r.first <= addr
    requires addr % Span(level) == 0 && addr + Span(level) <= r.end
    requires forall l :: 0 <= l <= level - 1 ==> Slot(l, first) == Slot(l, addr)
    ensures ChunkLevel(r, addr) == level
  {
    SlotRange(level, addr);
    assert Fits(r, addr, level);
    assert forall l :: 1 <= l < level ==> Fits(r, addr, l) == Fits(r, first, l);
  }

  /** lib/mmu.c line 195: the entry about to be cleared maps one chunk. */
  lemma {:induction false} ClearStep(s0: Space, s: Space, r: Request, t: nat, level: nat, first: nat, addr: nat,
                                     last: nat, k: nat)
    requires Cleared(s0, s, r, addr) && MappedInChunks(s0, r)
    requires 1 <= level && AtTable(s, t, level, first) && ChunkLevel(r, first) == level
    requires r.frame == r.first && r.first <= first <= addr <= last < r.end
    requires addr % Span(level) == 0 && (last + 1) % Span(level) == 0
    requires Slot(level, first) / 512 == Slot(level, last) / 512
    requires RunSlot(level, first, addr, k) && k <= Index(level, last)
    ensures k == Index(level, addr) && AtTable(s, t, level, addr) && addr + Span(level) <= last + 1
    ensures k < Index(level, last) ==> addr + Span(level) <= last
    ensures s.tabs[t][k].low == if level == 3 then 3 else 1
    ensures Cleared(s0, SetEntry(s, t, k, EMPTY), r, addr + Span(level))
    ensures (addr + Span(level)) % Span(level) == 0 && RunSlot(level, first, addr + Span(level), k + 1)
  {
    var q := Aligned(level, addr);
    RunIndex(level, first, addr, last, k);
    SlotUp(level, first);
    SlotUp(level, addr);
    SameSlot(level - 1, first, addr);
    RunChunk(r, level, first, addr);
    StopHere(s, t, level, addr);
    assert Stop(s, addr) == Stop(s0, addr);
    ClearProgress(s0, s, r, addr, level, t);
  }

  /** Where the loop that clears the entries for [first, last] is at entry k. */
  ghost predicate RunAt(level: nat, first: nat, addr: nat, last: nat, k: nat)
    requires level <= 3
  {
    addr % Span(level) == 0 && first <= addr && (k <= Index(level, last) ==> addr <= last) && RunSlot(level, first, addr, k)
  }

  lemma {:induction false} StartRun(level: nat, first: nat, last: nat)
    requires level <= 3 && first <= last && first % Span(level) == 0
    requires Slot(level, first) / 512 == Slot(level, last) / 512
    ensures Index(level, first) <= Index(level, last) && RunAt(level, first, first, last, Index(level, first))
  {
    SlotMonotone(level, first, last);
  }

  lemma {:induction false} ClearNext(s0: Space, s: Space, r: Request, t: nat, level: nat, first: nat, addr: nat,
                                     addr': nat, last: nat, k: nat)
    requires Cleared(s0, s, r, addr) && MappedInChunks(s0, r)
    requires 1 <= level && AtTable(s, t, level, first) && ChunkLevel(r, first) == level
    requires r.frame == r.first <= first && last < r.end && (last + 1) % Span(level) == 0
    requires Slot(level, first) / 512 == Slot(level, last) / 512
    requires RunAt(level, first, addr, last, k) && k <= Index(level, last) && addr' == addr + Span(level)
    ensures k < 512 && s.tabs[t][k].low == if level == 3 then 3 else 1
    ensures Cleared(s0, SetEntry(s, t, k, EMPTY), r, addr') && RunAt(level, first, addr', last, k + 1)
  {
    ClearStep(s0, s, r, t, level, first, addr, last, k);
  }

  /** The page after a finished chunk starts the next one. */
  lemma {:induction false} NextChunkStart(r: Request, vpn: nat)
    requires 0 < vpn && vpn % Span(ChunkLevel(r, vpn - 1)) == 0
    ensures vpn % Span(ChunkLevel(r, vpn)) == 0
  {
    var l, m := ChunkLevel(r, vpn - 1), ChunkLevel(r, vpn);
    if l <= m {
      SpanDivides(l, m, vpn);
    } else if vpn % Span(m) != 0 {
      SameEntry(m, vpn);
    }
  }

  lemma {:induction false} SpanDivides(l: nat, m: nat, a: nat)
    requires l <= m <= 3 && a % Span(l) == 0
    ensures a % Span(m) == 0
    decreases m - l
  {
    if l < m {
      SpanUp(l + 1, a);
      SpanDivides(l + 1, m, a);
    }
  }

  lemma {:induction false} SameEntry(level: nat, vpn: nat)
    requires level <= 3 && 0 < vpn && vpn % Span(level) != 0
    ensures Slot(level, vpn) == Slot(level, vpn - 1)
  {
  }

  /** At the table of a page, the walk's last entry is the table's own unless that points further down. */
  lemma {:induction false} StopHere(s: Space, t: nat, level: nat, vpn: nat)
    requires AtTable(s, t, level, vpn) && vpn < PAGES
    ensures Stop(s, vpn) == StopAt(s, t, level, vpn)
    ensures Stop(s, vpn).level >= level
    ensures Stop(s, vpn).level == level ==> Stop(s, vpn).entry == s.tabs[t][Index(level, vpn)]
    ensures Stop(s, vpn).level > level <==> level < 3 && s.tabs[t][Index(level, vpn)].low == 3
    ensures Walk(s, vpn) == None ==> s.tabs[t][Index(level, vpn)].low == 0 || Stop(s, vpn).level > level
  {
    assert HomeOk(s, t);
    WalkThrough(s, t, vpn);
    var e := s.tabs[t][Index(level, vpn)];
    assert EntryOk(s, t, Index(level, vpn));
    if IsTable(s, level, e) {
      StopDeeper(s, e.frame - s.base, level + 1, vpn);
    }
  }

  lemma {:induction false} StopDeeper(s: Space, t: nat, level: nat, vpn: nat)
    requires t < |s.tabs| && level <= 3
    ensures level <= StopAt(s, t, level, vpn).level <= 3
    decreases 3 - level
  {
    var e := s.tabs[t][Index(level, vpn)];
    if IsTable(s, level, e) {
      StopDeeper(s, e.frame - s.base, level + 1, vpn);
    }
  }

  /** Going down to the table that an entry points to keeps the loop on the way to addr. */
  lemma {:induction false} DescendTable(s: Space, t: nat, level: nat, addr: nat)
    requires AtTable(s, t, level, addr) && level < 3 && s.tabs[t][Index(level, addr)].low == 3
    ensures var c := s.tabs[t][Index(level, addr)].frame - s.base;
      c >= 0 && AtTable(s, c, level + 1, addr)
  {
    assert EntryOk(s, t, Index(level, addr));
    var c := s.tabs[t][Index(level, addr)].frame - s.base;
    CoversChild(s, t, c, addr);
  }

  /** lib/mmu.c line 211: last has been clipped to the entry of the level above that holds first. */
  predicate Clipped(level: nat, first: nat, last: nat, last0: nat)
    requires level <= 3
  {
    && first <= last <= last0
    && (level > 0 ==> Slot(level - 1, last) == Slot(level - 1, first))
    && (last == last0 || (level > 0 && (last + 1) % Span(level - 1) == 0))
  }

  /** The test that unmap_one makes holds at the level of the chunk at first, and at no level above. */
  lemma {:induction false} UnmapDecide(r: Request, level: nat, first: nat, last: nat, last0: nat)
    requires 1 <= level <= ChunkLevel(r, first) && r.frame == r.first <= first && last0 + 1 == r.end
    requires Clipped(level, first, last, last0) && first % Span(ChunkLevel(r, first)) == 0
    ensures level == ChunkLevel(r, first) <==>
         first % Span(level) == 0 && ((last + 1) % Span(level) == 0 || Slot(level, first) < Slot(level, last))
  {
    if first % Span(level) == 0 {
      var q := Aligned(level, first);
      InChunk(first, level, last);
      SlotMonotone(level, first, last);
      assert Fits(r, first, level) <==> first + Span(level) <= last0 + 1;
      if (last + 1) % Span(level) == 0 {
        AlignedGap(level, first, last + 1);
      } else {
        assert last == last0 by {
          if last != last0 {
            SpanUp(level, last + 1);
          }
        }
      }
    }
  }

  lemma {:induction false} SpanUp(level: nat, a: nat)
    requires 1 <= level <= 3 && a % Span(level - 1) == 0
    ensures a % Span(level) == 0
  {
    var q := Aligned(level - 1, a);
    assert Span(level - 1) == 512 * Span(level);
    assert a == 512 * q * Span(level);
    Multiple(level, 512 * q);
  }

  lemma {:induction false} Multiple(level: nat, q: nat)
    requires level <= 3
    ensures q * Span(level) % Span(level) == 0 && Slot(level, q * Span(level)) == q
  {
    if level == 0 {
      assert Span(level) == 0x800_0000;
    } else if level == 1 {
      assert Span(level) == 0x4_0000;
    } else if level == 2 {
      assert Span(level) == 0x200;
    }
  }

  /** lib/mmu.c line 189: where the last whole entry up to last ends. */
  function RoundedDown(level: nat, last: nat): int
    requires level <= 3
  {
    if (last + 1) % Span(level) == 0 then last else (last - Span(level)) / Span(level) * Span(level) + Span(level) - 1
  }

  lemma {:induction false} RoundDownArithmetic(level: nat, first: nat, last: nat)
    requires level <= 3 && first <= last && first % Span(level) == 0
    requires (last + 1) % Span(level) == 0 || Slot(level, first) < Slot(level, last)
    ensures first <= RoundedDown(level, last) <= last
    ensures (RoundedDown(level, last) + 1) % Span(level) == 0
  {
    if (last + 1) % Span(level) != 0 {
      var n, p, q := Span(level), Slot(level, first), Slot(level, last);
      SlotRange(level, last);
      var p' := Aligned(level, first);
      assert (q - p) * n == q * n - p * n && (q - p) * n >= n;
      assert (last - n) / n == q - 1;
      assert RoundedDown(level, last) + 1 == q * n;
      Multiple(level, q);
    }
  }

  /** lib/mmu.c lines 187-190: what is cleared ends with a whole entry of the level, a chunk of its own. */
  lemma {:induction false} RoundDown(r: Request, level: nat, first: nat, last: nat, last0: nat)
    requires 1 <= level <= 3 && ChunkLevel(r, first) == level && r.frame == r.first <= first && last0 + 1 == r.end
    requires Clipped(level, first, last, last0) && first % Span(level) == 0
    requires (last + 1) % Span(level) == 0 || Slot(level, first) < Slot(level, last)
    ensures first <= RoundedDown(level, last) <= last && (RoundedDown(level, last) + 1) % Span(level) == 0
    ensures Slot(level, RoundedDown(level, last)) / 512 == Slot(level, first) / 512
    ensures ChunkLevel(r, RoundedDown(level, last)) == level
  {
    RoundDownArithmetic(level, first, last);
    RoundDownChunk(r, level, first, RoundedDown(level, last), last);
  }

  predicate ChunkStart(r: Request, vpn: nat)
  {
    vpn % Span(ChunkLevel(r, vpn)) == 0
  }

  lemma {:induction false} RoundDownStart(r: Request, level: nat, first: nat, last: nat, last0: nat, l: nat)
    requires 1 <= level <= 3 && ChunkLevel(r, first) == level && r.frame == r.first <= first && last0 + 1 == r.end
    requires Clipped(level, first, last, last0) && first % Span(level) == 0
    requires (last + 1) % Span(level) == 0 || Slot(level, first) < Slot(level, last)
    requires l == RoundedDown(level, last)
    ensures first <= l <= last && (l + 1) % Span(level) == 0 && Slot(level, l) / 512 == Slot(level, first) / 512
    ensures ChunkStart(r, l + 1)
  {
    RoundDown(r, level, first, last, last0);
    NextChunkStart(r, l + 1);
  }

  lemma {:induction false} RoundDownChunk(r: Request, level: nat, first: nat, l: nat, last: nat)
    requires 1 <= level <= 3 && ChunkLevel(r, first) == level && r.frame == r.first <= first
    requires first <= l <= last < r.end && Slot(level - 1, last) == Slot(level - 1, first)
    requires first % Span(level) == 0 && (l + 1) % Span(level) == 0
    ensures Slot(level, l) / 512 == Slot(level, first) / 512
    ensures ChunkLevel(r, l) == level
  {
    SlotUp(level, first);
    SlotUp(level, l);
    SlotMonotone(level - 1, first, l);
    SlotMonotone(level - 1, l, last);
    SameSlot(level - 1, first, l);
    LastSlot(level, l);
    var q := Aligned(level, l + 1);
    AlignedGap(level, first, l + 1);
    var n := Span(level);
    assert Slot(level, l) * n + n == q * n;
    assert Fits(r, l, level);
    assert forall k :: 1 <= k < level ==> Fits(r, l, k) == Fits(r, first, k);
  }

  lemma {:induction false} SlotMonotone(level: nat, a: nat, b: nat)
    requires level <= 3 && a <= b
    ensures Slot(level, a) <= Slot(level, b)
  {
  }

  /** lib/mmu.c line 211 */
  function ClippedLast(level: nat, first: nat, last: nat): nat
    requires level <= 3
  {
    if Slot(level, first) < Slot(level, last) then Slot(level, first) * Span(level) + Span(level) - 1 else last
  }

  lemma {:induction false} Clip(level: nat, first: nat, last: nat, last0: nat)
    requires level < 3 && Clipped(level, first, last, last0)
    ensures Clipped(level + 1, first, ClippedLast(level, first, last), last0)
  {
    SlotMonotone(level, first, last);
    var n, p, q := Span(level), Slot(level, first), Slot(level, last);
    if p < q {
      SlotRange(level, first);
      SlotRange(level, last);
      assert (q - p) * n == q * n - p * n && (q - p) * n >= n;
      Multiple(level, p);
      InChunk(p * n, level, p * n + n - 1);
      Multiple(level, p + 1);
      assert (p + 1) * n == p * n + n;
    } else if level > 0 && last != last0 {
      SpanUp(level, last + 1);
    }
  }

  lemma {:induction false} FirstChunkStart(r: Request)
    requires r.first < r.end
    ensures r.first % Span(ChunkLevel(r, r.first)) == 0
  {
    SlotRange(ChunkLevel(r, r.first), r.first);
  }

  // ---- the tables and the two loops ----------------------------------------

  /** What the loop knows when it looks at level for addr: the pointers of this level and those above lead to addr. */
  ghost predicate Cursor(s: Space, r: Request, addr: nat, level: nat, ptr: seq<nat>)
  {
    && |ptr| == 4 && level <= 3
    && (forall l :: 0 <= l <= level ==> AtTable(s, ptr[l], l, addr))
    && (addr == r.first || addr % Span(level) == 0)
    && (forall l :: 1 <= l < level ==> !Fits(r, addr, l))
  }

  lemma {:induction false} StartCursor(s: Space, r: Request)
    requires Tree(s) && r.first < PAGES
    ensures Cursor(s, r, r.first, 0, [0, 0, 0, 0])
  {
    assert HomeOk(s, 0);
    SlotTop(r.first);
  }

  /** The tests that the loop makes decide whether this is the level of the chunk at addr. */
  lemma {:induction false} CursorChunk(s: Space, r: Request, addr: nat, level: nat, ptr: seq<nat>)
    requires Cursor(s, r, addr, level, ptr) && r.first <= addr < r.end
    ensures level >= 1 ==>
              (Fits(r, addr, level) <==>
                 addr % Span(level) == 0 && (r.frame - r.first) % Span(level) == 0 && addr + Span(level) <= r.end)
    ensures level >= 1 && Fits(r, addr, level) ==> ChunkLevel(r, addr) == level
    ensures level == 3 ==> Fits(r, addr, level)
  {
    SlotRange(level, addr);
  }

  /** addr, the page after prev, has just reached the end of an entry of this level; the pointers still lead to prev. */
  ghost predicate Returning(s: Space, r: Request, prev: nat, level: nat, ptr: seq<nat>)
  {
    && |ptr| == 4 && level <= 3 && prev + 1 < PAGES && (prev + 1) % Span(level) == 0
    && (forall l :: 0 <= l <= level ==> AtTable(s, ptr[l], l, prev))
    && (forall l :: 1 <= l < level ==> !Fits(r, prev, l))
  }

  lemma {:induction false} CursorWritten(s: Space, s2: Space, r: Request, addr: nat, level: nat, ptr: seq<nat>)
    requires Tree(s2) && s2.homes == s.homes && s2.next == s.next && 1 <= level <= 3
    requires addr + Span(level) < PAGES && addr % Span(level) == 0
    requires Cursor(s, r, addr, level, ptr)
    ensures Returning(s2, r, addr + Span(level) - 1, level, ptr)
  {
    var prev := addr + Span(level) - 1;
    var q := Aligned(level, addr);
    InChunk(addr, level, prev);
    SameSlot(level, addr, prev);
    forall l | 0 <= l <= level
      ensures AtTable(s2, ptr[l], l, prev)
    {
      assert AtTable(s, ptr[l], l, addr);
    }
    forall l | 1 <= l < level
      ensures !Fits(r, prev, l)
    {
      assert !Fits(r, addr, l);
    }
  }

  /** lines 183-186: the end of a table is also the end of the entry above. */
  lemma {:induction false} ReturnUp(s: Space, r: Request, prev: nat, level: nat, ptr: seq<nat>)
    requires Returning(s, r, prev, level, ptr) && Index(level, prev + 1) == 0
    ensures level > 0 && Returning(s, r, prev, level - 1, ptr)
  {
    if level > 0 {
      SlotUp(level, prev + 1);
    }
  }

  lemma {:induction false} ReturnDone(s: Space, r: Request, prev: nat, level: nat, ptr: seq<nat>)
    requires Returning(s, r, prev, level, ptr) && Index(level, prev + 1) != 0
    ensures Cursor(s, r, prev + 1, level, ptr)
  {
    var addr := prev + 1;
    assert Slot(level, prev) == Slot(level, addr) - 1;
    assert Slot(level, prev) / 512 == Slot(level, addr) / 512;
    if level > 0 {
      SlotUp(level, addr);
      SlotUp(level, prev);
      SameSlot(level - 1, addr, prev);
    }
    forall l | 0 <= l <= level
      ensures AtTable(s, ptr[l], l, addr)
    {
      assert AtTable(s, ptr[l], l, prev);
    }
    forall l | 1 <= l < level
      ensures !Fits(r, addr, l)
    {
      assert !Fits(r, prev, l);
    }
  }

  lemma {:induction false} CursorDown(s: Space, s2: Space, r: Request, addr: nat, level: nat, ptr: seq<nat>, c: nat)
    requires Cursor(s, r, addr, level, ptr) && level < 3 && (level >= 1 ==> !Fits(r, addr, level))
    requires Tree(s2) && s.next <= s2.next && s.homes <= s2.homes && r.first <= addr < r.end
    requires AtTable(s2, c, level + 1, addr)
    ensures Cursor(s2, r, addr, level + 1, ptr[level + 1 := c])
  {
    forall l | 0 <= l <= level
      ensures AtTable(s2, ptr[l], l, addr)
    {
      assert AtTable(s, ptr[l], l, addr);
    }
  }

  /**
   Unmapping clears pages but keeps their tables, so a range can be free and yet
   have a table where the mapping would put a block.  Here pages 0-511 are free,
   their identity mapping would be one 2 MiB block, and an empty table is in its place.
   */
  lemma {:induction false} EmptyTableInTheWay(base: nat) returns (s: Space)
    ensures Tree(s)
    ensures forall vpn :: 0 <= vpn < 512 ==>
              Walk(s, vpn) == None && Stop(s, vpn).level > ChunkLevel(Identity(0, 512), vpn)
  {
    var empty := EmptyTable();
    var s0 := Space(base, [empty, empty, empty, empty], 1, [Home(0, 0, 0)]);
    assert HomeOk(s0, 0);
    assert forall i :: 0 <= i < 512 ==> EntryOk(s0, 0, i);
    var s1 := LinkTable(s0, 0, 0);
    LinkTableTree(s0, 0, 0);
    var s2 := LinkTable(s1, 1, 0);
    assert s1.tabs[1] == empty;
    LinkTableTree(s1, 1, 0);
    s := LinkTable(s2, 2, 0);
    assert s2.tabs[2] == empty;
    LinkTableTree(s2, 2, 0);
    forall vpn | 0 <= vpn < 512
      ensures Walk(s, vpn) == None && Stop(s, vpn).level > ChunkLevel(Identity(0, 512), vpn)
    {
      LinkTableStop(s2, 2, 0, vpn);
      assert s2.homes[2].slot == 0 && s2.homes[2].level == 2;
      assert Fits(Identity(0, 512), vpn, 2);
    }
  }

  /** mmu_asm.S lines 140-151 and 182-186: at the end of a table, back to the level above. */
  method GoUp(addr: nat, level: nat, ghost s: Space, ghost r: Request, ghost ptr: seq<nat>) returns (level': nat)
    requires 0 < addr && Returning(s, r, addr - 1, level, ptr)
    ensures Cursor(s, r, addr, level', ptr)
  {
    level' := level;
    while Index(level', addr) == 0
      invariant Returning(s, r, addr - 1, level', ptr)
      decreases level'
    {
      ReturnUp(s, r, addr - 1, level', ptr);
      level' := level' - 1;
    }
    ReturnDone(s, r, addr - 1, level', ptr);
  }

  /** A table in the way at the beginning of a request stops it at once. */
  lemma {:induction false} StoppedThere(s: Space, r: Request, addr: nat, res: MapResult)
    requires Tree(s) && r.first <= addr < r.end && Stop(s, addr).level > ChunkLevel(r, addr) && Foretold(s, r, res)
    ensures res != Done && (r.first == addr ==> res == Overlap)
  {
    assert !WillBe(s, r, Done);
    if r.first == addr {
      assert Missing(s, r, addr) == {};
      assert FirstInTheWay(s, r, addr) && EnoughFor(s, r, addr);
      assert WillBe(s, r, Overlap);
    }
  }

  /** Three tables are enough for a page, and nothing is ever in its way. */
  lemma {:induction false} OnePageFits(s: Space, vpn: nat)
    requires Tree(s) && s.next + 3 <= |s.tabs|
    ensures WillBe(s, Identity(vpn, vpn + 1), Done)
  {
    var r := Identity(vpn, vpn + 1);
    StopDeeper(s, 0, 0, vpn);
    assert Missing(s, r, r.end) <= {(0, Slot(0, vpn)), (1, Slot(1, vpn)), (2, Slot(2, vpn))};
    SubsetSize(Missing(s, r, r.end), {(0, Slot(0, vpn)), (1, Slot(1, vpn)), (2, Slot(2, vpn))});
    assert ChunkLevel(r, vpn) == 3;
  }

  class PageTables {
    /** the frame of pagetables[0] */
    const base: nat
    var tabs: seq<Table>
    /** next_pagetable */
    var next: nat
    ghost var homes: seq<Home>

    ghost function View(): Space
      reads this
    {
      Space(base, tabs, next, homes)
    }

    ghost predicate Valid()
      reads this
    {
      Tree(View())
    }

    method StoreEntry(t: nat, i: nat, e: Desc)
      requires t < |tabs| && i < 512
      modifies this`tabs
      ensures View() == old(SetEntry(View(), t, i, e))
    {
      tabs := tabs[t := tabs[t][i := e]];
    }

    /** mmu_asm.S lines 162-168 and 255-271: a cleared table for an entry that has none. */
    method AddTable(t: nat, i: nat) returns (c: nat)
      requires t < next < |tabs| && t < |homes| && i < 512
      modifies this
      ensures c == old(next) && View() == old(LinkTable(View(), t, i))
    {
      c := next;
      next := next + 1;
      tabs := tabs[c := EmptyTable()];
      tabs := tabs[t := tabs[t][i := Desc(3, base + c, 0)]];
      homes := homes + [Home(homes[t].level + 1, 512 * homes[t].slot + i, t)];
    }

    /** mmu_asm.S lines 94-151 and 182-186: write the entry for addr, then go back up as far as tables end. */
    method WriteHere(r: Request, addr: nat, frame: nat, level: nat, ptr: seq<nat>, ghost s0: Space, ghost tally: Tally,
                     ghost cost: Cost)
      returns (addr': nat, level': nat)
      requires Progress(s0, View(), r, addr) && Cursor(View(), r, addr, level, ptr)
      requires 1 <= level && frame == r.frame + addr - r.first
      requires addr % Span(level) == 0 && addr + Span(level) <= r.end && ChunkLevel(r, addr) == level
      requires AtTable(View(), ptr[level], level, addr) && tabs[ptr[level]][Index(level, addr)].low % 2 == 0
      requires Tallies(tally, cost, s0, r) && tally(View(), addr)
      modifies this`tabs
      ensures tally(View(), addr')
      ensures addr' == addr + Span(level) && Progress(s0, View(), r, addr') && |tabs| == old(|tabs|)
      ensures addr' < r.end ==> Cursor(View(), r, addr', level', ptr)
    {
      var t, i := ptr[level], Index(level, addr);
      ghost var before, after := View(), SetEntry(View(), t, i, ChunkDesc(r, addr, level));
      WriteProgress(s0, before, r, addr, level, t);
      WriteTally(tally, cost, s0, before, after, r, addr, level, t);
      StoreEntry(t, i, Desc(if level < 3 then 1 else 3, frame, r.attrs));
      assert View() == after;
      addr', level' := addr + Span(level), level;
      if addr' < r.end {
        CursorWritten(before, after, r, addr, level, ptr);
        level' := GoUp(addr', level, View(), r, ptr);
      }
    }

    /** mmu_asm.S lines 152-168 */
    method GoDeeper(r: Request, addr: nat, level: nat, ptr: seq<nat>, ghost s0: Space, ghost tally: Tally,
                    ghost cost: Cost)
      returns (ok: bool, ptr': seq<nat>)
      requires Progress(s0, View(), r, addr) && Cursor(View(), r, addr, level, ptr) && addr < r.end
      requires level < 3 && (level >= 1 ==> !Fits(r, addr, level))
      requires Tallies(tally, cost, s0, r) && tally(View(), addr)
      modifies this
      ensures Progress(s0, View(), r, addr) && |tabs| == old(|tabs|) && tally(View(), addr)
      ensures ok ==> Cursor(View(), r, addr, level + 1, ptr')
      ensures !ok ==> EndsWith(s0, View(), r, OutOfTables, addr, cost)
    {
      var t, i := ptr[level], Index(level, addr);
      assert AtTable(View(), t, level, addr) && FreePage(s0, View(), r, addr);
      StopHere(View(), t, level, addr);
      var c;
      ghost var before := View();
      if tabs[t][i].low % 2 == 1 {
        c := tabs[t][i].frame - base;
      } else {
        if next == |tabs| {
          EndOut(tally, cost, s0, View(), r, addr, level);
          return false, ptr;
        }
        LinkTally(tally, cost, s0, before, LinkTable(before, t, i), r, addr, level, t);
        LinkProgress(s0, View(), r, addr, level, t);
        c := AddTable(t, i);
        assert AtTable(View(), t, level, addr);
      }
      DescendTable(View(), t, level, addr);
      assert before.homes <= homes;
      CursorDown(before, View(), r, addr, level, ptr, c);
      ok, ptr' := true, ptr[level + 1 := c];
    }

    /**
     mmu_multimap, for one mapping as map_range passes it.  level stands for the copy
     of the loop body that control is in, ptr for the table pointer registers.
     */
    method MapAll(r: Request, ghost s0: Space, ghost tally: Tally, ghost cost: Cost)
      returns (res: MapResult, ghost at: nat)
      requires Valid() && r.first < r.end <= PAGES && r.frame + (r.end - r.first) <= PAGES
      requires Free(View(), r)
      requires s0 == View() && Tallies(tally, cost, s0, r) && tally(s0, r.first)
      modifies this
      ensures Valid() && |tabs| == old(|tabs|)
      ensures Untouched(s0, View(), r)
      ensures res == Done ==> forall vpn :: r.first <= vpn < r.end ==> MappedPage(s0, View(), r, vpn)
      ensures EndsWith(s0, View(), r, res, at, cost)
    {
      var addr, level: nat := r.first, 0;
      var ptr: seq<nat> := [0, 0, 0, 0];
      StartCursor(s0, r);
      while true
        invariant Progress(s0, View(), r, addr) && addr < r.end && |tabs| == |s0.tabs|
        invariant Cursor(View(), r, addr, level, ptr) && tally(View(), addr)
        decreases r.end - addr, 3 - level
      {
        var frame := r.frame + addr - r.first;
        CursorChunk(View(), r, addr, level, ptr);
        if level >= 1 && addr % Span(level) == 0 && (frame - addr) % Span(level) == 0 && addr + Span(level) <= r.end {
          assert AtTable(View(), ptr[level], level, addr) && FreePage(s0, View(), r, addr);
          StopHere(View(), ptr[level], level, addr);
          if tabs[ptr[level]][Index(level, addr)].low % 2 == 1 {
            EndOverlap(tally, cost, s0, View(), r, addr);
            return Overlap, addr;
          }
          addr, level := WriteHere(r, addr, frame, level, ptr, s0, tally, cost);
          if addr == r.end {
            EndDone(tally, cost, s0, View(), r);
            return Done, addr;
          }
        } else {
          var ok;
          ok, ptr := GoDeeper(r, addr, level, ptr, s0, tally, cost);
          if !ok {
            return OutOfTables, addr;
          }
          level := level + 1;
        }
      }
    }

    /**
     It maps exactly if nothing is in the way and there are tables enough; it stops at a table in
     the way exactly if there are tables enough up to there.
     */
    method Map(r: Request) returns (res: MapResult)
      requires Valid() && r.first < r.end <= PAGES && r.frame + (r.end - r.first) <= PAGES
      requires Free(View(), r)
      modifies this
      ensures Valid() && |tabs| == old(|tabs|)
      ensures Untouched(old(View()), View(), r)
      ensures res == Done ==> forall vpn :: r.first <= vpn < r.end ==> MappedPage(old(View()), View(), r, vpn)
      ensures Foretold(old(View()), r, res)
      ensures res == Done ==> next == old(next) + |Missing(old(View()), r, r.end)|
    {
      ghost var s0, at := View(), 0;
      ghost var tally, cost := GetTally(s0, r);
      res, at := MapAll(r, s0, tally, cost);
      EndsAsSaid(tally, cost, s0, View(), r, res, at);
      OnlyOne(s0, r, res);
    }

    /** lib/mmu.c lines 194-197: clear the entries for [first, last], which one table of the level covers. */
    method ClearRun(t: nat, level: nat, first: nat, last: nat, ghost s0: Space, ghost r: Request)
      requires Cleared(s0, View(), r, first) && MappedInChunks(s0, r)
      requires 1 <= level && AtTable(View(), t, level, first) && ChunkLevel(r, first) == level
      requires r.frame == r.first && first <= last < r.end
      requires first % Span(level) == 0 && (last + 1) % Span(level) == 0
      requires Slot(level, first) / 512 == Slot(level, last) / 512
      modifies this`tabs
      ensures Cleared(s0, View(), r, last + 1) && |tabs| == old(|tabs|)
    {
      var i, j := Index(level, first), Index(level, last);
      ghost var addr: nat := first;
      StartRun(level, first, last);
      for k: nat := i to j + 1
        invariant Cleared(s0, View(), r, addr) && |tabs| == old(|tabs|)
        invariant t < next && homes[t].level == level && Covers(View(), t, first)
        invariant RunAt(level, first, addr, last, k)
      {
        ghost var before, addr' := View(), addr + Span(level);
        ClearNext(s0, before, r, t, level, first, addr, addr', last, k);
        assert tabs[t][k].low == if level == 3 then 3 else 1;
        StoreEntry(t, k, EMPTY);
        assert View() == SetEntry(before, t, k, EMPTY);
        addr := addr';
      }
      RunEnd(level, first, addr, last);
    }

    /** lib/mmu.c lines 186-205: clear whole entries only. */
    method ClearWhole(t: nat, level: nat, first: nat, last0: nat, ghost last: nat, ghost s0: Space, ghost r: Request)
      returns (last': nat)
      requires Cleared(s0, View(), r, first) && MappedInChunks(s0, r)
      requires 1 <= level && AtTable(View(), t, level, first) && ChunkLevel(r, first) == level
      requires r.frame == r.first <= first && last + 1 == r.end && Clipped(level, first, last0, last)
      requires first % Span(level) == 0 && ((last0 + 1) % Span(level) == 0 || Slot(level, first) < Slot(level, last0))
      modifies this`tabs
      ensures first <= last' <= last0 && |tabs| == old(|tabs|)
      ensures Cleared(s0, View(), r, last' + 1)
      ensures ChunkStart(r, last' + 1)
    {
      last' := RoundedDown(level, last0);
      RoundDownStart(r, level, first, last0, last, last');
      ClearRun(t, level, first, last', s0, r);
    }

    /** lib/mmu.c lines 179-215: clear the entries of one table from first on, as far as last. */
    method UnmapOne(first: nat, last: nat, ghost s0: Space, ghost r: Request) returns (last': nat)
      requires Cleared(s0, View(), r, first) && MappedInChunks(s0, r)
      requires r.frame == r.first <= first <= last && last + 1 == r.end
      requires ChunkStart(r, first)
      modifies this`tabs
      ensures first <= last' <= last && |tabs| == old(|tabs|)
      ensures Cleared(s0, View(), r, last' + 1)
      ensures ChunkStart(r, last' + 1)
    {
      ghost var s := View();
      var t: nat, level: nat := 0, 0;
      last' := last;
      StartCursor(s, Identity(first, r.end));
      assert AtTable(s, [0, 0, 0, 0][0], 0, first);
      while true
        invariant View() == s && AtTable(s, t, level, first) && level <= ChunkLevel(r, first)
        invariant Clipped(level, first, last', last)
        decreases 3 - level
      {
        var endAligned, notAlsoLast := (last' + 1) % Span(level) == 0, Slot(level, first) < Slot(level, last');
        if level >= 1 {
          UnmapDecide(r, level, first, last', last);
        }
        if level >= 1 && first % Span(level) == 0 && (endAligned || notAlsoLast) {
          last' := ClearWhole(t, level, first, last', last, s0, r);
          return;
        }
        assert level < 3;
        assert Stop(s, first) == Stop(s0, first);
        StopHere(s, t, level, first);
        assert tabs[t][Index(level, first)].low == 3;
        DescendTable(s, t, level, first);
        t := tabs[t][Index(level, first)].frame - base;
        Clip(level, first, last', last);
        last' := ClippedLast(level, first, last');
        level := level + 1;
      }
    }

    /** lib/mmu.c lines 217-220 */
    method Unmap(first0: nat, last: nat)
      requires Valid() && first0 <= last < PAGES
      requires MappedInChunks(View(), Identity(first0, last + 1))
      modifies this`tabs
      ensures Valid() && |tabs| == old(|tabs|)
      ensures Untouched(old(View()), View(), Identity(first0, last + 1))
      ensures forall vpn :: first0 <= vpn <= last ==> Emptied(old(View()), View(), vpn)
    {
      ghost var s0, r := View(), Identity(first0, last + 1);
      var first := first0;
      FirstChunkStart(r);
      while true
        invariant Cleared(s0, View(), r, first) && first0 <= first <= last && |tabs| == |s0.tabs|
        invariant ChunkStart(r, first)
        decreases last - first
      {
        first := UnmapOne(first, last, s0, r);
        if first >= last {
          break;
        }
        first := first + 1;
      }
    }

    /**
     dram/ddrinit.c lines 253 and 272: a temporary identity mapping leaves no trace in the
     translation. The tables it took stay where they are.
     */
    method MapThenUnmap(first: nat, last: nat, attrs: nat) returns (res: MapResult)
      requires Valid() && first <= last < PAGES
      requires Free(View(), Identity(first, last + 1))
      modifies this
      ensures Valid() && |tabs| == old(|tabs|)
      ensures res == Done <==> WillBe(old(View()), Identity(first, last + 1), Done)
      ensures res == Done ==> next == old(next) + |Missing(old(View()), Identity(first, last + 1), last + 1)|
      ensures res == Done ==> SameTranslation(old(View()), View())
      ensures res == Done ==>
        forall vpn :: first <= vpn <= last ==> Stop(View(), vpn).level == ChunkLevel(Identity(first, last + 1), vpn)
    {
      ghost var r := Request(first, last + 1, first, attrs);
      SameMissing(View(), Identity(first, last + 1), attrs);
      assert Identity(first, last + 1).(attrs := attrs) == r;
      assert WillBe(View(), r, Done) <==> WillBe(View(), Identity(first, last + 1), Done);
      res := Map(Request(first, last + 1, first, attrs));
      if res == Done {
        ghost var s := View();
        forall vpn | first <= vpn <= last
          ensures Stop(s, vpn).level == ChunkLevel(Identity(first, last + 1), vpn) && Walk(s, vpn).Some?
        {
          assert MappedPage(old(View()), s, r, vpn);
        }
        Unmap(first, last);
        forall vpn | 0 <= vpn < PAGES
          ensures Walk(View(), vpn) == old(Walk(View(), vpn))
        {
          if first <= vpn <= last {
            assert Emptied(s, View(), vpn);
          } else {
            assert Walk(View(), vpn) == Walk(s, vpn) == Walk(old(View()), vpn);
          }
        }
        forall vpn | first <= vpn <= last
          ensures Stop(View(), vpn).level == ChunkLevel(Identity(first, last + 1), vpn)
        {
          assert Emptied(s, View(), vpn);
        }
      }
    }

    /**
     The translation is as before, and yet a range that holds the unmapped one can no longer be
     mapped if that takes bigger entries. If it begins with it, that is because of the tables
     left there. mid is what the tables are like in between.
     */
    method MapUnmapMap(first: nat, last: nat, r: Request) returns (res: MapResult, res': MapResult, ghost mid: Space)
      requires Valid() && r.first <= first <= last < r.end <= PAGES && r.frame + (r.end - r.first) <= PAGES
      requires Free(View(), r)
      modifies this
      ensures Valid() && |tabs| == old(|tabs|) && (res != Done ==> res' == res)
      ensures res == Done <==> WillBe(old(View()), Identity(first, last + 1), Done)
      ensures res == Done ==> Tree(mid) && Stop(mid, first).level == ChunkLevel(Identity(first, last + 1), first)
      ensures res == Done ==> SameTranslation(old(View()), mid)
      ensures res == Done ==> Foretold(mid, r, res')
      ensures res == Done && ChunkLevel(r, first) < ChunkLevel(Identity(first, last + 1), first) ==>
                res' != Done && (r.first == first ==> res' == Overlap)
    {
      FreePart(View(), r, Identity(first, last + 1));
      res := MapThenUnmap(first, last, r.attrs);
      res', mid := res, View();
      if res == Done {
        StillFree(old(View()), mid, r);
        res' := Map(r);
        if ChunkLevel(r, first) < ChunkLevel(Identity(first, last + 1), first) {
          StoppedThere(mid, r, first, res');
        }
      }
    }

    /** The first page, then the first 512 pages. */
    method PageThenBlock() returns (res: MapResult, res': MapResult)
      requires Valid() && next + 3 <= |tabs| && Free(View(), Identity(0, 512))
      modifies this
      ensures Valid() && res == Done && res' == Overlap
    {
      assert Fits(Identity(0, 512), 0, 2) && !Fits(Identity(0, 1), 0, 2) && !Fits(Identity(0, 1), 0, 1);
      OnePageFits(View(), 0);
      ghost var mid;
      res, res', mid := MapUnmapMap(0, 0, Identity(0, 512));
    }
  }
}
