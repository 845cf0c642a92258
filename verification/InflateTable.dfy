/**
 compression/inflate.c: construct_dectable, and the lookup of lines 428-453 of huff_block.

 The widths are parameters: the table is indexed by w bits, codewords have up to top. The
 source has 11 and 15.
 */
module InflateTable {
  import opened Basics
  import opened Bits
  import opened Canon
  import opened CanonPrefix

  // ---- the table of the short codewords ------------------------------------

  /** len | sym << 4 */
  function Entry(len: nat, sym: nat): nat
  {
    len + 16 * sym
  }

  lemma {:induction false} EntryParts(len: nat, sym: nat)
    requires len < 16
    ensures Entry(len, sym) % 16 == len && Entry(len, sym) / 16 == sym
  {
  }

  /** Once the symbols below n have been entered: what idx holds for those that concern it. */
  ghost predicate EntryFor(lengths: seq<nat>, w: nat, idx: nat, e: nat, s: nat)
  {
    && (Begins(lengths, idx, s) && lengths[s] <= w ==> e == Entry(lengths[s], s))
    && (s < |lengths| && lengths[s] > w && Low(Codeword(lengths, s), w) == idx ==> e == w + 1)
  }

  ghost predicate EntriesUpTo(lengths: seq<nat>, w: nat, table: seq<nat>, n: nat)
  {
    |table| == Pow2(w) && forall idx, s :: 0 <= idx < |table| && 0 <= s < n ==> EntryFor(lengths, w, idx, table[idx], s)
  }

  /** line 72: what an entry is that no symbol is entered at. */
  const FILLER := 10

  ghost predicate Claims(lengths: seq<nat>, w: nat, idx: nat, s: nat)
  {
    (Begins(lengths, idx, s) && lengths[s] <= w) || (s < |lengths| && lengths[s] > w && Low(Codeword(lengths, s), w) == idx)
  }

  ghost predicate Unclaimed(lengths: seq<nat>, w: nat, idx: nat, n: nat)
  {
    forall s :: 0 <= s < n ==> !Claims(lengths, w, idx, s)
  }

  ghost predicate FillerUpTo(lengths: seq<nat>, w: nat, table: seq<nat>, n: nat)
  {
    forall idx :: 0 <= idx < |table| && Unclaimed(lengths, w, idx, n) ==> table[idx] == FILLER
  }

  ghost predicate TableUpTo(lengths: seq<nat>, w: nat, table: seq<nat>, n: nat)
  {
    EntriesUpTo(lengths, w, table, n) && FillerUpTo(lengths, w, table, n)
  }

  /** Entering a symbol where it has a claim leaves the filler everywhere else. */
  lemma {:induction false} FillerKept(lengths: seq<nat>, w: nat, before: seq<nat>, after: seq<nat>, sym: nat)
    requires FillerUpTo(lengths, w, before, sym) && |after| == |before|
    requires forall idx :: 0 <= idx < |after| && !Claims(lengths, w, idx, sym) ==> after[idx] == before[idx]
    ensures FillerUpTo(lengths, w, after, sym + 1)
  {
    forall idx | 0 <= idx < |after| && Unclaimed(lengths, w, idx, sym + 1) ensures after[idx] == FILLER {
      assert !Claims(lengths, w, idx, sym);
      assert Unclaimed(lengths, w, idx, sym);
    }
  }

  /** A symbol that is entered at idx leaves no other with a claim to it. */
  lemma {:induction false} NoOtherClaim(lengths: seq<nat>, top: nat, w: nat, idx: nat, sym: nat, s: nat, e: nat)
    requires GoodLengths(lengths, top) && Kraft(lengths, top) <= Pow2(top) && s != sym && s < |lengths|
    requires sym < |lengths| && idx < Pow2(w)
    requires (Begins(lengths, idx, sym) && lengths[sym] <= w && e == Entry(lengths[sym], sym)) ||
             (lengths[sym] > w && Low(Codeword(lengths, sym), w) == idx && e == w + 1)
    ensures EntryFor(lengths, w, idx, e, s)
  {
    if Begins(lengths, idx, s) && lengths[s] <= w {
      if lengths[sym] <= w {
        BeginsUnique(lengths, top, idx, s, sym);
      } else {
        ShortBeginsLong(lengths, w, idx, s, sym);
        BeginsUnique(lengths, top, Codeword(lengths, sym), s, sym);
      }
    }
    if lengths[s] > w && Low(Codeword(lengths, s), w) == idx && lengths[sym] <= w {
      ShortBeginsLong(lengths, w, idx, sym, s);
      BeginsUnique(lengths, top, Codeword(lengths, s), s, sym);
    }
  }

  /** If a short codeword begins idx and idx begins a long one, the short one begins the long one. */
  lemma {:induction false} ShortBeginsLong(lengths: seq<nat>, w: nat, idx: nat, s: nat, t: nat)
    requires Begins(lengths, idx, s) && lengths[s] <= w && t < |lengths| && lengths[t] > w
    requires Low(Codeword(lengths, t), w) == idx
    ensures Begins(lengths, Codeword(lengths, t), s) && Begins(lengths, Codeword(lengths, t), t)
  {
    LowLow(Codeword(lengths, t), lengths[s], w);
    LowSmall(Codeword(lengths, t), lengths[t]);
  }

  /** lines 78-80: all indices that begin with the codeword. */
  method FillShort(table: array<nat>, w: nat, len: nat, code: nat, e: nat)
    requires len <= w && code < Pow2(len) && table.Length == Pow2(w)
    modifies table
    ensures forall idx :: 0 <= idx < table.Length ==> table[idx] == if Low(idx, len) == code then e else old(table[idx])
  {
    var i := 0;
    while i < Pow2(w - len)
      invariant i <= Pow2(w - len)
      invariant forall idx :: 0 <= idx < table.Length ==> table[idx] == if Low(idx, len) == code && Shr(idx, len) < i then e else old(table[idx])
    {
      SplitUnique(code, i, len);
      Beneath(code, i, len, w);
      SameSplit(code, i, len);
      table[code + Shl(i, len)] := e;
      i := i + 1;
    }
    forall idx | 0 <= idx < table.Length ensures Shr(idx, len) < i {
      ShrBound(idx, len, w - len);
    }
  }

  lemma {:induction false} Beneath(code: nat, i: nat, len: nat, w: nat)
    requires len <= w && code < Pow2(len) && i < Pow2(w - len)
    ensures code + Shl(i, len) < Pow2(w)
  {
    ShlMonotone(i + 1, Pow2(w - len), len);
    ShlAdd(i, 1, len);
    ShlPow2(0, len);
    ShlPow2(w - len, len);
  }

  lemma {:induction false} SameSplit(code: nat, i: nat, len: nat)
    ensures forall idx: nat :: Low(idx, len) == code && Shr(idx, len) == i ==> idx == code + Shl(i, len)
  {
    forall idx: nat | Low(idx, len) == code && Shr(idx, len) == i ensures idx == code + Shl(i, len) {
      Split(idx, len);
    }
  }

  lemma {:induction false} EnteredShort(lengths: seq<nat>, top: nat, w: nat, before: seq<nat>, after: seq<nat>,
                                        sym: nat)
    requires GoodLengths(lengths, top) && Kraft(lengths, top) <= Pow2(top) && sym < |lengths| && 0 < lengths[sym] <= w
    requires TableUpTo(lengths, w, before, sym) && |after| == |before|
    requires forall idx :: 0 <= idx < |after| ==>
               after[idx] == if Low(idx, lengths[sym]) == Codeword(lengths, sym) then Entry(lengths[sym], sym) else before[idx]
    ensures TableUpTo(lengths, w, after, sym + 1)
  {
    FillerKept(lengths, w, before, after, sym);
    forall idx, s | 0 <= idx < |after| && 0 <= s <= sym ensures EntryFor(lengths, w, idx, after[idx], s) {
      if s < sym {
        assert EntryFor(lengths, w, idx, before[idx], s);
        if Begins(lengths, idx, sym) {
          NoOtherClaim(lengths, top, w, idx, sym, s, after[idx]);
        }
      }
    }
  }

  lemma {:induction false} EnteredLong(lengths: seq<nat>, top: nat, w: nat, before: seq<nat>, sym: nat, at: nat)
    requires GoodLengths(lengths, top) && Kraft(lengths, top) <= Pow2(top) && sym < |lengths| && lengths[sym] > w
    requires TableUpTo(lengths, w, before, sym) && at == Low(Codeword(lengths, sym), w)
    ensures TableUpTo(lengths, w, before[at := w + 1], sym + 1)
  {
    var after := before[at := w + 1];
    FillerKept(lengths, w, before, after, sym);
    forall idx, s | 0 <= idx < |after| && 0 <= s <= sym ensures EntryFor(lengths, w, idx, after[idx], s) {
      if s < sym {
        assert EntryFor(lengths, w, idx, before[idx], s);
        if idx == at {
          NoOtherClaim(lengths, top, w, idx, sym, s, w + 1);
        }
      }
    }
  }

  lemma {:induction false} EnteredNone(lengths: seq<nat>, w: nat, table: seq<nat>, sym: nat)
    requires sym < |lengths| && lengths[sym] == 0 && TableUpTo(lengths, w, table, sym)
    ensures TableUpTo(lengths, w, table, sym + 1)
  {
    FillerKept(lengths, w, table, table, sym);
  }

  /** How many of the first n symbols have a codeword of w + 1 + i bits. */
  ghost predicate CountsUpTo(lengths: seq<nat>, w: nat, counts: seq<nat>, n: nat)
    requires n <= |lengths|
  {
    forall i :: 0 <= i < |counts| ==> counts[i] == Count(lengths, w + 1 + i, n)
  }

  /** lines 74-85 for one symbol. */
  method EnterOne(lengths: seq<nat>, code: nat, w: nat, top: nat, table: array<nat>, counts: array<nat>, sym: nat)
    requires GoodLengths(lengths, top) && Kraft(lengths, top) <= Pow2(top) && w <= top && sym < |lengths|
    requires lengths[sym] > 0 ==> code == Codeword(lengths, sym)
    requires table.Length == Pow2(w) && counts.Length == top - w && table != counts
    requires TableUpTo(lengths, w, table[..], sym) && CountsUpTo(lengths, w, counts[..], sym)
    modifies table, counts
    ensures TableUpTo(lengths, w, table[..], sym + 1)
    ensures counts[..] == if lengths[sym] > w then old(counts[..])[lengths[sym] - w - 1 := old(counts[lengths[sym] - w - 1]) + 1] else old(counts[..])
  {
    var len := lengths[sym];
    ghost var before := table[..];
    if len == 0 {
      EnteredNone(lengths, w, before, sym);
    } else if len <= w {
      FillShort(table, w, len, code, Entry(len, sym));
      EnteredShort(lengths, top, w, before, table[..], sym);
    } else {
      counts[len - w - 1] := counts[len - w - 1] + 1;
      EnteredLong(lengths, top, w, before, sym, Low(code, w));
      table[Low(code, w)] := w + 1;
    }
  }

  lemma {:induction false} CountedOne(lengths: seq<nat>, w: nat, counts: seq<nat>, counts': seq<nat>, sym: nat)
    requires sym < |lengths| && CountsUpTo(lengths, w, counts, sym)
    requires lengths[sym] > w ==> lengths[sym] - w - 1 < |counts|
    requires counts' == if lengths[sym] > w then counts[lengths[sym] - w - 1 := counts[lengths[sym] - w - 1] + 1] else counts
    ensures CountsUpTo(lengths, w, counts', sym + 1)
  {
  }

  method EnterCounted(lengths: seq<nat>, code: nat, w: nat, top: nat, table: array<nat>, counts: array<nat>, sym: nat)
    requires GoodLengths(lengths, top) && Kraft(lengths, top) <= Pow2(top) && w <= top && sym < |lengths|
    requires lengths[sym] > 0 ==> code == Codeword(lengths, sym)
    requires table.Length == Pow2(w) && counts.Length == top - w && table != counts
    requires TableUpTo(lengths, w, table[..], sym) && CountsUpTo(lengths, w, counts[..], sym)
    modifies table, counts
    ensures TableUpTo(lengths, w, table[..], sym + 1) && CountsUpTo(lengths, w, counts[..], sym + 1)
  {
    ghost var before := counts[..];
    EnterOne(lengths, code, w, top, table, counts, sym);
    CountedOne(lengths, w, before, counts[..], sym);
  }

  /** lines 73-86: the table, and how many symbols of each length do not fit into it. */
  method EnterAll(lengths: seq<nat>, codes: seq<nat>, w: nat, top: nat, table: array<nat>, counts: array<nat>)
    requires GoodLengths(lengths, top) && Kraft(lengths, top) <= Pow2(top) && AllCodes(lengths, codes) && w <= top
    requires table.Length == Pow2(w) && counts.Length == top - w && table != counts
    requires CountsUpTo(lengths, w, counts[..], 0) && TableUpTo(lengths, w, table[..], 0)
    modifies table, counts
    ensures TableUpTo(lengths, w, table[..], |lengths|) && CountsUpTo(lengths, w, counts[..], |lengths|)
  {
    for sym := 0 to |lengths|
      invariant TableUpTo(lengths, w, table[..], sym) && CountsUpTo(lengths, w, counts[..], sym)
    {
      EnterCounted(lengths, codes[sym], w, top, table, counts, sym);
    }
  }

  // ---- the lists of the long codewords -------------------------------------

  /** Where the symbols of w + 1 + j bits begin among those that are too long for the table. */
  function Offset(lengths: seq<nat>, w: nat, j: nat): nat
  {
    if j == 0 then 0 else Offset(lengths, w, j - 1) + Count(lengths, w + j, |lengths|)
  }

  lemma {:induction false} OffsetGrows(lengths: seq<nat>, w: nat, i: nat, j: nat)
    requires i <= j
    ensures Offset(lengths, w, i) <= Offset(lengths, w, j)
  {
    if i < j {
      OffsetGrows(lengths, w, i, j - 1);
    }
  }

  /** No more than there are symbols. */
  lemma {:induction false} OffsetFits(lengths: seq<nat>, w: nat, j: nat)
    ensures Offset(lengths, w, j) <= |lengths|
  {
    OffsetCounts(lengths, w, j, |lengths|);
  }

  function OffsetTo(lengths: seq<nat>, w: nat, j: nat, n: nat): nat
    requires n <= |lengths|
  {
    if j == 0 then 0 else OffsetTo(lengths, w, j - 1, n) + Count(lengths, w + j, n)
  }

  lemma {:induction false} OffsetCounts(lengths: seq<nat>, w: nat, j: nat, n: nat)
    requires n <= |lengths|
    ensures OffsetTo(lengths, w, j, n) <= n && OffsetTo(lengths, w, j, |lengths|) == Offset(lengths, w, j)
  {
    if n == 0 {
      OffsetNone(lengths, w, j);
    } else {
      OffsetCounts(lengths, w, j, n - 1);
      OffsetStep(lengths, w, j, n);
    }
    OffsetWhole(lengths, w, j);
  }

  lemma {:induction false} OffsetNone(lengths: seq<nat>, w: nat, j: nat)
    ensures OffsetTo(lengths, w, j, 0) == 0
  {
    if j > 0 {
      OffsetNone(lengths, w, j - 1);
    }
  }

  lemma {:induction false} OffsetWhole(lengths: seq<nat>, w: nat, j: nat)
    ensures OffsetTo(lengths, w, j, |lengths|) == Offset(lengths, w, j)
  {
    if j > 0 {
      OffsetWhole(lengths, w, j - 1);
    }
  }

  lemma {:induction false} OffsetStep(lengths: seq<nat>, w: nat, j: nat, n: nat)
    requires 0 < n <= |lengths|
    ensures OffsetTo(lengths, w, j, n) == OffsetTo(lengths, w, j, n - 1) + if w < lengths[n - 1] <= w + j then 1 else 0
  {
    if j > 0 {
      OffsetStep(lengths, w, j - 1, n);
    }
  }

  /** Where a symbol with a long codeword is listed. */
  function Slot(lengths: seq<nat>, w: nat, s: nat): nat
    requires s < |lengths| && lengths[s] > w
  {
    Offset(lengths, w, lengths[s] - w - 1) + Count(lengths, lengths[s], s)
  }

  lemma {:induction false} SlotWithin(lengths: seq<nat>, w: nat, s: nat)
    requires s < |lengths| && lengths[s] > w
    ensures Offset(lengths, w, lengths[s] - w - 1) <= Slot(lengths, w, s) < Offset(lengths, w, lengths[s] - w) <= |lengths|
  {
    CountGrows(lengths, lengths[s], s + 1, |lengths|);
    OffsetFits(lengths, w, lengths[s] - w);
  }

  lemma {:induction false} SlotsApart(lengths: seq<nat>, w: nat, s: nat, t: nat)
    requires s < |lengths| && t < |lengths| && s != t && lengths[s] > w && lengths[t] > w
    ensures Slot(lengths, w, s) != Slot(lengths, w, t)
  {
    SlotWithin(lengths, w, s);
    SlotWithin(lengths, w, t);
    if lengths[s] < lengths[t] {
      OffsetGrows(lengths, w, lengths[s] - w, lengths[t] - w - 1);
    } else if lengths[t] < lengths[s] {
      OffsetGrows(lengths, w, lengths[t] - w, lengths[s] - w - 1);
    } else if s < t {
      CountGrows(lengths, lengths[s], s + 1, t);
    } else {
      CountGrows(lengths, lengths[s], t + 1, s);
    }
  }

  /** sym | code << 9 */
  function Listed(sym: nat, code: nat): nat
  {
    sym + 512 * code
  }

  ghost predicate ListUpTo(lengths: seq<nat>, w: nat, list: seq<nat>, n: nat)
    requires n <= |lengths| <= |list|
  {
    forall s :: 0 <= s < n && lengths[s] > w ==>
      Slot(lengths, w, s) < |list| && list[Slot(lengths, w, s)] == Listed(s, Codeword(lengths, s))
  }

  lemma {:induction false} ListPut(lengths: seq<nat>, w: nat, list: seq<nat>, sym: nat)
    requires sym < |lengths| <= |list| && ListUpTo(lengths, w, list, sym) && lengths[sym] > w
    ensures Slot(lengths, w, sym) < |list|
    ensures ListUpTo(lengths, w, list[Slot(lengths, w, sym) := Listed(sym, Codeword(lengths, sym))], sym + 1)
  {
    SlotWithin(lengths, w, sym);
    forall s | 0 <= s < sym && lengths[s] > w ensures Slot(lengths, w, s) != Slot(lengths, w, sym) {
      SlotsApart(lengths, w, s, sym);
    }
  }

  ghost predicate OffsetsOk(lengths: seq<nat>, w: nat, offsets: seq<nat>)
  {
    forall j :: 0 <= j < |offsets| ==> offsets[j] == Offset(lengths, w, j)
  }

  /** lines 91-96 */
  method SumOffsets(lengths: seq<nat>, w: nat, counts: array<nat>, offsets: array<nat>)
    requires offsets.Length == counts.Length + 1 && offsets != counts && CountsUpTo(lengths, w, counts[..], |lengths|)
    modifies offsets, counts
    ensures OffsetsOk(lengths, w, offsets[..]) && CountsUpTo(lengths, w, counts[..], 0)
  {
    var off := 0;
    for j := 0 to counts.Length
      invariant off == Offset(lengths, w, j) && OffsetsOk(lengths, w, offsets[..j])
      invariant CountsUpTo(lengths, w, counts[..j], 0)
      invariant forall i :: j <= i < counts.Length ==> counts[i] == Count(lengths, w + 1 + i, |lengths|)
    {
      offsets[j] := off;
      off := off + counts[j];
      counts[j] := 0;
    }
    offsets[counts.Length] := off;
  }

  /** lines 101-106 for a symbol whose codeword is long; the assertion of line 105 holds. */
  method ListOne(lengths: seq<nat>, code: nat, w: nat, sym: nat, counts: array<nat>, offsets: array<nat>,
                 list: array<nat>)
    requires sym < |lengths| <= list.Length && w < lengths[sym] <= w + counts.Length && code == Codeword(lengths, sym)
    requires offsets.Length == counts.Length + 1 && counts != list && offsets != list && offsets != counts
    requires OffsetsOk(lengths, w, offsets[..]) && CountsUpTo(lengths, w, counts[..], sym)
    requires ListUpTo(lengths, w, list[..], sym)
    modifies counts, list
    ensures ListUpTo(lengths, w, list[..], sym + 1) && CountsUpTo(lengths, w, counts[..], sym + 1)
  {
    var j := lengths[sym] - w - 1;
    var idx := counts[j] + offsets[j];
    assert idx == Slot(lengths, w, sym);
    SlotWithin(lengths, w, sym);
    assert idx < offsets[j + 1];
    ListPut(lengths, w, list[..], sym);
    CountedOne(lengths, w, counts[..], counts[..][j := counts[j] + 1], sym);
    counts[j] := counts[j] + 1;
    list[idx] := Listed(sym, code);
  }

  lemma {:induction false} CountedNone(lengths: seq<nat>, w: nat, counts: seq<nat>, list: seq<nat>, sym: nat)
    requires sym < |lengths| <= |list| && lengths[sym] <= w && CountsUpTo(lengths, w, counts, sym)
    requires ListUpTo(lengths, w, list, sym)
    ensures CountsUpTo(lengths, w, counts, sym + 1) && ListUpTo(lengths, w, list, sym + 1)
  {
  }

  /** lines 100-110; the assertion of line 109 holds. */
  method ListLong(lengths: seq<nat>, codes: seq<nat>, w: nat, top: nat, counts: array<nat>, offsets: array<nat>,
                  list: array<nat>)
    requires GoodLengths(lengths, top) && AllCodes(lengths, codes) && w <= top && |lengths| <= list.Length
    requires counts.Length == top - w && offsets.Length == counts.Length + 1 && counts != list && offsets != list
    requires offsets != counts
    requires OffsetsOk(lengths, w, offsets[..]) && CountsUpTo(lengths, w, counts[..], 0)
    modifies counts, list
    ensures ListUpTo(lengths, w, list[..], |lengths|) && OffsetsOk(lengths, w, offsets[..])
    ensures forall j :: 0 <= j < counts.Length ==> offsets[j] + counts[j] == offsets[j + 1]
  {
    for sym := 0 to |lengths|
      invariant ListUpTo(lengths, w, list[..], sym) && CountsUpTo(lengths, w, counts[..], sym)
      invariant offsets[..] == old(offsets[..])
    {
      if lengths[sym] > w {
        ListOne(lengths, codes[sym], w, sym, counts, offsets, list);
      } else {
        CountedNone(lengths, w, counts[..], list[..], sym);
      }
    }
    SegmentsFull(lengths, w, offsets[..], counts[..]);
  }

  lemma {:induction false} SegmentsFull(lengths: seq<nat>, w: nat, offsets: seq<nat>, counts: seq<nat>)
    requires |offsets| == |counts| + 1 && OffsetsOk(lengths, w, offsets) && CountsUpTo(lengths, w, counts, |lengths|)
    ensures forall j :: 0 <= j < |counts| ==> offsets[j] + counts[j] == offsets[j + 1]
  {
    forall j | 0 <= j < |counts| ensures offsets[j] + counts[j] == offsets[j + 1] {
      assert offsets[j + 1] == Offset(lengths, w, j + 1);
    }
  }

  /** What the decoder keeps of a code. */
  ghost predicate Built(lengths: seq<nat>, w: nat, top: nat, table: seq<nat>, offsets: seq<nat>, list: seq<nat>)
  {
    && w <= top && TableUpTo(lengths, w, table, |lengths|) && |offsets| == top - w + 1 && OffsetsOk(lengths, w, offsets)
    && |lengths| <= |list| && ListUpTo(lengths, w, list, |lengths|)
  }

  /** construct_dectable */
  method ConstructDectable(lengths: seq<nat>, codes: seq<nat>, w: nat, top: nat, table: array<nat>, offsets: array<nat>,
                           list: array<nat>)
    requires GoodLengths(lengths, top) && Kraft(lengths, top) <= Pow2(top) && AllCodes(lengths, codes) && w <= top
    requires table.Length == Pow2(w) && offsets.Length == top - w + 1 && |lengths| <= list.Length
    requires table != offsets && table != list && offsets != list
    modifies table, offsets, list
    ensures Built(lengths, w, top, table[..], offsets[..], list[..])
  {
    var counts := new nat[top - w](_ => 0);
    for i := 0 to table.Length
      invariant CountsUpTo(lengths, w, counts[..], 0) && forall j :: 0 <= j < i ==> table[j] == FILLER
    {
      table[i] := FILLER;
    }
    EnterAll(lengths, codes, w, top, table, counts);
    SumOffsets(lengths, w, counts, offsets);
    ListLong(lengths, codes, w, top, counts, offsets, list);
  }

  // ---- looking up ----------------------------------------------------------

  /** Beyond stands for a read beyond the offsets. */
  datatype Lookup = Found(sym: nat, len: nat) | NeedMore | Beyond

  /** What is in a list between the offsets of a length. */
  lemma {:induction false} InSegment(lengths: seq<nat>, w: nat, list: seq<nat>, len: nat, i: nat) returns (t: nat)
    requires |lengths| <= |list| && ListUpTo(lengths, w, list, |lengths|) && w < len
    requires Offset(lengths, w, len - w - 1) <= i < Offset(lengths, w, len - w)
    ensures t < |lengths| && lengths[t] == len && i < |list| && list[i] == Listed(t, Codeword(lengths, t))
  {
    t := RankExists(lengths, len, |lengths|, i - Offset(lengths, w, len - w - 1));
    assert Slot(lengths, w, t) == i;
  }

  lemma {:induction false} ListedParts(sym: nat, code: nat)
    requires sym < 512
    ensures Listed(sym, code) % 512 == sym && Listed(sym, code) / 512 == code
  {
  }

  /** lines 437-444: the codewords of one length. */
  method SearchLength(ghost lengths: seq<nat>, ghost w: nat, list: seq<nat>, from: nat, to: nat, len: nat, x: nat)
    returns (found: bool, sym: nat)
    requires |lengths| <= 512 && |lengths| <= |list| && ListUpTo(lengths, w, list, |lengths|) && w < len
    requires from == Offset(lengths, w, len - w - 1) && to == Offset(lengths, w, len - w)
    ensures found ==> Begins(lengths, x, sym) && lengths[sym] == len
    ensures !found ==> forall t: nat :: Begins(lengths, x, t) ==> lengths[t] != len
  {
    var suffix := Low(x, len);
    found, sym := false, 0;
    OffsetGrows(lengths, w, len - w - 1, len - w);
    for i := from to to
      invariant forall t: nat :: Begins(lengths, x, t) && lengths[t] == len ==> i <= Slot(lengths, w, t)
    {
      ghost var t := InSegment(lengths, w, list, len, i);
      ListedParts(t, Codeword(lengths, t));
      if list[i] / 512 == suffix {
        return true, list[i] % 512;
      }
      forall t': nat | Begins(lengths, x, t') && lengths[t'] == len ensures i != Slot(lengths, w, t') {
        if i == Slot(lengths, w, t') {
          assert list[i] == Listed(t', Codeword(lengths, t'));
          ListedParts(t', Codeword(lengths, t'));
        }
      }
    }
    forall t: nat | Begins(lengths, x, t) ensures lengths[t] != len {
      if lengths[t] == len {
        SlotWithin(lengths, w, t);
      }
    }
  }

  /** The bit string x can go on to be a codeword that is too long for the table. */
  ghost predicate LongPrefix(lengths: seq<nat>, w: nat, x: nat)
  {
    exists s :: 0 <= s < |lengths| && lengths[s] > w && Low(Codeword(lengths, s), w) == Low(x, w)
  }

  ghost predicate NoneShorter(lengths: seq<nat>, x: nat, len: nat)
  {
    forall t: nat :: Begins(lengths, x, t) ==> lengths[t] >= len
  }

  /** x begins with a codeword that fits the table exactly if its first bits do. */
  lemma {:induction false} ClaimOf(lengths: seq<nat>, w: nat, x: nat, s: nat)
    ensures Claims(lengths, w, Low(x, w), s) <==>
            (Begins(lengths, x, s) && lengths[s] <= w) || (s < |lengths| && lengths[s] > w && Low(Codeword(lengths, s), w) == Low(x, w))
    ensures Begins(lengths, x, s) ==> Claims(lengths, w, Low(x, w), s)
  {
    if s < |lengths| {
      if lengths[s] <= w {
        LowLow(x, lengths[s], w);
      } else {
        LowLow(x, w, lengths[s]);
      }
    }
  }

  /** What the table says about a bit string: to search, a symbol, or nothing that means anything. */
  lemma {:induction false} TableSays(lengths: seq<nat>, w: nat, table: seq<nat>, x: nat) returns (s: nat)
    requires TableUpTo(lengths, w, table, |lengths|) && FILLER <= w < 15
    ensures Low(x, w) < |table|
    ensures table[Low(x, w)] % 16 > w <==> LongPrefix(lengths, w, x)
    ensures LongPrefix(lengths, w, x) ==> NoneShorter(lengths, x, w + 1)
    ensures !LongPrefix(lengths, w, x) && Assigned(lengths, x) ==> Begins(lengths, x, s)
    ensures !LongPrefix(lengths, w, x) && Assigned(lengths, x) ==> table[Low(x, w)] % 16 == lengths[s]
    ensures !LongPrefix(lengths, w, x) && Assigned(lengths, x) ==> table[Low(x, w)] / 16 == s
    ensures !Assigned(lengths, x) && !LongPrefix(lengths, w, x) ==> table[Low(x, w)] == FILLER
  {
    var idx := Low(x, w);
    s := 0;
    if Unclaimed(lengths, w, idx, |lengths|) {
      OneKind(lengths, w, table, idx, x);
      forall t: nat ensures !Begins(lengths, x, t) {
        ClaimOf(lengths, w, x, t);
      }
    } else {
      s :| 0 <= s < |lengths| && Claims(lengths, w, idx, s);
      ClaimOf(lengths, w, x, s);
      assert EntryFor(lengths, w, idx, table[idx], s);
      if lengths[s] <= w {
        EntryParts(lengths[s], s);
        assert !LongPrefix(lengths, w, x) by { OneKind(lengths, w, table, idx, x); }
      } else {
        forall t: nat | Begins(lengths, x, t) ensures lengths[t] > w {
          ClaimOf(lengths, w, x, t);
          assert EntryFor(lengths, w, idx, table[idx], t);
          if lengths[t] <= w {
            EntryParts(lengths[t], t);
          }
        }
      }
    }
  }

  /** An entry cannot be both. */
  lemma {:induction false} OneKind(lengths: seq<nat>, w: nat, table: seq<nat>, idx: nat, x: nat)
    requires EntriesUpTo(lengths, w, table, |lengths|) && idx == Low(x, w) < |table| && table[idx] % 16 <= w < 15
    ensures !LongPrefix(lengths, w, x)
  {
    forall t | 0 <= t < |lengths| && lengths[t] > w ensures Low(Codeword(lengths, t), w) != idx {
      assert EntryFor(lengths, w, idx, table[idx], t);
    }
  }

  /**
   lines 431-446: the codewords that are too long for the table. The test of line 445 never
   holds, so without a codeword the search goes on until it leaves the offsets.
   */
  method SearchLong(ghost lengths: seq<nat>, w: nat, top: nat, offsets: seq<nat>, list: seq<nat>, x: nat, numBits: nat)
    returns (res: Lookup, ghost s: nat)
    requires |lengths| <= 512 && |lengths| <= |list| && ListUpTo(lengths, w, list, |lengths|)
    requires NoneShorter(lengths, x, w + 1)
    requires w <= top && |offsets| == top - w + 1 && OffsetsOk(lengths, w, offsets)
    requires GoodLengths(lengths, top) && Kraft(lengths, top) <= Pow2(top)
    ensures Assigned(lengths, x) ==> Begins(lengths, x, s)
    ensures Assigned(lengths, x) ==> res == if lengths[s] <= numBits then Found(s, lengths[s]) else NeedMore
    ensures !Assigned(lengths, x) ==> res == if numBits <= top then NeedMore else Beyond
  {
    s := 0;
    if Assigned(lengths, x) {
      s :| Begins(lengths, x, s);
    }
    var len := w + 1;
    while true
      invariant w < len <= top + 1 && NoneShorter(lengths, x, len)
      decreases top + 1 - len
    {
      if len > numBits {
        return NeedMore, s;
      }
      if len - w >= |offsets| {
        return Beyond, s;
      }
      var found, sym := SearchLength(lengths, w, list, offsets[len - w - 1], offsets[len - w], len, x);
      if found {
        BeginsUnique(lengths, top, x, s, sym);
        return Found(sym, len), s;
      }
      len := len + 1;
    }
  }

  /**
   lines 428-453 and, for distances, 478-503. x is the register, of which numBits bits are
   there and the others zero. If a codeword begins x, its symbol is found, or more bits are
   asked for if they are not all there. If none does, more bits are asked for as long as
   possible; then the search leaves the offsets, or the filler is taken for a symbol.
   */
  method LookUp(ghost lengths: seq<nat>, w: nat, ghost top: nat, table: seq<nat>, offsets: seq<nat>, list: seq<nat>,
                x: nat, numBits: nat)
    returns (res: Lookup, ghost s: nat)
    requires GoodLengths(lengths, top) && Kraft(lengths, top) <= Pow2(top)
    requires Built(lengths, w, top, table, offsets, list)
    requires FILLER <= w < 15 && |lengths| <= 512
    ensures Assigned(lengths, x) <==> Rev(x, top) < Kraft(lengths, top)
    ensures Assigned(lengths, x) ==> Begins(lengths, x, s)
    ensures Assigned(lengths, x) ==> res == if lengths[s] <= numBits then Found(s, lengths[s]) else NeedMore
    ensures !Assigned(lengths, x) && LongPrefix(lengths, w, x) ==> res == if numBits <= top then NeedMore else Beyond
    ensures !Assigned(lengths, x) && !LongPrefix(lengths, w, x) ==>
      res == if numBits < FILLER then NeedMore else Found(0, FILLER)
  {
    AssignedWhere(lengths, top, x);
    s := TableSays(lengths, w, table, x);
    var val := table[Low(x, w)];
    var len := val % 16;
    if len > w {
      res, s := SearchLong(lengths, w, w + |offsets| - 1, offsets, list, x, numBits);
    } else if len > numBits {
      res := NeedMore;
    } else {
      res := Found(val / 16, len);
    }
  }

  // ---- codes that are not complete -----------------------------------------

  lemma {:induction false} NoneBefore(lengths: seq<nat>, n: nat, top: nat, len: Pos)
    requires lengths == [n] && len <= n <= top
    ensures FirstCode(lengths, len) == 0 && Used(lengths, top, len) == 0
  {
    if len > 1 {
      NoneBefore(lengths, n, top, len - 1);
      assert Count(lengths, len - 1, 1) == 0;
      ShlIsMul(0, top + 1 - len);
    }
  }

  lemma {:induction false} OneFrom(lengths: seq<nat>, n: Pos, top: nat, len: Pos)
    requires lengths == [n] && n < len <= top + 1
    ensures Used(lengths, top, len) == Pow2(top - n)
  {
    if len == n + 1 {
      NoneBefore(lengths, n, top, n);
      assert Count(lengths, n, 1) == 1;
      ShlPow2(0, top - n);
    } else {
      OneFrom(lengths, n, top, len - 1);
      assert Count(lengths, len - 1, 1) == 0;
      ShlIsMul(0, top + 1 - len);
    }
  }

  lemma {:induction false} RevZero(n: nat)
    ensures Rev(0, n) == 0
  {
    if n > 0 {
      RevZero(n - 1);
    }
  }

  /** A code of one codeword, which construct_codes accepts: it is all zeros. */
  lemma {:induction false} OneCodeword(lengths: seq<nat>, n: Pos, top: nat)
    requires lengths == [n] && n <= top
    ensures GoodLengths(lengths, top) && Kraft(lengths, top) <= Pow2(top) && Codeword(lengths, 0) == 0
  {
    NoneBefore(lengths, n, top, n);
    OneFrom(lengths, n, top, top + 1);
    Pow2Monotone(top - n, top);
    RevZero(n);
  }

  /**
   With one codeword of twelve bits, a register in which the twelfth bit is set makes the search
   leave the offsets.
   */
  lemma {:induction false} SearchGoesBeyond(lengths: seq<nat>, n: Pos, w: nat, x: nat)
    requires lengths == [n] && n == w + 1 && x == Pow2(w)
    ensures !Assigned(lengths, x) && LongPrefix(lengths, w, x)
  {
    OneCodeword(lengths, n, n);
    ShrIsDiv(x, w);
    LowSmall(x, n);
    ShrIsDiv(0, w);
    assert Low(Codeword(lengths, 0), w) == Low(x, w);
  }

  /** One in which the first bit is set makes it take the filler for a symbol. */
  lemma {:induction false} FillerIsTaken(lengths: seq<nat>, n: Pos, w: Pos)
    requires lengths == [n] && n == w + 1
    ensures !Assigned(lengths, 1) && !LongPrefix(lengths, w, 1)
  {
    OneCodeword(lengths, n, n);
    Pow2Monotone(1, w);
    assert Pow2(1) == 2;
    LowSmall(1, w);
    LowSmall(1, n);
    ShrIsDiv(0, w);
  }
}
