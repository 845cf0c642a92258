/**
 compression/zstd_sequences.c and compression/zstd.c: repeat offsets (section 3.1.1.5 of RFC 8878)
 and sequences packed into a 64-bit word.
 */
module ZstdPack {
  import opened Basics

  /** A sequence: copy literals, then a match of the given length and distance. */
  datatype Sequence = Sequence(copy: nat, length: Pos, dist: Pos)

  /** compression/zstd.c lines 208-209 */
  function Unpack(s: nat): (r: Sequence)
    ensures 3 <= r.length
  {
    Sequence(s % 0x20000, s / 0x20000 % 0x20000 + 3, s / 0x4_0000_0000 + 1)
  }

  function UnpackAll(packed: seq<nat>): (r: seq<Sequence>)
    ensures |r| == |packed| && forall i :: 0 <= i < |r| ==> r[i] == Unpack(packed[i])
  {
    seq(|packed|, i requires 0 <= i < |packed| => Unpack(packed[i]))
  }

  lemma {:induction false} UnpackAllStep(packed: seq<nat>, i: nat)
    requires i < |packed|
    ensures UnpackAll(packed[i..]) == [Unpack(packed[i])] + UnpackAll(packed[i + 1..])
  {
  }

  lemma {:induction false} UnpackAllAppend(packed: seq<nat>, x: nat)
    ensures UnpackAll(packed + [x]) == UnpackAll(packed) + [Unpack(x)]
  {
  }

  /** compression/zstd_sequences.c line 123 */
  function Packed(copy: nat, length: nat, dist: Pos): nat
  {
    copy + 0x20000 * length + 0x4_0000_0000 * (dist - 1)
  }

  /** Unpacking undoes packing, and the three fields fit the word. */
  lemma {:induction false} PackRoundTrip(copy: nat, length: nat, dist: Pos)
    requires copy < 0x20000 && length < 0x20000 && dist <= 0x4000_0000
    ensures Unpack(Packed(copy, length, dist)) == Sequence(copy, length + 3, dist)
    ensures Packed(copy, length, dist) < 0x1_0000_0000_0000_0000
  {
    var low := copy + 0x20000 * length;
    DivModUnique(Packed(copy, length, dist), dist - 1, low, 0x4_0000_0000);
    DivModUnique(Packed(copy, length, dist), length + 0x20000 * (dist - 1), copy, 0x20000);
    DivModUnique(length + 0x20000 * (dist - 1), dist - 1, length, 0x20000);
  }

  // ---- repeat offsets ------------------------------------------------------

  /** The three last offsets, latest first; 2^30 bounds what the packed form can hold. */
  ghost predicate GoodHistory(h: seq<nat>)
  {
    |h| == 3 && forall i :: 0 <= i < 3 ==> 0 < h[i] < 0x4000_0000
  }

  datatype Resolved = Resolved(offset: nat, history: seq<nat>)

  /**
   What an offset value means: beyond 3 a new offset, else a recent one, which moves to the
   front. Without literals the recent ones count from the second, and the last choice is the
   latest offset less one.
   */
  function Resolve(h: seq<nat>, value: Pos, copy: nat): Resolved
    requires |h| == 3 && h[0] > 0
  {
    if value > 3 then Resolved(value - 3, [value - 3, h[0], h[1]])
    else
      var i := value - 1 + if copy == 0 then 1 else 0;
      if i == 3 then Resolved(h[0] - 1, [h[0] - 1, h[0], h[1]])
      else Resolved(h[i], [h[i]] + h[..i] + h[i + 1..])
  }

  lemma {:induction false} ResolveKeeps(h: seq<nat>, value: Pos, copy: nat)
    requires GoodHistory(h) && value < 0x4000_0000
    ensures var r := Resolve(h, value, copy);
            && (r.offset == 0 <==> copy == 0 && value == 3 && h[0] == 1)
            && r.history[0] == r.offset && (r.offset > 0 ==> GoodHistory(r.history))
  {
  }

  /** Without literals the recent offsets count from the second. */
  function Chosen(value: Pos, copy: nat): nat
  {
    if copy > 0 then value - 1 else value
  }

  /** The value says an offset that is none of the recent ones: a new one, or the latest less one. */
  predicate IsFresh(value: Pos, copy: nat)
  {
    value > 3 || (value == 3 && copy == 0)
  }

  /** A fresh offset comes before the two latest. */
  lemma {:induction false} FreshOffset(h: seq<nat>, value: Pos, copy: nat)
    requires GoodHistory(h) && IsFresh(value, copy)
    ensures var r := Resolve(h, value, copy);
            && r.offset + (if value > 3 then 3 else 1) == (if value > 3 then value else h[0])
            && r.history == [r.offset] + h[..2]
  {
  }

  /** A recent offset is the one chosen; it moves to the front, and the others keep their order. */
  lemma {:induction false} RecentOffset(h: seq<nat>, value: Pos, copy: nat)
    requires GoodHistory(h) && !IsFresh(value, copy)
    ensures Chosen(value, copy) < 3
    ensures var r, i := Resolve(h, value, copy), Chosen(value, copy);
            && r.offset == h[i] && |r.history| == 3 && r.history[0] == h[i]
            && multiset(r.history) == multiset(h) && r.history[1..] == h[..i] + h[i + 1..]
  {
    var i := Chosen(value, copy);
    assert h == h[..i] + [h[i]] + h[i + 1..];
    assert Resolve(h, value, copy).history == [h[i]] + (h[..i] + h[i + 1..]);
  }

  // ---- over a run ----------------------------------------------------------

  /** An offset value and the number of literals it comes with. */
  datatype Use = Use(value: Pos, copy: nat)

  /** The offsets that a run of values means, and the history at its end; none are found if one is zero. */
  datatype Meant = NoOffsets | Meant(offsets: seq<nat>, history: seq<nat>)

  function MeantBy(h: seq<nat>, uses: seq<Use>): Meant
    requires |h| == 3 && h[0] > 0
    decreases |uses|
  {
    if uses == [] then Meant([], h)
    else
      var r := Resolve(h, uses[0].value, uses[0].copy);
      if r.offset == 0 then NoOffsets
      else
        match MeantBy(r.history, uses[1..])
        case NoOffsets => NoOffsets
        case Meant(offsets, history) => Meant([r.offset] + offsets, history)
  }

  function Latest(offsets: seq<nat>): seq<nat>
  {
    if offsets == [] then [] else Latest(offsets[1..]) + [offsets[0]]
  }

  lemma {:induction false} LatestSize(offsets: seq<nat>)
    ensures |Latest(offsets)| == |offsets|
  {
    if offsets != [] {
      LatestSize(offsets[1..]);
    }
  }

  /** Over a run of fresh offsets the history is the latest three of them and of those before, latest first. */
  lemma {:induction false} FreshRun(h: seq<nat>, uses: seq<Use>)
    requires GoodHistory(h)
    requires forall i :: 0 <= i < |uses| ==> IsFresh(uses[i].value, uses[i].copy) && uses[i].value < 0x4000_0000
    ensures var m := MeantBy(h, uses);
            m.Meant? ==> |m.offsets| == |uses| && m.history == (Latest(m.offsets) + h)[..3]
    decreases |uses|
  {
    if uses == [] {
      assert Latest([]) + h == h;
    } else {
      var r := Resolve(h, uses[0].value, uses[0].copy);
      ResolveKeeps(h, uses[0].value, uses[0].copy);
      FreshOffset(h, uses[0].value, uses[0].copy);
      if r.offset > 0 {
        FreshRun(r.history, uses[1..]);
        var m := MeantBy(r.history, uses[1..]);
        if m.Meant? {
          var later := Latest(m.offsets);
          LatestSize(m.offsets);
          assert ([r.offset] + m.offsets)[1..] == m.offsets;
          assert (later + [r.offset] + h)[..3] == (later + ([r.offset] + h[..2]))[..3];
        }
      }
    }
  }

  /**
   Over any run the last offset is the first of the history, and every offset in it was there
   before or has been used.
   */
  lemma {:induction false} RunHistory(h: seq<nat>, uses: seq<Use>)
    requires GoodHistory(h) && forall i :: 0 <= i < |uses| ==> uses[i].value < 0x4000_0000
    ensures var m := MeantBy(h, uses);
            m.Meant? ==>
              && |m.offsets| == |uses| && |m.history| == 3 && (uses != [] ==> m.history[0] == m.offsets[|uses| - 1])
              && forall i :: 0 <= i < 3 ==> m.history[i] in h || m.history[i] in m.offsets
    decreases |uses|
  {
    if uses != [] {
      var r := Resolve(h, uses[0].value, uses[0].copy);
      ResolveKeeps(h, uses[0].value, uses[0].copy);
      if r.offset > 0 {
        RunHistory(r.history, uses[1..]);
        if uses[1..] == [] {
          assert MeantBy(r.history, []) == Meant([], r.history);
        }
        forall i | 0 <= i < 3
          ensures r.history[i] in h || r.history[i] == r.offset
        {
          OneHistory(h, uses[0].value, uses[0].copy, i);
        }
      }
    }
  }

  lemma {:induction false} OneHistory(h: seq<nat>, value: Pos, copy: nat, i: nat)
    requires GoodHistory(h) && i < 3
    ensures var r := Resolve(h, value, copy);
            |r.history| == 3 && (r.history[i] in h || r.history[i] == r.offset)
  {
    if IsFresh(value, copy) {
      FreshOffset(h, value, copy);
    } else {
      RecentOffset(h, value, copy);
      var r := Resolve(h, value, copy);
      assert r.history[i] in multiset(r.history);
    }
  }

  /** With the history 1, 4, 8: a new offset of 10, then the second latest. */
  lemma {:induction false} PushedDown()
    ensures MeantBy([1, 4, 8], [Use(13, 5), Use(2, 5)]) == Meant([10, 1], [1, 10, 4])
  {
    assert [Use(13, 5), Use(2, 5)][1..] == [Use(2, 5)] && [Use(2, 5)][1..] == [];
    assert Resolve([1, 4, 8], 13, 5) == Resolved(10, [10, 1, 4]);
    assert Resolve([10, 1, 4], 2, 5) == Resolved(1, [1, 10, 4]);
    assert MeantBy([1, 10, 4], []) == Meant([], [1, 10, 4]);
    assert MeantBy([10, 1, 4], [Use(2, 5)]) == Meant([1], [1, 10, 4]);
  }
}
