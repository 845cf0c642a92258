/**
 compression/zstd.c, xxh64_update: hashing a string that comes in pieces.

 mix stands for the four rounds that take up a block of 32 bytes.
 */
module Xxh {
  import opened Basics

  const BLOCK := 32

  type Lanes = seq<nat>
  type Mix = (Lanes, seq<Byte>) -> Lanes

  /** The lanes after n whole blocks of s. */
  function Mixed(mix: Mix, init: Lanes, s: seq<Byte>, n: nat): Lanes
    requires BLOCK * n <= |s|
  {
    if n == 0 then init else mix(Mixed(mix, init, s, n - 1), s[BLOCK * (n - 1)..BLOCK * n])
  }

  /** What has been mixed does not depend on what follows. */
  lemma {:induction false} MixedPrefix(mix: Mix, init: Lanes, s: seq<Byte>, t: seq<Byte>, n: nat)
    requires BLOCK * n <= |s| <= |t| && s == t[..|s|]
    ensures Mixed(mix, init, s, n) == Mixed(mix, init, t, n)
  {
    if n > 0 {
      MixedPrefix(mix, init, s, t, n - 1);
      assert s[BLOCK * (n - 1)..BLOCK * n] == t[BLOCK * (n - 1)..BLOCK * n];
    }
  }

  lemma {:induction false} TailOf(s: seq<Byte>, data: seq<Byte>, i: nat)
    requires i <= |data|
    ensures (s + data)[|s + data| - (|data| - i)..] == data[i..]
  {
  }

  /** struct xxh64_state */
  class State {
    var lanes: Lanes
    var offset: nat
    var len: nat
    var longHash: bool
    const buf: array<Byte>
    ghost const init: Lanes

    constructor (start: Lanes)
      ensures fresh(buf) && init == start && forall mix: Mix :: Hashed(mix, [])
    {
      lanes, offset, len, longHash, init := start, 0, 0, false, start;
      buf := new Byte[BLOCK](_ => 0);
    }

    /** The state is that of the string s: its whole blocks have been mixed, the rest is in the buffer. */
    ghost predicate Hashed(mix: Mix, s: seq<Byte>)
      reads this, buf
    {
      && buf.Length == BLOCK && len == |s| && offset == |s| % BLOCK && longHash == (|s| >= BLOCK)
      && lanes == Mixed(mix, init, s, |s| / BLOCK) && buf[..offset] == s[|s| - offset..]
    }

    /** memcpy */
    method Fill(at: nat, data: seq<Byte>)
      requires at + |data| <= buf.Length
      modifies buf
      ensures buf[..at + |data|] == old(buf[..at]) + data
    {
      for i := 0 to |data|
        invariant buf[..at + i] == old(buf[..at]) + data[..i]
      {
        buf[at + i] := data[i];
        assert buf[..at + i + 1] == buf[..at + i] + [data[i]];
      }
    }

    /** lines 408-417: the block that the data completes. */
    method MixFirst(mix: Mix, data: seq<Byte>, ghost s: seq<Byte>, ghost t: seq<Byte>) returns (fillup: nat)
      requires Hashed(mix, s) && offset + |data| >= BLOCK && t == s + data
      modifies this`lanes, this`longHash, buf
      ensures longHash && fillup <= |data| && |s| + fillup == BLOCK * (|s| / BLOCK + 1)
      ensures lanes == Mixed(mix, init, t, |s| / BLOCK + 1)
    {
      ghost var q := |s| / BLOCK;
      fillup := BLOCK - offset;
      MixedPrefix(mix, init, s, t, q);
      Fill(offset, data[..fillup]);
      assert buf[..] == buf[..BLOCK] == t[BLOCK * q..BLOCK * (q + 1)];
      lanes := mix(lanes, buf[..]);
      longHash := true;
    }

    /** lines 418-438: the whole blocks of the data. */
    method MixWhole(mix: Mix, data: seq<Byte>, i0: nat, ghost m: nat, ghost n0: nat, ghost t: seq<Byte>)
      returns (i: nat, ghost n: nat)
      requires i0 <= |data| && m + i0 == BLOCK * n0 && |t| == m + |data| && t[m..] == data
      requires lanes == Mixed(mix, init, t, n0)
      modifies this`lanes
      ensures i <= |data| < i + BLOCK && m + i == BLOCK * n && BLOCK * n <= |t| && lanes == Mixed(mix, init, t, n)
    {
      i, n := i0, n0;
      while |data| - i >= BLOCK
        invariant i <= |data| && m + i == BLOCK * n && lanes == Mixed(mix, init, t, n)
      {
        assert data[i..i + BLOCK] == t[m..][i..i + BLOCK] == t[BLOCK * n..BLOCK * (n + 1)];
        lanes := mix(lanes, data[i..i + BLOCK]);
        i, n := i + BLOCK, n + 1;
      }
    }

    /** lines 408-440: and the rest into the buffer. */
    method MixAll(mix: Mix, data: seq<Byte>, ghost s: seq<Byte>, ghost t: seq<Byte>)
      requires Hashed(mix, s) && offset + |data| >= BLOCK && t == s + data
      modifies this`lanes, this`offset, this`longHash, buf
      ensures longHash && offset == |t| % BLOCK
      ensures lanes == Mixed(mix, init, t, |t| / BLOCK) && buf[..offset] == t[|t| - offset..]
    {
      var i;
      ghost var n;
      i := MixFirst(mix, data, s, t);
      i, n := MixWhole(mix, data, i, |s|, |s| / BLOCK + 1, t);
      Fill(0, data[i..]);
      offset := |data| - i;
      DivModUnique(|t|, n, offset, BLOCK);
      TailOf(s, data, i);
    }

    /** xxh64_update: the state depends on what has been hashed in all, not on how it came. */
    method Update(mix: Mix, data: seq<Byte>, ghost s: seq<Byte>)
      requires Hashed(mix, s)
      modifies this, buf
      ensures Hashed(mix, s + data)
    {
      ghost var t := s + data;
      if |data| <= BLOCK && offset + |data| < BLOCK {
        ghost var q := |s| / BLOCK;
        MixedPrefix(mix, init, s, t, q);
        DivModUnique(|t|, q, offset + |data|, BLOCK);
        Fill(offset, data);
        offset := offset + |data|;
        assert buf[..offset] == t[|t| - offset..];
      } else {
        MixAll(mix, data, s, t);
      }
      len := len + |data|;
    }
  }

  /** Two states of the same string are the same as far as the hash goes. */
  lemma {:induction false} SameStringSameState(a: State, b: State, mix: Mix, s: seq<Byte>)
    requires a.Hashed(mix, s) && b.Hashed(mix, s) && a.init == b.init
    ensures a.lanes == b.lanes && a.offset == b.offset && a.len == b.len && a.longHash == b.longHash
    ensures a.buf[..a.offset] == b.buf[..b.offset]
  {
  }
}
