/**
 compression/inflate.c: what makes the code of construct_codes decodable. No codeword begins
 another one, and a complete code has a codeword at the beginning of every bit string.
 */
module CanonPrefix {
  import opened Basics
  import opened Bits
  import opened Canon

  ghost predicate Coded(lengths: seq<nat>, top: nat, s: nat)
  {
    s < |lengths| && 0 < lengths[s] <= top
  }

  /** The bit string x, first bit lowest, begins with the codeword of s. */
  ghost predicate Begins(lengths: seq<nat>, x: nat, s: nat)
  {
    s < |lengths| && lengths[s] > 0 && Low(x, lengths[s]) == Codeword(lengths, s)
  }

  /** Where in the numbers of top bits those begin that go to s. */
  function Start(lengths: seq<nat>, top: nat, s: nat): nat
    requires s < |lengths| && 0 < lengths[s] <= top
  {
    Shl(Canonical(lengths, s), top - lengths[s])
  }

  function End(lengths: seq<nat>, top: nat, s: nat): nat
    requires s < |lengths| && 0 < lengths[s] <= top
  {
    Start(lengths, top, s) + Pow2(top - lengths[s])
  }

  lemma {:induction false} StartEnd(lengths: seq<nat>, top: nat, s: nat)
    requires Coded(lengths, top, s)
    ensures Start(lengths, top, s) == UsedBefore(lengths, top, lengths[s], s)
    ensures End(lengths, top, s) == UsedBefore(lengths, top, lengths[s], s + 1) <= Kraft(lengths, top)
    ensures End(lengths, top, s) == Shl(Canonical(lengths, s) + 1, top - lengths[s])
  {
    var len := lengths[s];
    PointUsed(lengths, top, len, s);
    RestOfSymbols(lengths, top, len, s + 1);
    ShlAdd(Count(lengths, len, s), 1, top - len);
    ShlAdd(Canonical(lengths, s), 1, top - len);
    ShlPow2(0, top - len);
  }

  lemma {:induction false} UsedGrows(lengths: seq<nat>, top: nat, a: Pos, b: Pos)
    requires a <= b <= top + 1
    ensures Used(lengths, top, a) <= Used(lengths, top, b)
    decreases b - a
  {
    if a < b {
      UsedGrows(lengths, top, a, b - 1);
    }
  }

  /** Symbols share no number: the shorter codeword, or the earlier symbol, comes first. */
  lemma {:induction false} Apart(lengths: seq<nat>, top: nat, s: nat, t: nat)
    requires Coded(lengths, top, s) && Coded(lengths, top, t) && s != t
    ensures End(lengths, top, s) <= Start(lengths, top, t) || End(lengths, top, t) <= Start(lengths, top, s)
  {
    if lengths[s] < lengths[t] || (lengths[s] == lengths[t] && s < t) {
      InOrder(lengths, top, s, t);
    } else {
      InOrder(lengths, top, t, s);
    }
  }

  lemma {:induction false} InOrder(lengths: seq<nat>, top: nat, s: nat, t: nat)
    requires Coded(lengths, top, s) && Coded(lengths, top, t)
    requires lengths[s] < lengths[t] || (lengths[s] == lengths[t] && s < t)
    ensures End(lengths, top, s) <= Start(lengths, top, t)
  {
    var l, m := lengths[s], lengths[t];
    StartEnd(lengths, top, s);
    StartEnd(lengths, top, t);
    if l < m {
      CountGrows(lengths, l, s + 1, |lengths|);
      ShlMonotone(Count(lengths, l, s + 1), Count(lengths, l, |lengths|), top - l);
      UsedGrows(lengths, top, l + 1, m);
    } else {
      CountGrows(lengths, l, s + 1, t);
      ShlMonotone(Count(lengths, l, s + 1), Count(lengths, l, t), top - l);
    }
  }

  /** The code of a symbol has as many bits as its length says. */
  lemma {:induction false} CanonicalFits(lengths: seq<nat>, top: nat, s: nat)
    requires Coded(lengths, top, s) && Kraft(lengths, top) <= Pow2(top)
    ensures Canonical(lengths, s) < Pow2(lengths[s])
  {
    var len, c := lengths[s], Canonical(lengths, s);
    StartEnd(lengths, top, s);
    ShlPow2(len, top - len);
    assert len + (top - len) == top;
    if c >= Pow2(len) {
      ShlMonotone(Pow2(len) + 1, c + 1, top - len);
      ShlAdd(Pow2(len), 1, top - len);
      ShlAtLeast(1, top - len);
    }
  }

  /** x begins with the codeword of s exactly if its first top bits, read as a number, are among those of s. */
  lemma {:induction false} BeginsWhere(lengths: seq<nat>, top: nat, x: nat, s: nat)
    requires Coded(lengths, top, s) && Kraft(lengths, top) <= Pow2(top)
    ensures Begins(lengths, x, s) <==> Start(lengths, top, s) <= Rev(x, top) < End(lengths, top, s)
  {
    var len, c, v := lengths[s], Canonical(lengths, s), Rev(x, top);
    CanonicalFits(lengths, top, s);
    StartEnd(lengths, top, s);
    RevRev(x, top);
    RevLow(v, top, len);
    LowLow(x, len, top);
    var q := Shr(v, top - len);
    ShrBound(v, top - len, len);
    if Rev(q, len) == Rev(c, len) {
      RevInjective(q, c, len);
    }
    ShrBetween(v, c, top - len);
  }

  /** At most one codeword begins a bit string ... */
  lemma {:induction false} BeginsUnique(lengths: seq<nat>, top: nat, x: nat, s: nat, t: nat)
    requires GoodLengths(lengths, top) && Kraft(lengths, top) <= Pow2(top) && Begins(lengths, x, s)
    requires Begins(lengths, x, t)
    ensures s == t
  {
    if s != t {
      BeginsWhere(lengths, top, x, s);
      BeginsWhere(lengths, top, x, t);
      Apart(lengths, top, s, t);
    }
  }

  /** ... so no codeword begins another. */
  lemma {:induction false} PrefixFree(lengths: seq<nat>, top: nat, s: nat, t: nat)
    requires GoodLengths(lengths, top) && Kraft(lengths, top) <= Pow2(top)
    requires Coded(lengths, top, s) && Coded(lengths, top, t) && s != t && lengths[s] <= lengths[t]
    ensures Low(Codeword(lengths, t), lengths[s]) != Codeword(lengths, s)
  {
    var x := Codeword(lengths, t);
    LowSmall(x, lengths[t]);
    if Low(x, lengths[s]) == Codeword(lengths, s) {
      BeginsUnique(lengths, top, x, s, t);
    }
  }

  // ---- complete codes ------------------------------------------------------

  lemma {:induction false} RankExists(lengths: seq<nat>, len: nat, n: nat, k: nat) returns (s: nat)
    requires n <= |lengths| && k < Count(lengths, len, n)
    ensures s < n && lengths[s] == len && Count(lengths, len, s) == k
  {
    if Count(lengths, len, n - 1) == k {
      s := n - 1;
    } else {
      s := RankExists(lengths, len, n - 1, k);
    }
  }

  lemma {:induction false} LengthExists(lengths: seq<nat>, top: nat, limit: Pos, v: nat) returns (len: Pos)
    requires limit <= top + 1 && v < Used(lengths, top, limit)
    ensures len < limit && Used(lengths, top, len) <= v < Used(lengths, top, len + 1)
  {
    if Used(lengths, top, limit - 1) <= v {
      len := limit - 1;
    } else {
      len := LengthExists(lengths, top, limit - 1, v);
    }
  }

  lemma {:induction false} OwnerExists(lengths: seq<nat>, top: nat, v: nat) returns (s: nat)
    requires v < Kraft(lengths, top)
    ensures Coded(lengths, top, s) && Start(lengths, top, s) <= v < End(lengths, top, s)
  {
    var len := LengthExists(lengths, top, top + 1, v);
    var d := v - Used(lengths, top, len);
    var k := Shr(d, top - len);
    ShrBetween(d, k, top - len);
    if k >= Count(lengths, len, |lengths|) {
      ShlMonotone(Count(lengths, len, |lengths|), k, top - len);
    }
    s := RankExists(lengths, len, |lengths|, k);
    StartEnd(lengths, top, s);
  }

  /** Some codeword begins x. */
  ghost predicate Assigned(lengths: seq<nat>, x: nat)
  {
    exists s :: Begins(lengths, x, s)
  }

  /**
   A bit string begins with a codeword exactly if it is below the Kraft sum, read as a number
   with its first bit highest.
   */
  lemma {:induction false} AssignedWhere(lengths: seq<nat>, top: nat, x: nat)
    requires GoodLengths(lengths, top) && Kraft(lengths, top) <= Pow2(top)
    ensures Assigned(lengths, x) <==> Rev(x, top) < Kraft(lengths, top)
  {
    if Assigned(lengths, x) {
      var s :| Begins(lengths, x, s);
      BeginsWhere(lengths, top, x, s);
      StartEnd(lengths, top, s);
    }
    if Rev(x, top) < Kraft(lengths, top) {
      var s := OwnerExists(lengths, top, Rev(x, top));
      BeginsWhere(lengths, top, x, s);
    }
  }

  ghost predicate Complete(lengths: seq<nat>, top: nat)
  {
    GoodLengths(lengths, top) && Kraft(lengths, top) == Pow2(top)
  }

  /** In a complete code every bit string begins with a codeword. */
  lemma {:induction false} BeginsExists(lengths: seq<nat>, top: nat, x: nat) returns (s: nat)
    requires Complete(lengths, top)
    ensures Begins(lengths, x, s)
  {
    s := OwnerExists(lengths, top, Rev(x, top));
    BeginsWhere(lengths, top, x, s);
  }
}
