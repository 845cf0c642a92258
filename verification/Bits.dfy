/**
 Shifts and masks of numbers, byte strings as little-endian numbers, and bit reservoirs.

 A bit reservoir holds the bits of the bytes fetched so far that have not been
 used yet.  Reading from it is reading from the whole string.
 */
module Bits {
  import opened Basics

  // ---- shifts and masks ----------------------------------------------------

  /** x << n */
  function Shl(x: nat, n: nat): nat
  {
    if n == 0 then x else 2 * Shl(x, n - 1)
  }

  /** x >> n */
  function Shr(x: nat, n: nat): nat
  {
    if n == 0 then x else Shr(x / 2, n - 1)
  }

  /** x & ((1 << n) - 1) */
  function Low(x: nat, n: nat): (r: nat)
    ensures r < Pow2(n)
  {
    if n == 0 then 0 else x % 2 + 2 * Low(x / 2, n - 1)
  }

  /** The n bits of x from pos on. */
  function Field(x: nat, pos: nat, n: nat): (r: nat)
    ensures r < Pow2(n)
  {
    Low(Shr(x, pos), n)
  }

  lemma {:induction false} ShlIsMul(x: nat, n: nat)
    ensures Shl(x, n) == x * Pow2(n)
  {
    if n > 0 {
      ShlIsMul(x, n - 1);
      assert x * (2 * Pow2(n - 1)) == 2 * (x * Pow2(n - 1));
    }
  }

  lemma {:induction false} ShlSum(x: nat, a: nat, b: nat)
    ensures Shl(Shl(x, a), b) == Shl(x, a + b)
  {
    if b > 0 {
      ShlSum(x, a, b - 1);
    }
  }

  lemma {:induction false} ShlAdd(x: nat, y: nat, n: nat)
    ensures Shl(x + y, n) == Shl(x, n) + Shl(y, n)
  {
    if n > 0 {
      ShlAdd(x, y, n - 1);
    }
  }

  lemma {:induction false} ShlMonotone(x: nat, y: nat, n: nat)
    requires x <= y
    ensures Shl(x, n) <= Shl(y, n)
  {
    if n > 0 {
      ShlMonotone(x, y, n - 1);
    }
  }

  lemma {:induction false} ShlPow2(a: nat, n: nat)
    ensures Shl(Pow2(a), n) == Pow2(a + n)
  {
    if n > 0 {
      ShlPow2(a, n - 1);
    }
  }

  lemma {:induction false} ShrSum(x: nat, a: nat, b: nat)
    ensures Shr(Shr(x, a), b) == Shr(x, a + b)
  {
    if a > 0 {
      ShrSum(x / 2, a - 1, b);
    }
  }

  lemma {:induction false} ShrZero(n: nat)
    ensures Shr(0, n) == 0 && Shl(0, n) == 0 && Low(0, n) == 0
  {
    if n > 0 {
      ShrZero(n - 1);
    }
  }

  /** A number is its low bits and the rest. */
  lemma {:induction false} Split(x: nat, n: nat)
    ensures x == Low(x, n) + Shl(Shr(x, n), n)
  {
    if n > 0 {
      Split(x / 2, n - 1);
    }
  }

  /** ... in one way only. */
  lemma {:induction false} SplitUnique(l: nat, h: nat, n: nat)
    requires l < Pow2(n)
    ensures Low(l + Shl(h, n), n) == l && Shr(l + Shl(h, n), n) == h
  {
    if n > 0 {
      assert (l + Shl(h, n)) / 2 == l / 2 + Shl(h, n - 1);
      SplitUnique(l / 2, h, n - 1);
    }
  }

  /** Bits from position n on do not show below it, and are what a shift leaves. */
  lemma {:induction false} ShiftAdd(x: nat, k: nat, n: nat)
    ensures Shr(x + Shl(k, n), n) == Shr(x, n) + k
    ensures Low(x + Shl(k, n), n) == Low(x, n)
  {
    if n > 0 {
      assert (x + Shl(k, n)) / 2 == x / 2 + Shl(k, n - 1);
      ShiftAdd(x / 2, k, n - 1);
    }
  }

  lemma {:induction false} ShlBound(x: nat, d: nat, n: nat)
    requires x < Pow2(d)
    ensures Shl(x, n) < Pow2(d + n)
  {
    ShlAdd(x, 1, n);
    ShlMonotone(x + 1, Pow2(d), n);
    ShlPow2(d, n);
    ShlPow2(0, n);
  }

  /** A left shift by n of a number of d + n bits drops the top n bits. */
  lemma {:induction false} ShlWraps(lo: nat, hi: nat, n: nat, d: nat)
    requires lo < Pow2(d)
    ensures Low(Shl(lo + Shl(hi, d), n), d + n) == Shl(lo, n)
  {
    ShlAdd(lo, Shl(hi, d), n);
    ShlSum(hi, d, n);
    ShlBound(lo, d, n);
    SplitUnique(Shl(lo, n), hi, d + n);
  }

  /** Shifts and masks are division by a power of two. */
  lemma {:induction false} ShrIsDiv(x: nat, n: nat)
    ensures Shr(x, n) == x / Pow2(n) && Low(x, n) == x % Pow2(n)
  {
    Split(x, n);
    ShlIsMul(Shr(x, n), n);
    DivModUnique(x, Shr(x, n), Low(x, n), Pow2(n));
  }

  /** A field of a + b bits is its low field and its high field. */
  lemma {:induction false} LowSplit(x: nat, a: nat, b: nat)
    ensures Low(x, a + b) == Low(x, a) + Shl(Field(x, a, b), a)
  {
    if a > 0 {
      LowSplit(x / 2, a - 1, b);
    }
  }

  lemma {:induction false} LowSmall(x: nat, n: nat)
    requires x < Pow2(n)
    ensures Low(x, n) == x && Shr(x, n) == 0
  {
    if n > 0 {
      LowSmall(x / 2, n - 1);
    }
  }

  lemma {:induction false} ShrBound(x: nat, a: nat, b: nat)
    requires x < Pow2(a + b)
    ensures Shr(x, a) < Pow2(b)
  {
    if a > 0 {
      ShrBound(x / 2, a - 1, b);
    }
  }

  /** What a number shifted right can have been. */
  lemma {:induction false} ShrBetween(v: nat, c: nat, k: nat)
    ensures Shr(v, k) == c <==> Shl(c, k) <= v < Shl(c + 1, k)
  {
    var q := Shr(v, k);
    Split(v, k);
    ShlAdd(q, 1, k);
    ShlPow2(0, k);
    assert Shl(q, k) <= v < Shl(q + 1, k);
    if q < c {
      ShlMonotone(q + 1, c, k);
    } else if c < q {
      ShlMonotone(c + 1, q, k);
    }
  }

  /** The low bits of the low bits. */
  lemma {:induction false} LowLow(x: nat, a: nat, b: nat)
    requires a <= b
    ensures Low(Low(x, b), a) == Low(x, a)
  {
    if a > 0 {
      assert Low(x, b) / 2 == Low(x / 2, b - 1);
      LowLow(x / 2, a - 1, b - 1);
    }
  }

  /** A field of the low bits is one of the number. */
  lemma {:induction false} FieldOfLow(x: nat, pos: nat, n: nat, m: nat)
    requires pos + n <= m
    ensures Field(Low(x, m), pos, n) == Field(x, pos, n)
  {
    if pos > 0 {
      assert Low(x, m) / 2 == Low(x / 2, m - 1);
      FieldOfLow(x / 2, pos - 1, n, m - 1);
    } else {
      LowLow(x, n, m);
    }
  }

  // ---- byte strings --------------------------------------------------------

  /** The number a little-endian byte string stands for. */
  function Value(s: seq<Byte>): nat
  {
    if s == [] then 0 else s[0] + 256 * Value(s[1..])
  }

  lemma {:induction false} Shl8(x: nat)
    ensures Shl(x, 8) == 256 * x
  {
    ShlIsMul(x, 8);
    assert Pow2(8) == 256;
  }

  lemma {:induction false} ValueConcat(a: seq<Byte>, b: seq<Byte>)
    ensures Value(a + b) == Value(a) + Shl(Value(b), 8 * |a|)
  {
    if a == [] {
      assert a + b == b;
    } else {
      assert (a + b)[1..] == a[1..] + b;
      ValueConcat(a[1..], b);
      ShlSum(Value(b), 8 * (|a| - 1), 8);
      Shl8(Shl(Value(b), 8 * (|a| - 1)));
    }
  }

  lemma {:induction false} ValueBound(a: seq<Byte>)
    ensures Value(a) < Pow2(8 * |a|)
  {
    if a != [] {
      ValueBound(a[1..]);
      ShlPow2(8 * (|a| - 1), 8);
      Shl8(Pow2(8 * (|a| - 1)));
    }
  }

  lemma {:induction false} ValueZeros(a: seq<Byte>)
    requires forall i :: 0 <= i < |a| ==> a[i] == 0
    ensures Value(a) == 0
  {
    if a != [] {
      ValueZeros(a[1..]);
    }
  }

  lemma {:induction false} ValueSplit(s: seq<Byte>, c: nat)
    requires c <= |s|
    ensures Value(s) == Value(s[..c]) + Shl(Value(s[c..]), 8 * c)
  {
    assert s == s[..c] + s[c..];
    ValueConcat(s[..c], s[c..]);
  }

  lemma {:induction false} ValueOne(b: Byte)
    ensures Value([b]) == b
  {
    assert [b][1..] == [];
  }

  // ---- fields one after the other ------------------------------------------

  /** Where bits are read from: the number that the n bits from a position on stand for. */
  type BitSource = (nat, nat) -> nat

  function BitsOf(s: seq<Byte>): (f: BitSource)
    ensures forall pos, n :: f(pos, n) == Field(Value(s), pos, n)
  {
    (pos, n) => Field(Value(s), pos, n)
  }

  /** n bits stand for a number below 2^n. */
  ghost predicate Bounded(bits: BitSource)
  {
    forall pos, n :: bits(pos, n) < Pow2(n)
  }

  /** Fields, and the number that all bits after them stand for. */
  datatype Fields = Rest(x: nat) | Then(value: nat, width: nat, rest: Fields)

  function Width(f: Fields): nat
  {
    match f
    case Rest(_) => 0
    case Then(_, n, rest) => n + Width(rest)
  }

  /** The bits from pos on are these fields. */
  ghost predicate StartsWith(bits: BitSource, pos: nat, f: Fields)
    decreases f
  {
    match f
    case Rest(_) => true
    case Then(v, n, rest) => bits(pos, n) == v && StartsWith(bits, pos + n, rest)
  }

  ghost predicate FieldsFit(f: Fields)
  {
    f.Then? ==> f.value < Pow2(f.width) && FieldsFit(f.rest)
  }

  /** The number whose bits are the given fields. */
  function Joined(f: Fields): nat
  {
    match f
    case Rest(x) => x
    case Then(v, n, rest) => v + Shl(Joined(rest), n)
  }

  lemma {:induction false} JoinedStarts(s: seq<Byte>, pos: nat, f: Fields)
    requires FieldsFit(f) && Shr(Value(s), pos) == Joined(f)
    ensures StartsWith(BitsOf(s), pos, f)
    decreases f
  {
    match f
    case Rest(_) =>
    case Then(v, n, rest) =>
      SplitUnique(v, Joined(rest), n);
      ShrSum(Value(s), pos, n);
      JoinedStarts(s, pos + n, rest);
  }

  // ---- reservoirs filled from the front ------------------------------------

  /** What a reservoir holds when c bytes have been fetched and pos bits used. */
  function Held(s: seq<Byte>, c: nat, pos: nat): nat
    requires c <= |s|
  {
    Shr(Value(s[..c]), pos)
  }

  lemma {:induction false} HeldBound(s: seq<Byte>, c: nat, pos: nat)
    requires c <= |s| && pos <= 8 * c
    ensures Held(s, c, pos) < Pow2(8 * c - pos)
  {
    ValueBound(s[..c]);
    ShrBound(Value(s[..c]), pos, 8 * c - pos);
  }

  /** bits |= *in++ << num_bits */
  lemma {:induction false} HeldFetch(s: seq<Byte>, c: nat, pos: nat)
    requires c < |s| && pos <= 8 * c
    ensures Held(s, c + 1, pos) == Held(s, c, pos) + Shl(s[c], 8 * c - pos)
  {
    assert s[..c + 1] == s[..c] + [s[c]];
    ValueConcat(s[..c], [s[c]]);
    ValueOne(s[c]);
    ShlSum(s[c], 8 * c - pos, pos);
    ShiftAdd(Value(s[..c]), Shl(s[c], 8 * c - pos), pos);
  }

  /** bits >>= n */
  lemma {:induction false} HeldUse(s: seq<Byte>, c: nat, pos: nat, n: nat)
    requires c <= |s|
    ensures Shr(Held(s, c, pos), n) == Held(s, c, pos + n)
  {
    ShrSum(Value(s[..c]), pos, n);
  }

  /** bits & ((1 << n) - 1): as long as the reservoir holds n bits, they are those of the string. */
  lemma {:induction false} HeldPeek(s: seq<Byte>, c: nat, pos: nat, n: nat)
    requires c <= |s| && pos + n <= 8 * c
    ensures Low(Held(s, c, pos), n) == Field(Value(s), pos, n)
  {
    ValueSplit(s, c);
    var h := Value(s[c..]);
    ShlSum(h, 8 * c - pos, pos);
    ShiftAdd(Value(s[..c]), Shl(h, 8 * c - pos), pos);
    ShlSum(h, 8 * c - pos - n, n);
    ShiftAdd(Held(s, c, pos), Shl(h, 8 * c - pos - n), n);
  }
}
