/**
 compression/inflate.c, construct_codes: the canonical Huffman code of a list of code lengths
 (section 3.2.2 of RFC 1951), each codeword stored with its first bit lowest.
 */
module Canon {
  import opened Basics
  import opened Bits

  // ---- bit reversal --------------------------------------------------------

  /** The low n bits of x in the opposite order. */
  function Rev(x: nat, n: nat): (r: nat)
    ensures r < Pow2(n)
  {
    if n == 0 then 0 else Rev(x / 2, n - 1) + if x % 2 == 1 then Pow2(n - 1) else 0
  }

  lemma {:induction false} RevEven(x: nat, n: nat)
    ensures Rev(2 * x, n + 1) == Rev(x, n)
    ensures Rev(2 * x + 1, n + 1) == Pow2(n) + Rev(x, n)
  {
  }

  /** The highest of n bits becomes the lowest. */
  lemma {:induction false} RevTop(x: nat, n: nat)
    ensures Rev(x, n + 1) == 2 * Rev(x, n) + Shr(x, n) % 2
  {
    if n > 0 {
      RevTop(x / 2, n - 1);
    }
  }

  lemma {:induction false} RevOfSum(l: nat, h: nat, n: nat)
    requires l < Pow2(n) && h <= 1
    ensures Rev(l + Shl(h, n), n + 1) == 2 * Rev(l, n) + h
  {
    var y := l + Shl(h, n);
    SplitUnique(l, h, n);
    LowSmall(l, n);
    RevTop(y, n);
    RevLowBits(y, l, n);
  }

  lemma {:induction false} RevAsSum(x: nat, n: nat)
    ensures Rev(x, n + 1) == Rev(x / 2, n) + Shl(x % 2, n)
  {
    ShlIsMul(x % 2, n);
  }

  lemma {:induction false} RevRev(x: nat, n: nat)
    ensures Rev(Rev(x, n), n) == Low(x, n)
  {
    if n > 0 {
      RevAsSum(x, n - 1);
      RevOfSum(Rev(x / 2, n - 1), x % 2, n - 1);
      RevRev(x / 2, n - 1);
    }
  }

  lemma {:induction false} RevLowBits(x: nat, y: nat, n: nat)
    requires Low(x, n) == Low(y, n)
    ensures Rev(x, n) == Rev(y, n)
  {
    if n > 0 {
      RevLowBits(x / 2, y / 2, n - 1);
    }
  }

  /** The first bits of a reversed number are its high ones. */
  lemma {:induction false} RevLow(x: nat, n: nat, m: nat)
    requires m <= n
    ensures Low(Rev(x, n), m) == Rev(Shr(x, n - m), m)
  {
    if m == n {
      LowSmall(Rev(x, n), n);
    } else {
      RevAsSum(x, n - 1);
      assert Low(Rev(x, n), n - 1) == Rev(x / 2, n - 1) by { SplitUnique(Rev(x / 2, n - 1), x % 2, n - 1); }
      LowLow(Rev(x, n), m, n - 1);
      RevLow(x / 2, n - 1, m);
    }
  }

  lemma {:induction false} RevInjective(x: nat, y: nat, n: nat)
    requires x < Pow2(n) && y < Pow2(n) && Rev(x, n) == Rev(y, n)
    ensures x == y
  {
    RevRev(x, n);
    RevRev(y, n);
    LowSmall(x, n);
    LowSmall(y, n);
  }

  // ---- counting a reversed number up ---------------------------------------

  /** code & 1 << pos, of a number below 2^(pos + 1) */
  function TopBit(code: nat, pos: nat): bool
  {
    code >= Pow2(pos)
  }

  lemma {:induction false} RevShl(x: nat, n: nat, k: nat)
    ensures Rev(Shl(x, k), n + k) == Rev(x, n)
  {
    if k > 0 {
      RevShl(x, n, k - 1);
      RevEven(Shl(x, k - 1), n + k - 1);
    }
  }

  lemma {:induction false} TopBitStep(d: nat, pos: nat)
    requires d < Pow2(pos + 1)
    ensures TopBit(Rev(d, pos + 1), pos) <==> d % 2 == 1
    ensures d % 2 == 1 ==> Rev(d, pos + 1) - Pow2(pos) == Rev(d / 2, pos) && d / 2 < Pow2(pos)
    ensures d % 2 == 0 ==> Rev(d, pos + 1) + Pow2(pos) == Rev(d + 1, pos + 1)
  {
  }

  /** The k low ones of c are gone from it, and from the top of code; d is what is left. */
  ghost predicate Counting(code: nat, c: nat, d: nat, k: nat, pos: nat, len: nat)
  {
    pos + 1 + k == len && code == Rev(d, pos + 1) && d < Pow2(pos + 1) && c + 1 == Shl(d + 1, k)
  }

  lemma {:induction false} CountingCarry(code: nat, c: nat, d: nat, k: nat, pos: nat, len: nat)
    requires Counting(code, c, d, k, pos, len) && TopBit(code, pos)
    ensures pos == 0 ==> c == Pow2(len) - 1
    ensures pos > 0 ==> Counting(code - Pow2(pos), c, d / 2, k + 1, pos - 1, len)
  {
    TopBitStep(d, pos);
    CarryStep(c, d, k);
    if pos == 0 {
      WasLast(c, d, k, len);
    }
  }

  /** lines 57-63: the next code of the same length, unless this was the last. */
  method NextReversed(code0: nat, len: Pos, ghost c: nat) returns (last: bool, code: nat)
    requires c < Pow2(len) && code0 == Rev(c, len)
    ensures last <==> c == Pow2(len) - 1
    ensures !last ==> code == Rev(c + 1, len)
  {
    code := code0;
    var pos: nat := len - 1;
    ghost var d: nat, k: nat := c, 0;
    while TopBit(code, pos)
      invariant Counting(code, c, d, k, pos, len)
      decreases pos
    {
      CountingCarry(code, c, d, k, pos, len);
      code := code - Pow2(pos);
      if pos == 0 {
        return true, 0;
      }
      d, k, pos := d / 2, k + 1, pos - 1;
    }
    CountedUp(code, c, d, k, pos, len);
    last, code := false, code + Pow2(pos);
  }

  lemma {:induction false} WasLast(c: nat, d: nat, k: nat, len: nat)
    requires c + 1 == Shl(d + 1, k) && d == 1 && len == k + 1
    ensures c == Pow2(len) - 1
  {
    ShlPow2(1, k);
  }

  lemma {:induction false} CountedUp(code: nat, c: nat, d: nat, k: nat, pos: nat, len: nat)
    requires Counting(code, c, d, k, pos, len) && !TopBit(code, pos)
    ensures code + Pow2(pos) == Rev(c + 1, len) && c + 1 < Pow2(len)
  {
    TopBitStep(d, pos);
    RevShl(d + 1, pos + 1, k);
    NotAllOnes(c, d, k, pos);
  }

  lemma {:induction false} CarryStep(c: nat, d: nat, k: nat)
    requires c + 1 == Shl(d + 1, k) && d % 2 == 1
    ensures c + 1 == Shl(d / 2 + 1, k + 1)
  {
    ShlSum(d / 2 + 1, 1, k);
    assert Shl(d / 2 + 1, 1) == d + 1;
  }

  lemma {:induction false} NotAllOnes(c: nat, d: nat, k: nat, pos: nat)
    requires c + 1 == Shl(d + 1, k) && d % 2 == 0 && d < Pow2(pos + 1)
    ensures c + 1 < Pow2(pos + 1 + k)
  {
    assert Pow2(pos + 1) == 2 * Pow2(pos);
    ShlPow2(pos + 1, k);
    ShlAdd(d + 1, Pow2(pos + 1) - d - 1, k);
    ShlAtLeast(Pow2(pos + 1) - d - 1, k);
  }

  // ---- the code of a list of lengths ---------------------------------------

  ghost predicate GoodLengths(lengths: seq<nat>, top: nat)
  {
    forall s :: 0 <= s < |lengths| ==> lengths[s] <= top
  }

  /** How many of the first n symbols have this length. */
  function Count(lengths: seq<nat>, len: nat, n: nat): nat
    requires n <= |lengths|
  {
    if n == 0 then 0 else Count(lengths, len, n - 1) + if lengths[n - 1] == len then 1 else 0
  }

  /** The first code of a length: step 2 of section 3.2.2. */
  function FirstCode(lengths: seq<nat>, len: Pos): nat
  {
    if len == 1 then 0 else 2 * (FirstCode(lengths, len - 1) + Count(lengths, len - 1, |lengths|))
  }

  /** The code of a symbol: step 3. */
  function Canonical(lengths: seq<nat>, sym: nat): nat
    requires sym < |lengths| && lengths[sym] > 0
  {
    FirstCode(lengths, lengths[sym]) + Count(lengths, lengths[sym], sym)
  }

  /** The codeword of a symbol, first bit lowest. */
  function Codeword(lengths: seq<nat>, sym: nat): nat
    requires sym < |lengths| && lengths[sym] > 0
  {
    Rev(Canonical(lengths, sym), lengths[sym])
  }

  /**
   All numbers of top bits are divided among the codewords, shorter ones first; one of length
   len takes 2^(top - len). Used is what the codewords of less than len bits take.
   */
  function Used(lengths: seq<nat>, top: nat, len: Pos): nat
    requires len <= top + 1
  {
    if len == 1 then 0 else Used(lengths, top, len - 1) + Shl(Count(lengths, len - 1, |lengths|), top + 1 - len)
  }

  /** The Kraft sum, in units of 2^-top. */
  function Kraft(lengths: seq<nat>, top: nat): nat
  {
    Used(lengths, top, top + 1)
  }

  lemma {:induction false} FirstCodeUsed(lengths: seq<nat>, top: nat, len: Pos)
    requires len <= top
    ensures Shl(FirstCode(lengths, len), top - len) == Used(lengths, top, len)
  {
    if len > 1 {
      FirstCodeUsed(lengths, top, len - 1);
      var f, c := FirstCode(lengths, len - 1), Count(lengths, len - 1, |lengths|);
      ShlSum(f + c, 1, top - len);
      assert Shl(f + c, 1) == 2 * (f + c);
      ShlAdd(f, c, top + 1 - len);
    } else {
      ShrZero(top - len);
    }
  }

  /** What is taken before the symbols from sym on of length len. */
  function UsedBefore(lengths: seq<nat>, top: nat, len: Pos, sym: nat): nat
    requires len <= top && sym <= |lengths|
  {
    Used(lengths, top, len) + Shl(Count(lengths, len, sym), top - len)
  }

  /** How many symbols have got a code before those. */
  function ActiveBelow(lengths: seq<nat>, len: Pos, n: nat): nat
    requires n <= |lengths|
  {
    if len == 1 then 0 else ActiveBelow(lengths, len - 1, n) + Count(lengths, len - 1, n)
  }

  function Active(lengths: seq<nat>, n: nat): nat
    requires n <= |lengths|
  {
    if n == 0 then 0 else Active(lengths, n - 1) + if lengths[n - 1] > 0 then 1 else 0
  }

  lemma {:induction false} ActiveBelowStep(lengths: seq<nat>, len: Pos, n: nat)
    requires 0 < n <= |lengths|
    ensures ActiveBelow(lengths, len, n) == ActiveBelow(lengths, len, n - 1) + if 0 < lengths[n - 1] < len then 1 else 0
  {
    if len > 1 {
      ActiveBelowStep(lengths, len - 1, n);
    }
  }

  lemma {:induction false} ActiveTotal(lengths: seq<nat>, top: nat, n: nat)
    requires GoodLengths(lengths, top) && n <= |lengths|
    ensures ActiveBelow(lengths, top + 1, n) == Active(lengths, n)
  {
    if n == 0 {
      ActiveBelowNone(lengths, top + 1);
    } else {
      ActiveBelowStep(lengths, top + 1, n);
      ActiveTotal(lengths, top, n - 1);
    }
  }

  lemma {:induction false} ActiveBelowNone(lengths: seq<nat>, len: Pos)
    ensures ActiveBelow(lengths, len, 0) == 0
  {
    if len > 1 {
      ActiveBelowNone(lengths, len - 1);
    }
  }

  lemma {:induction false} CountGrows(lengths: seq<nat>, len: nat, a: nat, b: nat)
    requires a <= b <= |lengths|
    ensures Count(lengths, len, a) <= Count(lengths, len, b)
  {
    if a < b {
      CountGrows(lengths, len, a, b - 1);
    }
  }

  /** What is not yet taken, compared with the number of symbols that have no code yet. */
  lemma {:induction false} RestOfLengths(lengths: seq<nat>, top: nat, len: Pos)
    requires len <= top + 1
    ensures var rest := ActiveBelow(lengths, top + 1, |lengths|) - ActiveBelow(lengths, len, |lengths|);
            0 <= rest <= Kraft(lengths, top) - Used(lengths, top, len) && (rest == 0 ==> Kraft(lengths, top) == Used(lengths, top, len))
    decreases top + 1 - len
  {
    if len <= top {
      RestOfLengths(lengths, top, len + 1);
      var c := Count(lengths, len, |lengths|);
      ShlAtLeast(c, top - len);
      ShrZero(top - len);
    }
  }

  lemma {:induction false} ShlAtLeast(x: nat, k: nat)
    ensures Shl(x, k) >= x
  {
    if k > 0 {
      ShlAtLeast(x, k - 1);
    }
  }

  lemma {:induction false} RestOfSymbols(lengths: seq<nat>, top: nat, len: Pos, sym: nat)
    requires len <= top && sym <= |lengths|
    ensures var rest := ActiveBelow(lengths, top + 1, |lengths|) - ActiveBelow(lengths, len, |lengths|) - Count(lengths, len, sym);
            0 <= rest <= Kraft(lengths, top) - UsedBefore(lengths, top, len, sym) && (rest == 0 ==> Kraft(lengths, top) == UsedBefore(lengths, top, len, sym))
  {
    RestOfLengths(lengths, top, len + 1);
    CountGrows(lengths, len, sym, |lengths|);
    var a, b := Count(lengths, len, sym), Count(lengths, len, |lengths|);
    ShlAdd(a, b - a, top - len);
    ShlAtLeast(b - a, top - len);
    ShrZero(top - len);
  }

  // ---- construct_codes -----------------------------------------------------

  /** Where the loops of lines 52-65 are: the next code of length len, and how many have been given out. */
  ghost predicate Point(lengths: seq<nat>, top: nat, len: Pos, sym: nat, c: nat)
    requires len <= top && sym <= |lengths|
  {
    c == FirstCode(lengths, len) + Count(lengths, len, sym) && c < Pow2(len)
  }

  lemma {:induction false} PointUsed(lengths: seq<nat>, top: nat, len: Pos, sym: nat)
    requires len <= top && sym <= |lengths|
    ensures Shl(FirstCode(lengths, len) + Count(lengths, len, sym), top - len) == UsedBefore(lengths, top, len, sym)
  {
    FirstCodeUsed(lengths, top, len);
    ShlAdd(FirstCode(lengths, len), Count(lengths, len, sym), top - len);
  }

  lemma {:induction false} FullAt(lengths: seq<nat>, top: nat, len: Pos, sym: nat)
    requires len <= top && sym <= |lengths| && FirstCode(lengths, len) + Count(lengths, len, sym) == Pow2(len)
    ensures UsedBefore(lengths, top, len, sym) == Pow2(top)
  {
    PointUsed(lengths, top, len, sym);
    ShlPow2(len, top - len);
    assert len + (top - len) == top;
  }

  /**
   The code has run out right after the symbol before sym: all symbols have one exactly if the
   Kraft sum is at most one.
   */
  lemma {:induction false} RanOut(lengths: seq<nat>, top: nat, len: Pos, sym: nat)
    requires GoodLengths(lengths, top) && len <= top && sym <= |lengths|
    requires UsedBefore(lengths, top, len, sym) == Pow2(top)
    ensures Kraft(lengths, top) <= Pow2(top) <==>
            Active(lengths, |lengths|) == ActiveBelow(lengths, len, |lengths|) + Count(lengths, len, sym)
  {
    RestOfSymbols(lengths, top, len, sym);
    ActiveTotal(lengths, top, |lengths|);
  }

  /** The codes that have been given out are those of the standard. */
  ghost predicate CodesUpTo(lengths: seq<nat>, codes: seq<nat>, len: nat, sym: nat)
    requires |codes| == |lengths|
  {
    forall s :: 0 <= s < |lengths| && 0 < lengths[s] && (lengths[s] < len || (lengths[s] == len && s < sym)) ==>
      codes[s] == Codeword(lengths, s)
  }

  /** lines 42-49 */
  method CountActive(lengths: seq<nat>, codes: array<nat>) returns (active: nat)
    requires codes.Length == |lengths|
    modifies codes
    ensures active == Active(lengths, |lengths|)
    ensures forall s :: 0 <= s < |lengths| && lengths[s] == 0 ==> codes[s] == 0
  {
    active := 0;
    for sym := 0 to |lengths|
      invariant active == Active(lengths, sym)
      invariant forall s :: 0 <= s < sym && lengths[s] == 0 ==> codes[s] == 0
    {
      if lengths[sym] > 0 {
        active := active + 1;
      } else {
        codes[sym] := 0;
      }
    }
  }

  /** lines 55-63: one code. */
  method GiveCode(lengths: seq<nat>, codes: array<nat>, len: Pos, sym: nat, code: nat, ghost c: nat)
    returns (last: bool, next: nat)
    requires codes.Length == |lengths| && sym < |lengths| && lengths[sym] == len
    requires CodesUpTo(lengths, codes[..], len, sym)
    requires c == FirstCode(lengths, len) + Count(lengths, len, sym) && c < Pow2(len) && code == Rev(c, len)
    modifies codes
    ensures codes[..] == old(codes[..])[sym := code] && CodesUpTo(lengths, codes[..], len, sym + 1)
    ensures last <==> c == Pow2(len) - 1
    ensures !last ==> next == Rev(c + 1, len)
  {
    CodesUpToPut(lengths, codes[..], len, sym, code);
    codes[sym] := code;
    last, next := NextReversed(code, len, c);
  }

  ghost predicate UnusedKept(lengths: seq<nat>, codes: seq<nat>, was: seq<nat>)
  {
    |codes| == |was| == |lengths| && forall s :: 0 <= s < |lengths| && lengths[s] == 0 ==> codes[s] == was[s]
  }

  /** lines 53-64: the codes of one length. */
  method CodesOfLength(lengths: seq<nat>, top: nat, codes: array<nat>, len: Pos, code0: nat)
    returns (code: nat, given: nat, last: bool, ghost reached: nat)
    requires codes.Length == |lengths| && len <= top
    requires Point(lengths, top, len, 0, FirstCode(lengths, len)) && code0 == Rev(FirstCode(lengths, len), len)
    requires CodesUpTo(lengths, codes[..], len, 0)
    modifies codes
    ensures UnusedKept(lengths, codes[..], old(codes[..]))
    ensures !last ==> given == Count(lengths, len, |lengths|) && CodesUpTo(lengths, codes[..], len, |lengths|)
    ensures !last ==> code == Rev(FirstCode(lengths, len) + given, len) && FirstCode(lengths, len) + given < Pow2(len)
    ensures last ==> reached <= |lengths| && given == Count(lengths, len, reached)
    ensures last ==> FirstCode(lengths, len) + given == Pow2(len) && CodesUpTo(lengths, codes[..], len, reached)
  {
    code, given, last, reached := code0, 0, false, 0;
    ghost var first := FirstCode(lengths, len);
    ghost var c := first;
    for sym := 0 to |lengths|
      invariant given == Count(lengths, len, sym) && c == first + given < Pow2(len) && code == Rev(c, len)
      invariant CodesUpTo(lengths, codes[..], len, sym) && !last
      invariant UnusedKept(lengths, codes[..], old(codes[..]))
    {
      if lengths[sym] == len {
        last, code := GiveCode(lengths, codes, len, sym, code, c);
        given, c := given + 1, c + 1;
        if last {
          reached := sym + 1;
          return;
        }
      } else {
        CodesUpToSkip(lengths, codes[..], len, sym);
      }
    }
  }

  lemma {:induction false} CodesUpToSkip(lengths: seq<nat>, codes: seq<nat>, len: Pos, sym: nat)
    requires |codes| == |lengths| && CodesUpTo(lengths, codes, len, sym) && sym < |lengths| && lengths[sym] != len
    ensures CodesUpTo(lengths, codes, len, sym + 1) && Count(lengths, len, sym + 1) == Count(lengths, len, sym)
  {
  }

  lemma {:induction false} CodesUpToPut(lengths: seq<nat>, codes: seq<nat>, len: Pos, sym: nat, code: nat)
    requires |codes| == |lengths| && CodesUpTo(lengths, codes, len, sym) && sym < |lengths| && lengths[sym] == len
    requires code == Rev(FirstCode(lengths, len) + Count(lengths, len, sym), len)
    ensures CodesUpTo(lengths, codes[sym := code], len, sym + 1)
  {
  }

  ghost predicate AllCodes(lengths: seq<nat>, codes: seq<nat>)
  {
    && |codes| == |lengths|
    && forall s :: 0 <= s < |lengths| ==> codes[s] == if lengths[s] == 0 then 0 else Codeword(lengths, s)
  }

  /** When nothing is left out, the codes that have been given out are all there are. */
  lemma {:induction false} NoneLeft(lengths: seq<nat>, top: nat, len: Pos, sym: nat, s: nat)
    requires GoodLengths(lengths, top) && len <= top && sym <= |lengths| && s < |lengths| && lengths[s] > 0
    requires Active(lengths, |lengths|) == ActiveBelow(lengths, len, |lengths|) + Count(lengths, len, sym)
    ensures lengths[s] < len || (lengths[s] == len && s < sym)
  {
    var n := |lengths|;
    ActiveTotal(lengths, top, n);
    CountGrows(lengths, len, sym, n);
    ActiveBelowGrows(lengths, len + 1, top + 1, n);
    if lengths[s] > len {
      ActiveBelowGrows(lengths, len + 1, lengths[s], n);
      ActiveBelowGrows(lengths, lengths[s] + 1, top + 1, n);
      CountGrows(lengths, lengths[s], s + 1, n);
    } else if lengths[s] == len && s >= sym {
      CountGrows(lengths, len, sym, s);
      CountGrows(lengths, len, s + 1, n);
    }
  }

  lemma {:induction false} ActiveBelowGrows(lengths: seq<nat>, a: Pos, b: Pos, n: nat)
    requires a <= b && n <= |lengths|
    ensures ActiveBelow(lengths, a, n) <= ActiveBelow(lengths, b, n)
    decreases b - a
  {
    if a < b {
      ActiveBelowGrows(lengths, a, b - 1, n);
    }
  }

  lemma {:induction false} AllGiven(lengths: seq<nat>, top: nat, len: Pos, sym: nat, codes: seq<nat>)
    requires GoodLengths(lengths, top) && len <= top && sym <= |lengths| && |codes| == |lengths|
    requires Active(lengths, |lengths|) == ActiveBelow(lengths, len, |lengths|) + Count(lengths, len, sym)
    requires CodesUpTo(lengths, codes, len, sym) && forall s :: 0 <= s < |lengths| && lengths[s] == 0 ==> codes[s] == 0
    ensures AllCodes(lengths, codes)
  {
    forall s | 0 <= s < |lengths| ensures codes[s] == if lengths[s] == 0 then 0 else Codeword(lengths, s) {
      if lengths[s] > 0 {
        NoneLeft(lengths, top, len, sym, s);
      }
    }
  }

  /** construct_codes; ok is its final assertion. */
  method ConstructCodes(lengths: seq<nat>, top: Pos, codes: array<nat>) returns (ok: bool)
    requires GoodLengths(lengths, top) && codes.Length == |lengths|
    modifies codes
    ensures ok <==> Kraft(lengths, top) <= Pow2(top)
    ensures ok ==> AllCodes(lengths, codes[..])
  {
    var active := CountActive(lengths, codes);
    var code, handedOut, given, last := 0, 0, 0, false;
    ghost var reached := 0;
    var len: Pos := 1;
    while len <= top
      invariant 1 <= len <= top + 1 && handedOut == ActiveBelow(lengths, len, |lengths|)
      invariant FirstCode(lengths, len) < Pow2(len) && code == Rev(FirstCode(lengths, len), len)
      invariant CodesUpTo(lengths, codes[..], len, 0)
      invariant forall s :: 0 <= s < |lengths| && lengths[s] == 0 ==> codes[s] == 0
    {
      code, given, last, reached := CodesOfLength(lengths, top, codes, len, code);
      handedOut := handedOut + given;
      if last {
        FullAt(lengths, top, len, reached);
        RanOut(lengths, top, len, reached);
        if active == handedOut {
          AllGiven(lengths, top, len, reached, codes[..]);
        }
        return active == handedOut;
      }
      RevEven(FirstCode(lengths, len) + given, len);
      CodesUpToNext(lengths, codes[..], len);
      len := len + 1;
    }
    NotFull(lengths, top);
    ActiveTotal(lengths, top, |lengths|);
    AllGiven(lengths, top, top, |lengths|, codes[..]);
    ok := active == handedOut;
  }

  lemma {:induction false} CodesUpToNext(lengths: seq<nat>, codes: seq<nat>, len: Pos)
    requires |codes| == |lengths| && CodesUpTo(lengths, codes, len, |lengths|)
    ensures CodesUpTo(lengths, codes, len + 1, 0)
  {
  }

  lemma {:induction false} NotFull(lengths: seq<nat>, top: Pos)
    requires FirstCode(lengths, top + 1) < Pow2(top + 1)
    ensures Kraft(lengths, top) < Pow2(top)
  {
    FirstCodeUsed(lengths, top, top);
    assert FirstCode(lengths, top + 1) == 2 * (FirstCode(lengths, top) + Count(lengths, top, |lengths|));
  }
}
