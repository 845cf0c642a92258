/**
 compression/lzcommon.c: the copies shared by the decompressors.

 Memory is one byte array whose indices are the addresses.  A 64-bit word is its
 eight little-endian bytes, so a shift by a multiple of eight bits moves whole
 bytes; Value ties this view to the numeric one.
 */
module LzCopy {

  import opened Basics
  import opened Bits

  /** LZCOMMON_BLOCK */
  const BLOCK: nat := 8

  const ZERO_WORD: seq<Byte> := [0, 0, 0, 0, 0, 0, 0, 0]

  type Word = w: seq<Byte> | |w| == 8 witness ZERO_WORD

  /** (a + 7) & ~7 */
  function RoundUp8(a: nat): (r: nat)
    ensures r % 8 == 0 && a <= r < a + 8
  {
    (a + 7) / 8 * 8
  }

  /** (~a + 1) & 7: how many bytes separate a from the next 8-byte boundary. */
  function AlignOff(a: nat): (r: nat)
    ensures r < 8 && (a + r) % 8 == 0
  {
    (8 - a % 8) % 8
  }

  lemma {:induction false} WordCount(a: nat, b: nat) returns (n: nat)
    requires a % 8 == 0 && b % 8 == 0 && a <= b
    ensures a + 8 * n == b
  {
    n := (b - a) / 8;
  }

  // ---- words -------------------------------------------------------------

  /** w << 8 * k */
  function ShiftUp(w: Word, k: nat): Word
  {
    seq(8, i requires 0 <= i < 8 => if i < k then 0 else w[i - k])
  }

  /** w >> 8 * k */
  function ShiftDown(w: Word, k: nat): Word
  {
    seq(8, i requires 0 <= i < 8 => if i + k < 8 then w[i + k] else 0)
  }

  /** a | b, for words that share no non-zero byte */
  function Or(a: Word, b: Word): (r: Word)
    requires forall i :: 0 <= i < 8 ==> a[i] == 0 || b[i] == 0
  {
    seq(8, i requires 0 <= i < 8 => if a[i] == 0 then b[i] else a[i])
  }

  lemma {:induction false} BytesShiftedUp(zeros: seq<Byte>, lo: seq<Byte>, hi: seq<Byte>)
    requires |zeros| == |hi| && forall i :: 0 <= i < |zeros| ==> zeros[i] == 0
    ensures Value(zeros + lo) == Low(Shl(Value(lo + hi), 8 * |hi|), 8 * |lo| + 8 * |hi|)
  {
    ValueConcat(zeros, lo);
    ValueZeros(zeros);
    ValueBound(lo);
    ValueConcat(lo, hi);
    ShlWraps(Value(lo), Value(hi), 8 * |hi|, 8 * |lo|);
  }

  /** The byte view of a left shift is the numeric one on 64-bit words. */
  lemma {:induction false} ShiftUpValue(w: Word, k: nat)
    requires k <= 8
    ensures Value(ShiftUp(w, k)) == Low(Shl(Value(w), 8 * k), 64)
  {
    var lo, hi := w[..8 - k], w[8 - k..];
    var zeros := ShiftUp(w, k)[..k];
    assert ShiftUp(w, k) == zeros + lo && w == lo + hi;
    BytesShiftedUp(zeros, lo, hi);
  }

  /** The byte view of a right shift is the numeric one. */
  lemma {:induction false} ShiftDownValue(w: Word, k: nat)
    requires k <= 8
    ensures Value(ShiftDown(w, k)) == Shr(Value(w), 8 * k)
  {
    var above := w[k..];
    var zeros := ShiftDown(w, k)[8 - k..];
    assert ShiftDown(w, k) == above + zeros;
    ValueConcat(above, zeros);
    ValueZeros(zeros);
    ShrZero(8 * (8 - k));
    ValueSplit(w, k);
    ValueBound(w[..k]);
    SplitUnique(Value(w[..k]), Value(above), 8 * k);
  }

  /** A load of n bytes at address a, zero extended to a word. */
  function Load(mem: array<Byte>, a: nat, n: nat): Word
    requires n <= 8 && a + n <= mem.Length
    reads mem
  {
    seq(8, i requires 0 <= i < 8 reads mem => if i < n then mem[a + i] else 0)
  }

  /** A store of the n low bytes of w at address a. */
  method Store(mem: array<Byte>, a: nat, n: nat, w: Word)
    requires n <= 8 && a + n <= mem.Length
    modifies mem
    ensures forall i :: a <= i < a + n ==> mem[i] == w[i - a]
    ensures forall i :: 0 <= i < mem.Length && !(a <= i < a + n) ==> mem[i] == old(mem[i])
  {
    forall i | a <= i < a + n {
      mem[i] := w[i - a];
    }
  }

  // ---- what a copy promises ----------------------------------------------

  /** The n bytes that were at s before are at d now. */
  ghost predicate Copied(before: seq<Byte>, after: seq<Byte>, d: nat, s: nat, n: nat)
    requires |before| == |after| && d + n <= |after| && s + n <= |before|
  {
    forall a :: d <= a < d + n ==> after[a] == before[a - d + s]
  }

  /** Nothing outside [lo, hi) changed. */
  ghost predicate SameOutside(before: seq<Byte>, after: seq<Byte>, lo: nat, hi: nat)
  {
    && |before| == |after|
    && forall a :: 0 <= a < |before| && !(lo <= a < hi) ==> after[a] == before[a]
  }

  lemma {:induction false} SameTwice(a: seq<Byte>, b: seq<Byte>, c: seq<Byte>, lo: nat, hi: nat)
    requires SameOutside(a, b, lo, hi) && SameOutside(b, c, lo, hi)
    ensures SameOutside(a, c, lo, hi)
  {
  }

  // ---- copy --------------------------------------------------------------

  /** The tests off & 1, off & 2 and off & 4. */
  method TestBits(off: nat) returns (b0: bool, b1: bool, b2: bool)
    requires off < 8
    ensures off == (if b0 then 1 else 0) + (if b1 then 2 else 0) + (if b2 then 4 else 0)
  {
    b0, b1, b2 := off % 2 == 1, off / 2 % 2 == 1, off / 4 % 2 == 1;
  }

  /** One of the loads in front of the first aligned word: bits |= load << shift */
  method ReadStep(mem: array<Byte>, bits0: Word, src: nat, shift: nat, n: nat) returns (bits: Word)
    requires shift % 8 == 0 && shift < 64 && n <= 8 && src + n <= mem.Length
    requires forall i :: shift / 8 <= i < 8 ==> bits0[i] == 0
    ensures forall i :: 0 <= i < shift / 8 ==> bits[i] == bits0[i]
    ensures forall i :: shift / 8 <= i < 8 ==>
              bits[i] == if i < shift / 8 + n then mem[src + i - shift / 8] else 0
  {
    bits := Or(bits0, ShiftUp(Load(mem, src, n), shift / 8));
  }

  /** lines 36-47: the off bytes in front of the first aligned source word. */
  method ReadHead(mem: array<Byte>, src0: nat, off: nat) returns (bits: Word, shift: nat, src: nat)
    requires off < 8 && src0 + off <= mem.Length
    ensures src == src0 + off && shift == 8 * off
    ensures forall i :: 0 <= i < 8 ==> bits[i] == if i < off then mem[src0 + i] else 0
  {
    var b0, b1, b2 := TestBits(off);
    bits, shift, src := ZERO_WORD, 0, src0;
    if b0 {
      bits := ReadStep(mem, bits, src, shift, 1);
      src, shift := src + 1, shift + 8;
    }
    if b1 {
      bits := ReadStep(mem, bits, src, shift, 2);
      src, shift := src + 2, shift + 16;
    }
    if b2 {
      bits := ReadStep(mem, bits, src, shift, 4);
      src, shift := src + 4, shift + 32;
    }
  }

  /** The first k bytes of a word have been stored at dest0 and shifted out of bits. */
  ghost predicate WroteHead(mem: array<Byte>, m0: seq<Byte>, dest0: nat, head: Word, k: nat, bits: Word)
    requires |m0| == mem.Length
    reads mem
  {
    && (forall i :: 0 <= i < 8 ==> bits[i] == if i + k < 8 then head[i + k] else 0)
    && (forall a {:trigger mem[a]} :: 0 <= a < mem.Length ==> mem[a] == if dest0 <= a < dest0 + k && a < dest0 + 8 then head[a - dest0] else m0[a])
  }

  method WriteStep(mem: array<Byte>, ghost m0: seq<Byte>, ghost dest0: nat, ghost head: Word, ghost k: nat,
                   dest: nat, bits: Word, n: nat) returns (bits': Word)
    requires dest == dest0 + k && k + n <= 8 && dest + n <= mem.Length == |m0|
    requires WroteHead(mem, m0, dest0, head, k, bits)
    modifies mem
    ensures WroteHead(mem, m0, dest0, head, k + n, bits')
  {
    Store(mem, dest, n, bits);
    bits' := ShiftDown(bits, n);
  }

  /** lines 54-67: fill up the destination to its first aligned word. */
  method WriteHead(mem: array<Byte>, dest0: nat, off: nat, head: Word, ghost m0: seq<Byte>)
    returns (bits: Word, dest: nat)
    requires off < 8 && dest0 + off <= mem.Length && m0 == mem[..]
    modifies mem
    ensures dest == dest0 + off
    ensures WroteHead(mem, m0, dest0, head, off, bits)
  {
    var b0, b1, b2 := TestBits(off);
    bits, dest := head, dest0;
    if b0 {
      bits := WriteStep(mem, m0, dest0, head, dest - dest0, dest, bits, 1);
      dest := dest + 1;
    }
    if b1 {
      bits := WriteStep(mem, m0, dest0, head, dest - dest0, dest, bits, 2);
      dest := dest + 2;
    }
    if b2 {
      bits := WriteStep(mem, m0, dest0, head, dest - dest0, dest, bits, 4);
      dest := dest + 4;
    }
  }

  /** Subtraction on u8. */
  function Sub8(x: int, y: int): (r: int)
    requires 0 <= x < 256 && 0 <= y < 256
    ensures r == if y <= x then x - y else x - y + 256
  {
    (x - y) % 256
  }

  /** lines 56, 61, 66 and 70: what is left of the u8 shift after the off bytes, masked with 0x38. */
  method ShiftLeft(srcOff: nat, destOff: nat) returns (shift: nat)
    requires srcOff < 8 && destOff < 8
    ensures shift == if srcOff < destOff then 64 + 8 * srcOff - 8 * destOff else 8 * srcOff - 8 * destOff
  {
    var b0, b1, b2 := TestBits(destOff);
    var left := 8 * srcOff;
    if b0 { left := Sub8(left, 8); }
    if b1 { left := Sub8(left, 16); }
    if b2 { left := Sub8(left, 32); }
    shift := left / 8 % 8 * 8;
  }

  /** Pointers with the same offset in their words, one not inside the other's range, are a word apart. */
  lemma {:induction false} AlignedApart(dest: nat, src: nat, length: nat)
    requires AlignOff(dest) == AlignOff(src) && 8 <= length && !(src <= dest < src + length)
    ensures dest + 8 <= src || src + 8 <= dest
    ensures RoundUp8(dest + length) - dest == RoundUp8(src + length) - src
  {
    var t := (dest - src) / 8;
    assert dest == src + 8 * t;
    assert RoundUp8(src + 8 * t + length) == RoundUp8(src + length) + 8 * t;
  }

  /** The k bytes from src have been copied to dest, nothing else has changed. */
  ghost predicate Moved(mem: array<Byte>, m0: seq<Byte>, dest: nat, src: nat, k: nat)
    requires |m0| == mem.Length && src + k <= |m0|
    reads mem
  {
    forall a {:trigger mem[a]} :: 0 <= a < mem.Length ==> mem[a] == if dest <= a < dest + k then m0[a - dest + src] else m0[a]
  }

  method MoveStep(mem: array<Byte>, ghost m0: seq<Byte>, ghost dest0: nat, ghost src0: nat, ghost k: nat,
                  dest: nat, src: nat, n: nat)
    requires |m0| == mem.Length && n <= 8 && src + n <= mem.Length && dest + n <= mem.Length
    requires dest == dest0 + k && src == src0 + k
    requires dest0 + k <= src0 + k || src0 + k + n <= dest0
    requires Moved(mem, m0, dest0, src0, k)
    modifies mem
    ensures Moved(mem, m0, dest0, src0, k + n)
  {
    var w := Load(mem, src, n);
    assert forall j :: 0 <= j < n ==> w[j] == mem[src + j];
    assert forall a :: src <= a < src + n ==> mem[a] == m0[a];
    Store(mem, dest, n, w);
  }

  /** lines 19-29: move the off bytes in front of two aligned words. */
  method MoveHead(mem: array<Byte>, dest0: nat, src0: nat, off: nat, ghost m0: seq<Byte>)
    returns (dest: nat, src: nat)
    requires off < 8 && src0 + off <= mem.Length && dest0 + off <= mem.Length && m0 == mem[..]
    requires dest0 + off <= src0 || src0 + off <= dest0
    modifies mem
    ensures dest == dest0 + off && src == src0 + off
    ensures Moved(mem, m0, dest0, src0, off)
  {
    var b0, b1, b2 := TestBits(off);
    src, dest := src0, dest0;
    if b0 {
      MoveStep(mem, m0, dest0, src0, dest - dest0, dest, src, 1);
      src, dest := src + 1, dest + 1;
    }
    if b1 {
      MoveStep(mem, m0, dest0, src0, dest - dest0, dest, src, 2);
      src, dest := src + 2, dest + 2;
    }
    if b2 {
      MoveStep(mem, m0, dest0, src0, dest - dest0, dest, src, 4);
      src, dest := src + 4, dest + 4;
    }
  }

  /** What holds between two words of the aligned loop. */
  ghost predicate AlignedState(mem: array<Byte>, m0: seq<Byte>, dest0: nat, src0: nat, length: nat, dest: nat, src: nat)
    requires |m0| == mem.Length && src0 + length <= |m0| && dest <= |m0|
    reads mem
  {
    && dest - dest0 == src - src0
    && (forall a :: dest0 <= a < dest && a < dest0 + length ==> mem[a] == m0[a - dest0 + src0])
    && (forall a :: 0 <= a < mem.Length && !(dest0 <= a < dest) ==> mem[a] == m0[a])
  }

  /** line 32 */
  method AlignedWord(mem: array<Byte>, dest: nat, src: nat,
                     ghost dest0: nat, ghost src0: nat, ghost length: nat, ghost m0: seq<Byte>)
    requires |m0| == mem.Length && src0 + length <= |m0| && src + 8 <= mem.Length && dest + 8 <= mem.Length
    requires src0 <= src && !(src0 <= dest0 < src0 + length)
    requires AlignedState(mem, m0, dest0, src0, length, dest, src)
    modifies mem
    ensures AlignedState(mem, m0, dest0, src0, length, dest + 8, src + 8)
  {
    var x := Load(mem, src, 8);
    assert forall j :: 0 <= j < 8 && src + j < src0 + length ==> x[j] == m0[src + j];
    Store(mem, dest, 8, x);
    assert forall a :: dest <= a < dest + 8 && a < dest0 + length ==> mem[a] == m0[a - dest0 + src0];
  }

  /** lines 18-32: both pointers reach an aligned word together. */
  method CopyAligned(mem: array<Byte>, dest0: nat, src0: nat, length: nat)
    requires 8 <= length
    requires RoundUp8(src0 + length) <= mem.Length && RoundUp8(dest0 + length) <= mem.Length
    requires !(src0 <= dest0 < src0 + length)
    requires AlignOff(src0) == AlignOff(dest0)
    modifies mem
    ensures Copied(old(mem[..]), mem[..], dest0, src0, length)
    ensures SameOutside(old(mem[..]), mem[..], dest0, RoundUp8(dest0 + length))
  {
    ghost var m0 := mem[..];
    var end := RoundUp8(src0 + length);
    AlignedApart(dest0, src0, length);
    var dest, src := MoveHead(mem, dest0, src0, AlignOff(src0), m0);
    ghost var left := WordCount(src, end);
    ghost var destEnd := RoundUp8(dest0 + length);
    while src < end
      invariant src0 <= src <= end && src + 8 * left == end && dest + 8 * left == destEnd
      invariant AlignedState(mem, m0, dest0, src0, length, dest, src)
    {
      AlignedWord(mem, dest, src, dest0, src0, length, m0);
      src, dest, left := src + 8, dest + 8, left - 1;
    }
  }

  lemma {:induction false} FirstWordFits(a: nat, length: nat)
    requires 8 <= length
    ensures a + AlignOff(a) + 8 <= RoundUp8(a + length)
    ensures (a + AlignOff(a)) % 8 == 0 && (a + AlignOff(a) + 8) % 8 == 0
  {
  }

  /** Aligning the destination does not touch the source word that is read again afterwards. */
  lemma {:induction false} HeadApart(dest: nat, src: nat)
    requires AlignOff(src) < AlignOff(dest) && !(src <= dest < src + 8)
    ensures dest + AlignOff(dest) <= src + AlignOff(src) || src + AlignOff(src) + 8 <= dest
  {
  }

  /** lines 36-68: bring the destination to an aligned word. */
  method AlignDest(mem: array<Byte>, dest0: nat, src0: nat, ghost m0: seq<Byte>)
    returns (dest: nat, src: nat, bits: Word)
    requires src0 + AlignOff(src0) + 8 <= mem.Length && dest0 + 8 <= mem.Length && m0 == mem[..]
    requires AlignOff(src0) != AlignOff(dest0)
    modifies mem
    ensures src == src0 + AlignOff(src0) && dest == dest0 + AlignOff(dest0)
    ensures Moved(mem, m0, dest0, src0, AlignOff(dest0))
    ensures AlignOff(dest0) < AlignOff(src0) ==>
              forall i :: 0 <= i < 8 ==> bits[i] == if i + dest - dest0 < src - src0 then m0[src0 + i + dest - dest0] else 0
  {
    var srcOff, destOff := AlignOff(src0), AlignOff(dest0);
    var shift;
    bits, shift, src := ReadHead(mem, src0, srcOff);
    if srcOff < destOff {
      bits := ReadStep(mem, bits, src, shift, 8);
    }
    assert forall i :: 0 <= i < destOff ==> bits[i] == m0[src0 + i];
    bits, dest := WriteHead(mem, dest0, destOff, bits, m0);
  }

  /** lines 36-75: the rest of the last source word read is carried over in bits. */
  method StartShifting(mem: array<Byte>, dest0: nat, src0: nat, ghost m0: seq<Byte>)
    returns (dest: nat, src: nat, bits: Word, shift: nat, ghost carry: nat)
    requires src0 + AlignOff(src0) + 8 <= mem.Length && dest0 + 8 <= mem.Length && m0 == mem[..]
    requires !(src0 <= dest0 < src0 + 8)
    requires AlignOff(src0) != AlignOff(dest0)
    modifies mem
    ensures src == src0 + AlignOff(src0) + if AlignOff(src0) < AlignOff(dest0) then 8 else 0
    ensures dest == dest0 + AlignOff(dest0)
    ensures shift == 8 * carry && 0 < carry < 8 && dest + carry - dest0 == src - src0
    ensures forall i :: 0 <= i < carry ==> bits[i] == m0[src - carry + i]
    ensures forall i :: carry <= i < 8 ==> bits[i] == 0
    ensures Moved(mem, m0, dest0, src0, AlignOff(dest0))
  {
    var srcOff, destOff := AlignOff(src0), AlignOff(dest0);
    dest, src, bits := AlignDest(mem, dest0, src0, m0);
    shift := ShiftLeft(srcOff, destOff);
    carry := if srcOff < destOff then 8 + srcOff - destOff else srcOff - destOff;
    if srcOff < destOff {
      HeadApart(dest0, src0);
      var x := Load(mem, src, 8);
      assert forall j :: 0 <= j < 8 ==> x[j] == m0[src + j];
      bits := ShiftDown(x, (64 - shift) / 8);
      assert forall i :: 0 <= i < 8 ==> bits[i] == if i < carry then x[i + 8 - carry] else 0;
      src := src + 8;
    }
  }

  /** What holds between two words of the shifting loop. */
  ghost predicate ShiftState(mem: array<Byte>, m0: seq<Byte>, dest0: nat, src0: nat, length: nat,
                             dest: nat, src: nat, bits: Word, carry: nat)
    requires |m0| == mem.Length && src0 + length <= |m0| && dest <= |m0|
    reads mem
  {
    && src0 + carry <= src && dest0 <= dest && carry < 8
    && dest + carry - dest0 == src - src0
    && (forall i :: 0 <= i < carry && src - carry + i < src0 + length ==> bits[i] == m0[src - carry + i])
    && (forall i :: carry <= i < 8 ==> bits[i] == 0)
    && (forall a :: dest0 <= a < dest && a < dest0 + length ==> mem[a] == m0[a - dest0 + src0])
    && (forall a :: 0 <= a < mem.Length && !(dest0 <= a < dest) ==> mem[a] == m0[a])
  }

  /** lines 77-81 */
  method ShiftWord(mem: array<Byte>, dest: nat, src: nat, bits: Word, shift: nat,
                   ghost dest0: nat, ghost src0: nat, ghost length: nat, ghost carry: nat, ghost m0: seq<Byte>)
    returns (bits': Word)
    requires shift == 8 * carry && 0 < carry < 8
    requires |m0| == mem.Length && src0 + length <= |m0|
    requires src + 8 <= mem.Length && dest + 8 <= mem.Length
    requires src < src0 + length && !(src0 <= dest0 < src0 + length)
    requires ShiftState(mem, m0, dest0, src0, length, dest, src, bits, carry)
    modifies mem
    ensures ShiftState(mem, m0, dest0, src0, length, dest + 8, src + 8, bits', carry)
  {
    var x := Load(mem, src, 8);
    assert forall j :: 0 <= j < 8 && src + j < src0 + length ==> x[j] == m0[src + j];
    var val := Or(ShiftUp(x, shift / 8), bits);
    assert forall i :: 0 <= i < 8 && src - carry + i < src0 + length ==> val[i] == m0[src - carry + i];
    Store(mem, dest, 8, val);
    assert forall a :: dest <= a < dest + 8 && a < dest0 + length ==> mem[a] == m0[a - dest0 + src0];
    bits' := ShiftDown(x, (64 - shift) / 8);
    assert forall i :: 0 <= i < 8 ==> bits'[i] == if i < carry then x[i + 8 - carry] else 0;
  }

  /** lines 76-87 */
  method CopyShiftedWords(mem: array<Byte>, ghost dest0: nat, ghost src0: nat, ghost length: nat,
                          destFirst: nat, srcFirst: nat, bitsFirst: Word, shift: nat, end: nat, destEnd: nat,
                          ghost carry: nat, ghost leftFirst: nat, ghost destLeftFirst: nat, ghost m0: seq<Byte>)
    requires shift == 8 * carry && 0 < carry < 8
    requires |m0| == mem.Length && end <= mem.Length && destEnd <= mem.Length
    requires src0 + length <= end < src0 + length + 8 && dest0 + length <= destEnd < dest0 + length + 8
    requires srcFirst + 8 * leftFirst == end && destFirst + 8 * destLeftFirst == destEnd
    requires !(src0 <= dest0 < src0 + length)
    requires ShiftState(mem, m0, dest0, src0, length, destFirst, srcFirst, bitsFirst, carry)
    modifies mem
    ensures forall a :: dest0 <= a < dest0 + length ==> mem[a] == m0[a - dest0 + src0]
    ensures forall a :: 0 <= a < mem.Length && !(dest0 <= a < destEnd) ==> mem[a] == m0[a]
  {
    var dest: nat, src: nat, bits := destFirst, srcFirst, bitsFirst;
    ghost var left: int, destLeft: int := leftFirst, destLeftFirst;
    while src < end
      invariant src + 8 * left == end && dest + 8 * destLeft == destEnd
      invariant src <= end && dest <= destEnd
      invariant ShiftState(mem, m0, dest0, src0, length, dest, src, bits, carry)
    {
      bits := ShiftWord(mem, dest, src, bits, shift, dest0, src0, length, carry, m0);
      src, dest, left, destLeft := src + 8, dest + 8, left - 1, destLeft - 1;
    }
    assert src == end;
    if end - src < destEnd - dest {
      assert destLeft == 1;
      assert forall i :: 0 <= i < carry && dest + i < dest0 + length ==> bits[i] == m0[dest + i - dest0 + src0];
      Store(mem, dest, 8, bits);
      assert forall a :: dest0 <= a < dest0 + length ==> mem[a] == m0[a - dest0 + src0];
    } else {
      assert forall a :: dest0 <= a < dest0 + length ==> mem[a] == m0[a - dest0 + src0];
    }
  }

  /** lines 34-87: carry the bytes that do not fit the current destination word over to the next. */
  method CopyShifting(mem: array<Byte>, dest0: nat, src0: nat, length: nat)
    requires 8 <= length
    requires RoundUp8(src0 + length) <= mem.Length && RoundUp8(dest0 + length) <= mem.Length
    requires !(src0 <= dest0 < src0 + length)
    requires AlignOff(src0) != AlignOff(dest0)
    modifies mem
    ensures Copied(old(mem[..]), mem[..], dest0, src0, length)
    ensures SameOutside(old(mem[..]), mem[..], dest0, RoundUp8(dest0 + length))
  {
    ghost var m0 := mem[..];
    var end, destEnd := RoundUp8(src0 + length), RoundUp8(dest0 + length);
    FirstWordFits(src0, length);
    FirstWordFits(dest0, length);
    var dest, src, bits, shift, carry := StartShifting(mem, dest0, src0, m0);
    assert src % 8 == 0 && dest % 8 == 0;
    ghost var left: int := WordCount(src, end);
    ghost var destLeft: int := WordCount(dest, destEnd);
    CopyShiftedWords(mem, dest0, src0, length, dest, src, bits, shift, end, destEnd, carry, left, destLeft, m0);
  }

  /** lines 13-88 */
  method Copy(mem: array<Byte>, dest: nat, src: nat, length: nat)
    requires 8 <= length
    requires RoundUp8(src + length) <= mem.Length && RoundUp8(dest + length) <= mem.Length
    requires !(src <= dest < src + length)
    modifies mem
    ensures Copied(old(mem[..]), mem[..], dest, src, length)
    ensures SameOutside(old(mem[..]), mem[..], dest, RoundUp8(dest + length))
  {
    if AlignOff(src) == AlignOff(dest) {
      CopyAligned(mem, dest, src, length);
    } else {
      CopyShifting(mem, dest, src, length);
    }
  }

  // ---- literal and match copies ------------------------------------------

  /** aarch64/string.S memcpy: a byte loop, front to back. */
  method Memcpy(mem: array<Byte>, dest: nat, src: nat, n: nat)
    requires dest + n <= mem.Length && src + n <= mem.Length
    modifies mem
    ensures forall k :: 0 <= k <= n && !(src <= dest < src + k) ==> Copied(old(mem[..]), mem[..], dest, src, k)
    ensures SameOutside(old(mem[..]), mem[..], dest, dest + n)
  {
    ghost var m0 := mem[..];
    for i := 0 to n
      invariant forall a :: dest <= a < dest + i && !(src <= dest <= a - dest + src) ==> mem[a] == m0[a - dest + src]
      invariant forall a :: 0 <= a < mem.Length && !(dest <= a < dest + i) ==> mem[a] == m0[a]
    {
      mem[dest + i] := mem[src + i];
    }
  }

  /** How far past dest a literal copy of the given length may write. */
  function CopyReach(dest: nat, length: nat): (r: nat)
    ensures dest + length <= r <= dest + length + 8
  {
    if length < BLOCK then dest + BLOCK else RoundUp8(dest + length)
  }

  /** lines 129-135 */
  method LiteralCopy(mem: array<Byte>, dest: nat, src: nat, length: nat)
    requires CopyReach(dest, length) <= mem.Length && CopyReach(src, length) <= mem.Length
    requires !(src <= dest < src + length)
    modifies mem
    ensures Copied(old(mem[..]), mem[..], dest, src, length)
    ensures SameOutside(old(mem[..]), mem[..], dest, CopyReach(dest, length))
  {
    if length < BLOCK {
      Memcpy(mem, dest, src, BLOCK);
    } else {
      Copy(mem, dest, src, length);
    }
  }

  /** What a match of the given distance and length appends to the output so far. */
  function MatchExtend(out: seq<Byte>, dist: nat, length: nat): (r: seq<Byte>)
    requires 0 < dist <= |out|
    ensures |r| == |out| + length
    decreases length
  {
    if length == 0 then out
    else
      var prev := MatchExtend(out, dist, length - 1);
      prev + [prev[|prev| - dist]]
  }

  /** A match repeats: every byte of the result equals the one dist before it. */
  lemma {:induction false} MatchExtendPeriodic(out: seq<Byte>, dist: nat, length: nat)
    requires 0 < dist <= |out|
    ensures MatchExtend(out, dist, length)[..|out|] == out
    ensures forall i :: |out| <= i < |out| + length ==>
              MatchExtend(out, dist, length)[i] == MatchExtend(out, dist, length)[i - dist]
  {
    if length > 0 {
      MatchExtendPeriodic(out, dist, length - 1);
    }
  }

  /** Two extensions of the same prefix with the same period are the same. */
  lemma {:induction false} PeriodicUnique(s: seq<Byte>, out: seq<Byte>, dist: nat, length: nat)
    requires 0 < dist <= |out| && |s| == |out| + length && s[..|out|] == out
    requires forall i :: |out| <= i < |s| ==> s[i] == s[i - dist]
    ensures s == MatchExtend(out, dist, length)
  {
    if length > 0 {
      var t := s[..|s| - 1];
      assert t[..|out|] == out;
      PeriodicUnique(t, out, dist, length - 1);
      assert s == t + [s[|s| - 1]];
    } else {
      assert s == out;
    }
  }

  lemma {:induction false} PeriodicMemory(m0: seq<Byte>, m1: seq<Byte>, start: nat, dest: nat, dist: nat, length: nat)
    requires 0 < dist && start + dist <= dest && dest + length <= |m0| == |m1|
    requires forall a :: start <= a < dest ==> m1[a] == m0[a]
    requires forall a :: dest <= a < dest + length ==> m1[a] == m1[a - dist]
    ensures m1[start..dest + length] == MatchExtend(m0[start..dest], dist, length)
  {
    var s := m1[start..dest + length];
    assert s[..dest - start] == m0[start..dest];
    forall i | dest - start <= i < |s|
      ensures s[i] == s[i - dist]
    {
      assert s[i] == m1[i + start];
      assert s[i - dist] == m1[i + start - dist];
    }
    PeriodicUnique(s, m0[start..dest], dist, length);
  }

  /** lines 137-147: overlapping matches are copied so that they repeat. */
  method MatchBytes(mem: array<Byte>, dest: nat, dist: nat, length: nat)
    requires 0 < dist <= dest
    requires CopyReach(dest, length) <= mem.Length
    modifies mem
    ensures forall a :: dest <= a < dest + length ==> mem[a] == mem[a - dist]
    ensures SameOutside(old(mem[..]), mem[..], dest, CopyReach(dest, length))
  {
    ghost var m0 := mem[..];
    var src := dest - dist;
    if dist >= length {
      LiteralCopy(mem, dest, src, length);
      forall a | dest <= a < dest + length
        ensures mem[a] == mem[a - dist]
      {
        assert mem[..][a] == m0[a - dest + src];
        assert mem[..][a - dist] == m0[a - dist];
      }
    } else if dist == 1 {
      var c := mem[src];
      forall a | dest <= a < dest + length {
        mem[a] := c;
      }
    } else {
      for i := 0 to length
        invariant forall a :: dest <= a < dest + i ==> mem[a] == mem[a - dist]
        invariant forall a :: 0 <= a < mem.Length && !(dest <= a < dest + i) ==> mem[a] == m0[a]
      {
        mem[dest + i] := mem[src + i];
      }
    }
  }

  /** A match copy appends to the output that starts at start what a match is meant to append. */
  method MatchCopy(mem: array<Byte>, dest: nat, dist: nat, length: nat, ghost start: nat)
    requires 0 < dist && start + dist <= dest
    requires CopyReach(dest, length) <= mem.Length
    modifies mem
    ensures mem[start..dest + length] == MatchExtend(old(mem[start..dest]), dist, length)
    ensures SameOutside(old(mem[..]), mem[..], dest, CopyReach(dest, length))
  {
    ghost var m0 := mem[..];
    MatchBytes(mem, dest, dist, length);
    assert m0[start..dest] == old(mem[start..dest]);
    assert mem[..][start..dest + length] == mem[start..dest + length];
    PeriodicMemory(m0, mem[..], start, dest, dist, length);
  }
}
