/**
 compression/inflate.c, huff_block: decoding a Huffman block that may be suspended at any
 symbol, for lack of input or of room, and resumed from skip_bits.
 */
module InflateBlock {
  import opened Basics
  import opened Bits
  import opened Canon
  import opened CanonPrefix
  import opened InflateTable
  import opened LzCopy

  // ---- what a block says ---------------------------------------------------

  /** A code with the table that was built for it. */
  datatype Code = Code(lengths: seq<nat>, w: nat, top: nat, table: seq<nat>, offsets: seq<nat>, list: seq<nat>)

  ghost predicate GoodCode(c: Code)
  {
    && Complete(c.lengths, c.top) && Built(c.lengths, c.w, c.top, c.table, c.offsets, c.list)
    && FILLER <= c.w < 15 && c.top <= 15 && |c.lengths| <= 512
  }

  lemma {:induction false} SomeBegins(lengths: seq<nat>, top: nat, x: nat)
    requires Complete(lengths, top)
    ensures exists s :: Begins(lengths, x, s)
  {
    var s := BeginsExists(lengths, top, x);
  }

  /** The symbol whose codeword x begins with. */
  ghost function SymAt(lengths: seq<nat>, top: nat, x: nat): (s: nat)
    requires Complete(lengths, top)
    ensures Begins(lengths, x, s)
  {
    SomeBegins(lengths, top, x);
    var s :| Begins(lengths, x, s);
    s
  }

  datatype Sym = NoSym | Sym(s: nat, next: nat)
  datatype Num = NoNum | Num(n: nat, next: nat)

  /** The symbol at bit pos of the string v, if all of its codeword is before limit. */
  ghost function ReadSym(c: Code, v: nat, pos: nat, limit: nat): Sym
    requires GoodCode(c)
  {
    var s := SymAt(c.lengths, c.top, Shr(v, pos));
    if pos + c.lengths[s] > limit then NoSym else Sym(s, pos + c.lengths[s])
  }

  function ReadExtra(v: nat, pos: nat, limit: nat, base: nat, extra: nat): Num
  {
    if pos + extra > limit then NoNum else Num(base + Field(v, pos, extra), pos + extra)
  }

  /** lit_extra and lit_base, lines 259-266 and 728-734 */
  function LitExtra(i: nat): nat
  {
    if i < 20 then i / 4 + 1 else 0
  }

  function LitBase(i: nat): nat
  {
    if i == 0 then 11 else LitBase(i - 1) + Pow2(LitExtra(i - 1))
  }

  /** dist_extra and dist_base, lines 267-273 and 736-740 */
  function DistExtra(i: nat): nat
  {
    i / 2 + 1
  }

  function DistBase(i: nat): nat
  {
    if i == 0 then 5 else DistBase(i - 1) + Pow2(DistExtra(i - 1))
  }

  /** lines 463-474, for a symbol above 256. */
  function ReadLength(v: nat, pos: nat, limit: nat, s: nat): Num
    requires s > 256
  {
    if s - 254 < 11 then Num(s - 254, pos) else ReadExtra(v, pos, limit, LitBase(s - 265), LitExtra(s - 265))
  }

  /** lines 478-516 */
  ghost function ReadDist(c: Code, v: nat, pos: nat, limit: nat): Num
    requires GoodCode(c)
  {
    match ReadSym(c, v, pos, limit)
    case NoSym => NoNum
    case Sym(s, next) => if s < 4 then Num(s + 1, next) else ReadExtra(v, next, limit, DistBase(s - 4), DistExtra(s - 4))
  }

  datatype Token =
    | Short
    | Literal(b: nat, next: nat)
    | Match(length: nat, dist: nat, next: nat)
    | Last(next: nat)

  ghost function ReadMatch(dist: Code, v: nat, pos: nat, limit: nat, s: nat): Token
    requires GoodCode(dist) && s > 256
  {
    match ReadLength(v, pos, limit, s)
    case NoNum => Short
    case Num(length, next) =>
      match ReadDist(dist, v, next, limit)
      case NoNum => Short
      case Num(d, next') => Match(length, d, next')
  }

  ghost function ReadToken(lit: Code, dist: Code, v: nat, pos: nat, limit: nat): Token
    requires GoodCode(lit) && GoodCode(dist)
  {
    match ReadSym(lit, v, pos, limit)
    case NoSym => Short
    case Sym(s, next) =>
      if s < 256 then Literal(s, next)
      else if s == 256 then Last(next)
      else ReadMatch(dist, v, next, limit, s)
  }

  lemma {:induction false} MoreInputSameMatch(dist: Code, v: nat, pos: nat, limit: nat, limit': nat, s: nat)
    requires GoodCode(dist) && limit <= limit' && s > 256 && ReadMatch(dist, v, pos, limit, s) != Short
    ensures ReadMatch(dist, v, pos, limit', s) == ReadMatch(dist, v, pos, limit, s)
  {
    var len := ReadLength(v, pos, limit, s);
    assert ReadLength(v, pos, limit', s) == len;
    assert ReadDist(dist, v, len.next, limit') == ReadDist(dist, v, len.next, limit);
  }

  /** What could be read stays the same when there is more input. */
  lemma {:induction false} MoreInputSameToken(lit: Code, dist: Code, v: nat, pos: nat, limit: nat, limit': nat)
    requires GoodCode(lit) && GoodCode(dist) && limit <= limit' && ReadToken(lit, dist, v, pos, limit) != Short
    ensures ReadToken(lit, dist, v, pos, limit') == ReadToken(lit, dist, v, pos, limit)
  {
    var sym := ReadSym(lit, v, pos, limit);
    assert ReadSym(lit, v, pos, limit') == sym;
    if sym.s > 256 {
      MoreInputSameMatch(dist, v, sym.next, limit, limit', sym.s);
    }
  }

  // ---- the register --------------------------------------------------------

  /** bits holds what has been loaded up to ptr and not been used. */
  ghost predicate Reg(data: seq<Byte>, ptr: nat, bits: nat, numBits: nat, pos: nat)
  {
    ptr <= |data| && pos + numBits == 8 * ptr && numBits <= 32 && bits == Held(data, ptr, pos)
  }

  lemma {:induction false} RegUse(data: seq<Byte>, ptr: nat, bits: nat, numBits: nat, pos: nat, n: nat)
    requires Reg(data, ptr, bits, numBits, pos) && n <= numBits
    ensures Reg(data, ptr, Shr(bits, n), numBits - n, pos + n)
    ensures Low(bits, n) == Field(Value(data), pos, n)
  {
    HeldUse(data, ptr, pos, n);
    HeldPeek(data, ptr, pos, n);
  }

  /** As far as the register goes, it begins with the same codewords as the string. */
  lemma {:induction false} RegBegins(c: Code, data: seq<Byte>, ptr: nat, bits: nat, numBits: nat, pos: nat, s: nat)
    requires GoodCode(c) && Reg(data, ptr, bits, numBits, pos) && Begins(c.lengths, bits, s)
    ensures c.lengths[s] <= numBits ==> s == SymAt(c.lengths, c.top, Shr(Value(data), pos))
    ensures c.lengths[s] > numBits ==> c.lengths[SymAt(c.lengths, c.top, Shr(Value(data), pos))] > numBits
  {
    var x := Shr(Value(data), pos);
    var t := SymAt(c.lengths, c.top, x);
    if c.lengths[s] <= numBits {
      RegUse(data, ptr, bits, numBits, pos, c.lengths[s]);
      BeginsUnique(c.lengths, c.top, x, s, t);
    } else if c.lengths[t] <= numBits {
      RegUse(data, ptr, bits, numBits, pos, c.lengths[t]);
      BeginsUnique(c.lengths, c.top, bits, s, t);
    }
  }

  lemma {:induction false} AllAssigned(c: Code, x: nat)
    requires GoodCode(c)
    ensures Assigned(c.lengths, x)
  {
    var s := BeginsExists(c.lengths, c.top, x);
  }

  lemma {:induction false} LengthsBelow(c: Code, s: nat)
    requires GoodCode(c) && s < |c.lengths|
    ensures c.lengths[s] <= 15
  {
  }

  /** lines 428-453 and 478-503 */
  method TakeSym(c: Code, data: seq<Byte>, end: nat, ptr: nat, bits0: nat, numBits0: nat, ghost pos: nat)
    returns (ok: bool, s: nat, bits: nat, numBits: nat, ghost next: nat)
    requires GoodCode(c) && Reg(data, ptr, bits0, numBits0, pos) && ptr <= end && (numBits0 >= 15 || ptr == end)
    ensures ok <==> ReadSym(c, Value(data), pos, 8 * end).Sym?
    ensures ok ==> ReadSym(c, Value(data), pos, 8 * end) == Sym(s, next)
    ensures ok ==> Reg(data, ptr, bits, numBits, next) && numBits0 - 15 <= numBits
  {
    var res;
    ghost var t;
    AllAssigned(c, bits0);
    res, t := LookUp(c.lengths, c.w, c.top, c.table, c.offsets, c.list, bits0, numBits0);
    RegBegins(c, data, ptr, bits0, numBits0, pos, t);
    LengthsBelow(c, t);
    LengthsBelow(c, SymAt(c.lengths, c.top, Shr(Value(data), pos)));
    match res
    case NeedMore =>
      ok, s, bits, numBits, next := false, 0, bits0, numBits0, pos;
    case Found(sym, len) =>
      RegUse(data, ptr, bits0, numBits0, pos, len);
      ok, s, bits, numBits, next := true, sym, Shr(bits0, len), numBits0 - len, pos + len;
  }

  /** lines 465-473 and 506-515 */
  method TakeExtra(data: seq<Byte>, end: nat, ptr: nat, bits0: nat, numBits0: nat, base: nat, extra: nat,
                   ghost pos: nat)
    returns (ok: bool, n: nat, bits: nat, numBits: nat, ghost next: nat)
    requires Reg(data, ptr, bits0, numBits0, pos) && ptr <= end && (numBits0 >= extra || ptr == end)
    ensures ok <==> ReadExtra(Value(data), pos, 8 * end, base, extra).Num?
    ensures ok ==> ReadExtra(Value(data), pos, 8 * end, base, extra) == Num(n, next)
    ensures ok ==> Reg(data, ptr, bits, numBits, next)
  {
    if extra > numBits0 {
      return false, 0, bits0, numBits0, pos;
    }
    RegUse(data, ptr, bits0, numBits0, pos, extra);
    ok, n, bits, numBits, next := true, base + Low(bits0, extra), Shr(bits0, extra), numBits0 - extra, pos + extra;
  }

  lemma {:induction false} LastWord(data: seq<Byte>, ptr: nat, pos: nat, k: nat)
    requires k <= ptr <= |data| && 8 * (ptr - k) <= pos
    ensures Held(data, ptr, pos) == Shr(Value(data[ptr - k..ptr]), pos - 8 * (ptr - k))
  {
    var s, n := data[..ptr], ptr - k;
    ValueSplit(s, n);
    ValueBound(s[..n]);
    SplitUnique(Value(s[..n]), Value(s[n..]), 8 * n);
    assert s[n..] == data[n..ptr];
    ShrSum(Value(s), 8 * n, pos - 8 * n);
  }

  /** REFILL, lines 394-403: load the last four bytes of what will have been read, and drop what has been used. */
  method Refill(data: seq<Byte>, end: nat, ptr0: nat, bits0: nat, numBits0: nat, ghost pos: nat)
    returns (ptr: nat, bits: nat, numBits: nat)
    requires Reg(data, ptr0, bits0, numBits0, pos) && 4 <= ptr0 <= end <= |data|
    ensures Reg(data, ptr, bits, numBits, pos) && ptr0 <= ptr <= end && (numBits >= 25 || ptr == end)
  {
    ptr, bits, numBits := ptr0, bits0, numBits0;
    var readBytes := (32 - numBits) / 8;
    if ptr == end {
      return;
    }
    readBytes := if end - ptr >= readBytes then readBytes else end - ptr;
    numBits := numBits + 8 * readBytes;
    ptr := ptr + readBytes;
    LastWord(data, ptr, pos, 4);
    bits := Shr(Value(data[ptr - 4..ptr]), 32 - numBits);
  }

  /** lines 463-474 */
  method TakeLength(data: seq<Byte>, end: nat, ptr: nat, bits0: nat, numBits0: nat, s: nat, ghost pos: nat)
    returns (ok: bool, n: nat, bits: nat, numBits: nat, ghost next: nat)
    requires Reg(data, ptr, bits0, numBits0, pos) && ptr <= end && s > 256 && (numBits0 >= 5 || ptr == end)
    ensures ok <==> ReadLength(Value(data), pos, 8 * end, s).Num?
    ensures ok ==> ReadLength(Value(data), pos, 8 * end, s) == Num(n, next)
    ensures ok ==> Reg(data, ptr, bits, numBits, next)
  {
    if s - 254 < 11 {
      return true, s - 254, bits0, numBits0, pos;
    }
    ok, n, bits, numBits, next := TakeExtra(data, end, ptr, bits0, numBits0, LitBase(s - 265), LitExtra(s - 265), pos);
  }

  /** lines 475-516 */
  method TakeDist(c: Code, data: seq<Byte>, end: nat, ptr0: nat, bits0: nat, numBits0: nat, ghost pos: nat)
    returns (ok: bool, n: nat, ptr: nat, bits: nat, numBits: nat, ghost next: nat)
    requires GoodCode(c) && |c.lengths| <= 30 && Reg(data, ptr0, bits0, numBits0, pos) && 4 <= ptr0 <= end <= |data|
    ensures ok <==> ReadDist(c, Value(data), pos, 8 * end).Num?
    ensures ok ==> ReadDist(c, Value(data), pos, 8 * end) == Num(n, next)
    ensures ok ==> Reg(data, ptr, bits, numBits, next) && ptr0 <= ptr <= end
  {
    var s;
    n := 0;
    ptr, bits, numBits := Refill(data, end, ptr0, bits0, numBits0, pos);
    ok, s, bits, numBits, next := TakeSym(c, data, end, ptr, bits, numBits, pos);
    if ok {
      if s < 4 {
        n := s + 1;
      } else {
        ptr, bits, numBits := Refill(data, end, ptr, bits, numBits, next);
        ok, n, bits, numBits, next := TakeExtra(data, end, ptr, bits, numBits, DistBase(s - 4), DistExtra(s - 4), next);
      }
    }
  }

  /** lines 428-516: a whole token, or Short when it goes beyond the input. */
  method TakeToken(lit: Code, dist: Code, data: seq<Byte>, end: nat, ptr0: nat, bits0: nat, numBits0: nat,
                   ghost pos: nat)
    returns (t: Token, ptr: nat, bits: nat, numBits: nat, ghost next: nat)
    requires GoodCode(lit) && GoodCode(dist) && |dist.lengths| <= 30 && Reg(data, ptr0, bits0, numBits0, pos)
    requires 4 <= ptr0 <= end <= |data| && (numBits0 >= 25 || ptr0 == end)
    ensures t.Short? <==> ReadToken(lit, dist, Value(data), pos, 8 * end).Short?
    ensures t.Literal? <==> ReadToken(lit, dist, Value(data), pos, 8 * end).Literal?
    ensures t.Match? <==> ReadToken(lit, dist, Value(data), pos, 8 * end).Match?
    ensures t.Literal? ==> ReadToken(lit, dist, Value(data), pos, 8 * end) == Literal(t.b, next)
    ensures t.Match? ==> ReadToken(lit, dist, Value(data), pos, 8 * end) == Match(t.length, t.dist, next)
    ensures t.Last? ==> ReadToken(lit, dist, Value(data), pos, 8 * end) == Last(next)
    ensures !t.Short? ==> Reg(data, ptr, bits, numBits, next) && ptr0 <= ptr <= end
  {
    var ok, s;
    ptr := ptr0;
    ok, s, bits, numBits, next := TakeSym(lit, data, end, ptr, bits0, numBits0, pos);
    if !ok {
      t := Short;
    } else if s < 256 {
      t := Literal(s, 0);
    } else if s == 256 {
      t := Last(0);
    } else {
      var length, d;
      ok, length, bits, numBits, next := TakeLength(data, end, ptr, bits, numBits, s, next);
      if ok {
        ok, d, ptr, bits, numBits, next := TakeDist(dist, data, end, ptr, bits, numBits, next);
      }
      t := if ok then Match(length, d, 0) else Short;
    }
  }

  // ---- what a block does to the output -------------------------------------

  type CrcStep = (nat, Byte) -> nat

  /** The output so far and its running CRC. */
  datatype Out = Out(bytes: seq<Byte>, crc: nat)

  function Emit(step: CrcStep, o: Out, b: Byte): Out
  {
    Out(o.bytes + [b], step(o.crc, b))
  }

  /** lines 527-531 */
  function EmitMatch(step: CrcStep, o: Out, dist: nat, n: nat): (r: Out)
    requires 0 < dist <= |o.bytes|
    ensures |r.bytes| == |o.bytes| + n
  {
    if n == 0 then o
    else
      var prev := EmitMatch(step, o, dist, n - 1);
      Emit(step, prev, prev.bytes[|prev.bytes| - dist])
  }

  lemma {:induction false} EmitMatchBytes(step: CrcStep, o: Out, dist: nat, n: nat)
    requires 0 < dist <= |o.bytes|
    ensures EmitMatch(step, o, dist, n).bytes == MatchExtend(o.bytes, dist, n)
  {
    if n > 0 {
      EmitMatchBytes(step, o, dist, n - 1);
    }
  }

  /** The CRC of a whole string. */
  function CrcOf(step: CrcStep, init: nat, bytes: seq<Byte>): nat
  {
    if bytes == [] then init else step(CrcOf(step, init, bytes[..|bytes| - 1]), bytes[|bytes| - 1])
  }

  lemma {:induction false} EmitKeepsCrc(step: CrcStep, init: nat, o: Out, b: Byte)
    requires o.crc == CrcOf(step, init, o.bytes)
    ensures Emit(step, o, b).crc == CrcOf(step, init, Emit(step, o, b).bytes)
  {
    assert (o.bytes + [b])[..|o.bytes|] == o.bytes;
  }

  lemma {:induction false} EmitMatchKeepsCrc(step: CrcStep, init: nat, o: Out, dist: nat, n: nat)
    requires 0 < dist <= |o.bytes| && o.crc == CrcOf(step, init, o.bytes)
    ensures EmitMatch(step, o, dist, n).crc == CrcOf(step, init, EmitMatch(step, o, dist, n).bytes)
  {
    if n > 0 {
      EmitMatchKeepsCrc(step, init, o, dist, n - 1);
      var prev := EmitMatch(step, o, dist, n - 1);
      EmitKeepsCrc(step, init, prev, prev.bytes[|prev.bytes| - dist]);
    }
  }

  /** The block: its codes, the bit string, the CRC. */
  datatype Block = Block(lit: Code, dist: Code, v: nat, step: CrcStep)

  /** The alphabets are those of lines 328-330. */
  ghost predicate GoodBlock(b: Block)
  {
    GoodCode(b.lit) && GoodCode(b.dist) && |b.lit.lengths| <= 286 && |b.dist.lengths| <= 30
  }

  datatype State = State(pos: nat, o: Out)
  datatype Next = More(s: State) | Finished(pos: nat) | Starved | Wrong

  /** The length of a match: 258 has its own symbol and must not be written otherwise (lines 518-521). */
  function MatchLength(length: nat): nat
  {
    if length >= 258 then 258 else length
  }

  ghost function ApplyToken(step: CrcStep, t: Token, o: Out): Next
  {
    match t
    case Short => Starved
    case Literal(c, next) => if c < 256 then More(State(next, Emit(step, o, c))) else Wrong
    case Last(next) => Finished(next)
    case Match(length, dist, next) =>
      if dist == 0 || dist > |o.bytes| || length == 258 then Wrong
      else More(State(next, EmitMatch(step, o, dist, MatchLength(length))))
  }

  ghost function NextState(b: Block, limit: nat, s: State): Next
    requires GoodBlock(b)
  {
    ApplyToken(b.step, ReadToken(b.lit, b.dist, b.v, s.pos, limit), s.o)
  }

  type Stepper = State -> Next

  ghost function NextOf(b: Block, limit: nat): Stepper
    requires GoodBlock(b)
  {
    s => NextState(b, limit, s)
  }

  /** n tokens lead from s to e. */
  ghost predicate Reaches(next: Stepper, s: State, n: nat, e: State)
    decreases n
  {
    if n == 0 then s == e else next(s).More? && Reaches(next, next(s).s, n - 1, e)
  }

  lemma {:induction false} ReachesJoin(next: Stepper, s: State, n: nat, e: State, m: nat, f: State)
    requires Reaches(next, s, n, e) && Reaches(next, e, m, f)
    ensures Reaches(next, s, n + m, f)
    decreases n
  {
    if n > 0 {
      ReachesJoin(next, next(s).s, n - 1, e, m, f);
    }
  }

  lemma {:induction false} ReachesStep(next: Stepper, s: State, n: nat, e: State, f: State)
    requires Reaches(next, s, n, e) && next(e) == More(f)
    ensures Reaches(next, s, n + 1, f)
  {
    assert Reaches(next, f, 0, f) && Reaches(next, e, 1, f);
    ReachesJoin(next, s, n, e, 1, f);
  }

  /** next' goes on where next did, and where next had too little input perhaps further. */
  ghost predicate Extends(next: Stepper, next': Stepper)
  {
    forall s :: next(s) != Starved ==> next'(s) == next(s)
  }

  lemma {:induction false} MoreInputExtends(b: Block, limit: nat, limit': nat)
    requires GoodBlock(b) && limit <= limit'
    ensures Extends(NextOf(b, limit), NextOf(b, limit'))
  {
    forall s | NextOf(b, limit)(s) != Starved ensures NextOf(b, limit')(s) == NextOf(b, limit)(s) {
      MoreInputSameToken(b.lit, b.dist, b.v, s.pos, limit, limit');
    }
  }

  lemma {:induction false} ReachesMoreInput(next: Stepper, next': Stepper, s: State, n: nat, e: State)
    requires Extends(next, next') && Reaches(next, s, n, e)
    ensures Reaches(next', s, n, e)
    decreases n
  {
    if n > 0 {
      ReachesMoreInput(next, next', next(s).s, n - 1, e);
    }
  }

  /** There is one state from which there is no way on. */
  lemma {:induction false} EndUnique(next: Stepper, s: State, n: nat, e: State, m: nat, f: State)
    requires Reaches(next, s, n, e) && Reaches(next, s, m, f) && !next(e).More? && !next(f).More?
    ensures e == f && n == m
    decreases n
  {
    if n > 0 && m > 0 {
      EndUnique(next, next(s).s, n - 1, e, m - 1, f);
    }
  }

  // ---- one round of the loop -----------------------------------------------

  ghost predicate At(s: State)
  {
    true
  }

  /** next is what the block says, with the input up to limit. */
  ghost predicate Does(next: Stepper, b: Block, limit: nat)
  {
    forall s {:trigger At(s)} :: At(s) ==> GoodBlock(b) && next(s) == NextState(b, limit, s)
  }

  lemma {:induction false} DistBaseEven(k: nat)
    ensures DistBase(2 * k) == 1 + 2 * Pow2(k + 1)
  {
    if k > 0 {
      DistBaseEven(k - 1);
      assert DistBase(2 * k) == DistBase(2 * k - 1) + Pow2(DistExtra(2 * k - 1));
      assert DistBase(2 * k - 1) == DistBase(2 * k - 2) + Pow2(DistExtra(2 * k - 2));
    }
  }

  lemma {:induction false} DistBaseGrows(i: nat, j: nat)
    requires i <= j
    ensures DistBase(i) <= DistBase(j)
  {
    if i < j {
      DistBaseGrows(i, j - 1);
    }
  }

  lemma {:induction false} LogOf8192() returns (k: nat)
    ensures Pow2(k) == 8192 && k >= 13
  {
    k := 13;
    assert Pow2(7) == 128 && Pow2(6) == 64;
    Pow2Sum(7, 6);
  }

  lemma {:induction false} ExtraDistAtMost(v: nat, pos: nat, limit: nat, s: nat)
    requires 4 <= s < 30 && ReadExtra(v, pos, limit, DistBase(s - 4), DistExtra(s - 4)).Num?
    ensures 1 <= ReadExtra(v, pos, limit, DistBase(s - 4), DistExtra(s - 4)).n <= 32768
  {
    var k := LogOf8192();
    DistBaseGrows(s - 3, 2 * k);
    DistBaseGrows(0, s - 4);
    DistBaseEven(k);
    assert DistBase(s - 3) == DistBase(s - 4) + Pow2(DistExtra(s - 4));
  }

  /** No distance is above 32768. */
  lemma {:induction false} DistAtMost(c: Code, v: nat, pos: nat, limit: nat)
    requires GoodCode(c) && |c.lengths| <= 30 && ReadDist(c, v, pos, limit).Num?
    ensures 1 <= ReadDist(c, v, pos, limit).n <= 32768
  {
    var sym := ReadSym(c, v, pos, limit);
    if sym.s >= 4 {
      ExtraDistAtMost(v, sym.next, limit, sym.s);
    }
  }

  /** As much of the output as a distance can reach lies behind windowStart. */
  ghost predicate Window(windowStart: nat, out: nat)
  {
    windowStart <= out && (windowStart == 0 || out - windowStart >= 32768)
  }

  datatype Round = Went | NoData | NoRoom | Failed | BlockEnds

  /** lines 527-531 */
  method CopyMatch(buf: array<Byte>, out0: nat, dist: nat, length: nat, crc0: nat, step: CrcStep)
    returns (out: nat, crc: nat)
    requires 0 < dist <= out0 && 0 < length && out0 + length <= buf.Length
    modifies buf
    ensures out == out0 + length && Out(buf[..out], crc) == EmitMatch(step, Out(old(buf[..out0]), crc0), dist, length)
  {
    out, crc := out0, crc0;
    var left := length;
    ghost var o := Out(buf[..out0], crc0);
    while left > 0
      invariant left <= length && out == out0 + (length - left)
      invariant Out(buf[..out], crc) == EmitMatch(step, o, dist, length - left)
    {
      var c := buf[out - dist];
      assert c == buf[..out][|buf[..out]| - dist];
      ghost var before := buf[..out];
      buf[out] := c;
      assert buf[..out + 1] == before + [c];
      out, crc, left := out + 1, step(crc, c), left - 1;
    }
  }

  lemma {:induction false} TokenForward(lit: Code, dist: Code, v: nat, pos: nat, limit: nat)
    requires GoodCode(lit) && GoodCode(dist)
    ensures !ReadToken(lit, dist, v, pos, limit).Short? ==> ReadToken(lit, dist, v, pos, limit).next >= pos
  {
    var sym := ReadSym(lit, v, pos, limit);
    if sym.Sym? && sym.s > 256 {
      var len := ReadLength(v, sym.next, limit, sym.s);
      if len.Num? {
        var d := ReadDist(dist, v, len.next, limit);
        assert d.Num? ==> d.next >= len.next;
      }
    }
  }

  lemma {:induction false} TokenNext(next: Stepper, b: Block, limit: nat, s: State, t: Token)
    requires Does(next, b, limit) && GoodBlock(b) && t == ReadToken(b.lit, b.dist, b.v, s.pos, limit)
    ensures next(s) == ApplyToken(b.step, t, s.o)
    ensures t.Match? ==> 1 <= t.dist <= 32768 && 3 <= t.length
    ensures !t.Short? ==> t.next >= s.pos
  {
    TokenForward(b.lit, b.dist, b.v, s.pos, limit);
    assert At(s);
    if t.Match? {
      MatchBounds(b, s.pos, limit);
    }
  }

  lemma {:induction false} LitBaseGrows(i: nat)
    ensures LitBase(i) >= 11
  {
    if i > 0 {
      LitBaseGrows(i - 1);
    }
  }

  lemma {:induction false} MatchBounds(b: Block, pos: nat, limit: nat)
    requires GoodBlock(b) && ReadToken(b.lit, b.dist, b.v, pos, limit).Match?
    ensures 1 <= ReadToken(b.lit, b.dist, b.v, pos, limit).dist <= 32768
    ensures 3 <= ReadToken(b.lit, b.dist, b.v, pos, limit).length
  {
    var sym := ReadSym(b.lit, b.v, pos, limit);
    var len := ReadLength(b.v, sym.next, limit, sym.s);
    DistAtMost(b.dist, b.v, len.next, limit);
    if sym.s - 254 >= 11 {
      LitBaseGrows(sym.s - 265);
    }
  }

  /** lines 460-461 */
  method PutLiteral(buf: array<Byte>, out0: nat, c: Byte, crc0: nat, step: CrcStep) returns (out: nat, crc: nat)
    requires out0 < buf.Length
    modifies buf
    ensures out == out0 + 1 && Out(buf[..out], crc) == Emit(step, Out(old(buf[..out0]), crc0), c)
  {
    buf[out0] := c;
    out, crc := out0 + 1, step(crc0, c);
    assert buf[..out] == old(buf[..out0]) + [c];
  }

  /** lines 454-461 and 517-540 for a token that has been read: r says how it went, without it nothing is written. */
  method WriteToken(t: Token, buf: array<Byte>, out0: nat, outEnd: nat, windowStart: nat, crc0: nat, step: CrcStep,
                    ghost next: Next)
    returns (r: Round, out: nat, crc: nat)
    requires out0 <= outEnd <= buf.Length && Window(windowStart, out0) && !t.Short?
    requires t.Match? ==> 1 <= t.dist <= 32768 && 3 <= t.length
    requires t.Literal? ==> t.b < 256
    requires next == ApplyToken(step, t, Out(buf[..out0], crc0))
    modifies buf
    ensures r.Went? || r.NoRoom? || r.Failed? || r.BlockEnds?
    ensures r.Went? <==> next.More? && |next.s.o.bytes| <= outEnd
    ensures r.Went? ==> out0 < out <= outEnd && next.s.o == Out(buf[..out], crc)
    ensures r.NoRoom? <==> next.More? && |next.s.o.bytes| > outEnd
    ensures r.Failed? <==> next == Wrong
    ensures r.BlockEnds? <==> next.Finished?
    ensures !r.Went? ==> out == out0 && crc == crc0 && buf[..] == old(buf[..])
  {
    out, crc := out0, crc0;
    match t
    case Literal(c, _) =>
      if out >= outEnd {
        return NoRoom, out, crc;
      }
      out, crc := PutLiteral(buf, out, c, crc, step);
      r := Went;
    case Last(_) =>
      r := BlockEnds;
    case Match(length0, dist, _) =>
      if dist > out - windowStart {
        return Failed, out, crc;
      }
      var length := length0;
      if length >= 258 {
        if length == 258 {
          return Failed, out, crc;
        }
        length := 258;
      }
      if outEnd - out < length {
        return NoRoom, out, crc;
      }
      out, crc := CopyMatch(buf, out, dist, length, crc, step);
      r := Went;
  }

  /** One round of lines 424-543. After it the register is full again. */
  method OneRound(b: Block, data: seq<Byte>, end: nat, ptr0: nat, bits0: nat, numBits0: nat, buf: array<Byte>,
                  out0: nat, outEnd: nat, windowStart: nat, crc0: nat, ghost s: State, ghost next: Stepper)
    returns (r: Round, ptr: nat, bits: nat, numBits: nat, out: nat, crc: nat, ghost pos: nat)
    requires GoodBlock(b) && b.v == Value(data) && Does(next, b, 8 * end)
    requires Reg(data, ptr0, bits0, numBits0, s.pos) && 4 <= ptr0 <= end <= |data| && (numBits0 >= 25 || ptr0 == end)
    requires out0 <= outEnd <= buf.Length && Window(windowStart, out0) && s.o == Out(buf[..out0], crc0)
    modifies buf
    ensures r.Went? <==> next(s).More? && |next(s).s.o.bytes| <= outEnd
    ensures r.Went? ==> out0 < out <= outEnd && next(s).s == State(pos, Out(buf[..out], crc))
    ensures r.NoData? <==> next(s) == Starved
    ensures r.NoRoom? <==> next(s).More? && |next(s).s.o.bytes| > outEnd
    ensures r.Failed? <==> next(s) == Wrong
    ensures r.BlockEnds? <==> next(s).Finished?
    ensures r.BlockEnds? ==> next(s).pos == pos
    ensures r.Went? || r.BlockEnds? ==> Reg(data, ptr, bits, numBits, pos) && ptr0 <= ptr <= end && s.pos <= pos
    ensures r.Went? ==> numBits >= 25 || ptr == end
    ensures !r.Went? ==> out == out0 && crc == crc0 && buf[..] == old(buf[..])
  {
    var t;
    t, ptr, bits, numBits, pos := TakeToken(b.lit, b.dist, data, end, ptr0, bits0, numBits0, s.pos);
    ghost var token := ReadToken(b.lit, b.dist, b.v, s.pos, 8 * end);
    TokenNext(next, b, 8 * end, s, token);
    if t.Short? {
      return NoData, ptr0, bits0, numBits0, out0, crc0, s.pos;
    }
    if token.Literal? {
      LiteralBelow(b.lit, b.dist, b.v, s.pos, 8 * end);
    }
    r, out, crc := WriteToken(t, buf, out0, outEnd, windowStart, crc0, b.step, ApplyToken(b.step, t, s.o));
    if r.Went? {
      ptr, bits, numBits := Refill(data, end, ptr, bits, numBits, pos);
    }
  }

  lemma {:induction false} LiteralBelow(lit: Code, dist: Code, v: nat, pos: nat, limit: nat)
    requires GoodCode(lit) && GoodCode(dist) && ReadToken(lit, dist, v, pos, limit).Literal?
    ensures ReadToken(lit, dist, v, pos, limit).b < 256
  {
  }

  /** REFILL_LOOP into an empty register, and the bits of the first byte that are done with: lines 420-421. */
  method FirstFill(data: seq<Byte>, start: nat, end: nat, skip: nat) returns (ptr: nat, bits: nat, numBits: nat)
    requires start + 4 <= end <= |data| && skip < 8
    ensures Reg(data, ptr, bits, numBits, 8 * start + skip) && start + 4 <= ptr <= end && numBits >= 25
  {
    ptr, bits, numBits := start, 0, 0;
    NothingHeld(data, start);
    while numBits < 25 && ptr < end
      invariant Reg(data, ptr, bits, numBits, 8 * start) && start <= ptr <= end && numBits == 8 * (ptr - start) <= 32
    {
      HeldFetch(data, ptr, 8 * start);
      bits := bits + Shl(data[ptr], numBits);
      ptr, numBits := ptr + 1, numBits + 8;
    }
    RegUse(data, ptr, bits, numBits, 8 * start, skip);
    bits, numBits := Shr(bits, skip), numBits - skip;
  }

  lemma {:induction false} NothingHeld(data: seq<Byte>, start: nat)
    requires start <= |data|
    ensures Held(data, start, 8 * start) == 0
  {
    ValueBound(data[..start]);
    LowSmall(Value(data[..start]), 8 * start);
  }

  // ---- huff_block ----------------------------------------------------------

  datatype Result = Error | NeedMoreSpace | NeedMoreData | Consumed(n: nat, done: bool)

  /** Where the position is when ptr - start - (num_bits + 7) / 8 bytes count as consumed. */
  lemma {:induction false} ConsumedPos(start: nat, ptr: nat, numBits: nat, pos: nat)
    requires pos + numBits == 8 * ptr && pos >= 8 * start
    ensures 0 <= ptr - start - (numBits + 7) / 8
    ensures pos == 8 * (start + (ptr - start - (numBits + 7) / 8)) + (8 - numBits) % 8
  {
  }

  class Decoder {
    var skipBits: nat
    var crc: nat
    var isize: nat
    var out: nat
    var outEnd: nat
    var windowStart: nat
    const buf: array<Byte>

    ghost predicate Valid()
      reads this
    {
      skipBits < 8 && out <= outEnd <= buf.Length && Window(windowStart, out)
    }

    /** The bit position and the output, with the input continuing at byte start. */
    ghost function At(start: nat): State
      requires Valid()
      reads this, buf
    {
      State(8 * start + skipBits, Out(buf[..out], crc))
    }

    constructor (b: array<Byte>, size: nat)
      requires size <= b.Length
      ensures Valid() && buf == b && out == 0 && outEnd == size
    {
      buf, skipBits, crc, isize, out, outEnd, windowStart := b, 0, 0xffff_ffff, 0, 0, size, 0;
    }

    /** lines 545-559: what is kept when a call ends after the token that pos is behind. */
    method Save(start: nat, ptr: nat, numBits: nat, newOut: nat, newCrc: nat, ghost pos: nat) returns (n: nat)
      requires Valid() && out <= newOut <= outEnd && pos + numBits == 8 * ptr && pos >= 8 * start
      modifies this
      ensures Valid() && out == newOut && crc == newCrc && outEnd == old(outEnd)
      ensures pos == 8 * (start + n) + skipBits && start + n <= ptr
      ensures isize == (old(isize) + newOut - old(out)) % 0x1_0000_0000
    {
      ConsumedPos(start, ptr, numBits, pos);
      n := ptr - start - (numBits + 7) / 8;
      skipBits := (8 - numBits) % 8;
      isize := (isize + (newOut - out)) % 0x1_0000_0000;
      out := newOut;
      crc := newCrc;
      if out - windowStart > 32768 {
        windowStart := out - 32768;
      }
    }

    /**
     huff_block. Whatever ends a call, k tokens have been taken from where it began to e, and
     the state that is left is that of e.
     */
    method HuffBlock(b: Block, data: seq<Byte>, start: nat, end: nat, ghost next: Stepper)
      returns (res: Result, ghost k: nat, ghost e: State)
      requires Valid() && GoodBlock(b) && b.v == Value(data) && Does(next, b, 8 * end) && start <= end <= |data|
      modifies this, buf
      ensures end - start < 4 ==> res == NeedMoreData && unchanged(this) && unchanged(buf)
      ensures end - start >= 4 ==> Reaches(next, old(At(start)), k, e)
      ensures end - start >= 4 ==> (res == Error <==> next(e) == Wrong)
      ensures end - start >= 4 && res != Error ==> Valid() && outEnd == old(outEnd) && e.o == At(start).o
      ensures end - start >= 4 && res != Error ==> isize == (old(isize) + out - old(out)) % 0x1_0000_0000
      ensures end - start >= 4 && (res == NeedMoreData || res == NeedMoreSpace) ==> k == 0 && e == At(start)
      ensures end - start >= 4 && res == NeedMoreData ==> next(e) == Starved
      ensures end - start >= 4 && res == NeedMoreSpace ==> next(e).More? && |next(e).s.o.bytes| > outEnd
      ensures res.Consumed? && !res.done ==> k > 0 && e == At(start + res.n)
      ensures res.Consumed? && !res.done ==> next(e) == Starved || (next(e).More? && |next(e).s.o.bytes| > outEnd)
      ensures res.Consumed? && res.done ==> next(e) == Finished(At(start + res.n).pos)
      ensures res.Consumed? ==> start + res.n <= end
    {
      k := 0;
      if end - start < 4 {
        return NeedMoreData, 0, At(start);
      }
      e := At(start);
      ghost var first := e;
      var ptr: nat, bits: nat, numBits: nat := FirstFill(data, start, end, skipBits);
      var o: nat, c: nat, r := out, crc, Went;
      assert Reaches(next, first, 0, e);
      while true
        invariant Reg(data, ptr, bits, numBits, e.pos) && start + 4 <= ptr <= end && (numBits >= 25 || ptr == end)
        invariant e.pos >= 8 * start
        invariant Valid() && out <= o <= outEnd && e.o == Out(buf[..o], c) && outEnd == old(outEnd)
        invariant isize == old(isize) && out == old(out)
        invariant Reaches(next, first, k, e) && Window(windowStart, o)
        invariant if k == 0 then e == first && o == out else o > out
        decreases outEnd - o
      {
        var ptr', bits', numBits';
        ghost var pos';
        r, ptr', bits', numBits', o, c, pos' := OneRound(b, data, end, ptr, bits, numBits, buf, o, outEnd, windowStart, c, e, next);
        if !r.Went? {
          if r.BlockEnds? {
            ptr, bits, numBits := ptr', bits', numBits';
          }
          break;
        }
        ReachesStep(next, first, k, e, next(e).s);
        k, e := k + 1, next(e).s;
        ptr, bits, numBits := ptr', bits', numBits';
      }
      if r.Failed? {
        return Error, k, e;
      }
      var grown := o > out;
      var n := Save(start, ptr, numBits, o, c, if r.BlockEnds? then next(e).pos else e.pos);
      if r.BlockEnds? {
        res := Consumed(n, true);
      } else if grown {
        res := Consumed(n, false);
      } else {
        assert n == 0 && skipBits == old(skipBits);
        res := if r.NoData? then NeedMoreData else NeedMoreSpace;
      }
    }
  }

  // ---- suspended and resumed -----------------------------------------------

  lemma {:induction false} NextDoes(b: Block, limit: nat)
    requires GoodBlock(b)
    ensures Does(NextOf(b, limit), b, limit)
  {
  }

  /** A call, which sees less of the input, goes on where those before it have got to. */
  lemma {:induction false} CallJoins(near: Stepper, next: Stepper, s: State, k: nat, e: State, n: nat, f: State)
    requires Extends(near, next) && Reaches(next, s, k, e) && Reaches(near, e, n, f)
    ensures Reaches(next, s, k + n, f) && (near(f) != Starved ==> next(f) == near(f))
  {
    ReachesMoreInput(near, next, e, n, f);
    ReachesJoin(next, s, k, e, n, f);
  }

  datatype Ending = BlockDone | BlockWrong | Unfinished

  /** The decoder has consumed total bytes and is at e, which k tokens of the block lead to. */
  ghost predicate Standing(d: Decoder, next: Stepper, s: State, k: nat, e: State, total: nat)
    reads d, d.buf
  {
    d.Valid() && Reaches(next, s, k, e) && e == d.At(total)
  }

  /** What is left when the block is over, or is wrong. */
  ghost predicate Over(d: Decoder, next: Stepper, s: State, k: nat, e: State, total: nat, res: Ending)
    reads d, d.buf
  {
    && Reaches(next, s, k, e)
    && (res == BlockWrong ==> next(e) == Wrong)
    && (res == BlockDone ==> d.Valid() && next(e) == Finished(8 * total + d.skipBits) && e.o == Out(d.buf[..d.out], d.crc))
  }

  /** One call of a decoder that has consumed start bytes. */
  method OneCall(d: Decoder, b: Block, data: seq<Byte>, start: nat, end: nat, ghost near: Stepper, ghost next: Stepper,
                 ghost s: State, ghost k0: nat, ghost e0: State)
    returns (res: Ending, n: nat, ghost k: nat, ghost e: State)
    requires GoodBlock(b) && b.v == Value(data) && start <= end <= |data| && Does(near, b, 8 * end)
    requires Extends(near, next)
    requires Standing(d, next, s, k0, e0, start)
    modifies d, d.buf
    ensures res == Unfinished ==> Standing(d, next, s, k, e, start + n)
    ensures res != Unfinished ==> Over(d, next, s, k, e, start + n, res)
    ensures res != BlockWrong ==> start + n <= end && d.outEnd == old(d.outEnd)
    ensures res != BlockWrong ==> (d.isize - d.out) % 0x1_0000_0000 == old(d.isize - d.out) % 0x1_0000_0000
  {
    var r;
    ghost var m, f, size, o := 0, e0, d.isize, d.out;
    k, e, n := k0, e0, 0;
    r, m, f := d.HuffBlock(b, data, start, end, near);
    if end - start < 4 {
      return Unfinished, 0, k0, e0;
    }
    SizeFollows(size, o, d.isize, d.out);
    CallJoins(near, next, s, k0, e0, m, f);
    k, e := k0 + m, f;
    match r
    case Error => res := BlockWrong;
    case NeedMoreSpace => res := Unfinished;
    case NeedMoreData => res := Unfinished;
    case Consumed(c, done) => res, n := if done then BlockDone else Unfinished, c;
  }

  lemma {:induction false} SizeFollows(size: nat, o: nat, size': nat, o': nat)
    ensures size' == (size + o' - o) % 0x1_0000_0000 ==> (size' - o') % 0x1_0000_0000 == (size - o) % 0x1_0000_0000
  {
  }

  ghost predicate Growing(s: seq<nat>, limit: nat)
  {
    (forall i :: 0 <= i < |s| ==> s[i] <= limit) && forall i, j :: 0 <= i <= j < |s| ==> s[i] <= s[j]
  }

  /** nears are the steps that the calls take, next those that all of the input allows. */
  ghost predicate AllNear(nears: seq<Stepper>, next: Stepper, b: Block, ends: seq<nat>)
  {
    |nears| == |ends| && forall i :: 0 <= i < |ends| ==> Does(nears[i], b, 8 * ends[i]) && Extends(nears[i], next)
  }

  ghost function NearsOf(b: Block, ends: seq<nat>, limit: nat): (nears: seq<Stepper>)
    requires GoodBlock(b) && forall i :: 0 <= i < |ends| ==> ends[i] <= limit
    ensures AllNear(nears, NextOf(b, 8 * limit), b, ends)
  {
    var nears := seq(|ends|, i requires 0 <= i < |ends| => NextOf(b, 8 * ends[i]));
    assert AllNear(nears, NextOf(b, 8 * limit), b, ends) by {
      forall i | 0 <= i < |ends| ensures Does(nears[i], b, 8 * ends[i]) && Extends(nears[i], NextOf(b, 8 * limit)) {
        NextDoes(b, 8 * ends[i]);
        MoreInputExtends(b, 8 * ends[i], 8 * limit);
      }
    }
    nears
  }

  /**
   Call after call, the i-th with the input up to ends[i] and the room up to rooms[i], until
   the block is over.
   */
  method DecodeInCalls(d: Decoder, b: Block, data: seq<Byte>, ends: seq<nat>, rooms: seq<nat>,
                       ghost nears: seq<Stepper>, ghost next: Stepper)
    returns (res: Ending, total: nat, ghost k: nat, ghost e: State)
    requires d.Valid() && GoodBlock(b) && b.v == Value(data) && |ends| == |rooms| && Growing(ends, |data|)
    requires Growing(rooms, d.buf.Length)
    requires AllNear(nears, next, b, ends) && (rooms != [] ==> d.out <= rooms[0])
    modifies d, d.buf
    ensures res == Unfinished ==> Standing(d, next, old(d.At(0)), k, e, total)
    ensures res != Unfinished ==> Over(d, next, old(d.At(0)), k, e, total, res)
    ensures res != BlockWrong ==> (d.isize - d.out) % 0x1_0000_0000 == old(d.isize - d.out) % 0x1_0000_0000
  {
    ghost var s := d.At(0);
    res, total, k, e := Unfinished, 0, 0, s;
    for i := 0 to |ends|
      invariant res == Unfinished && Standing(d, next, s, k, e, total)
      invariant i < |ends| ==> total <= ends[i] && d.out <= rooms[i]
      invariant (d.isize - d.out) % 0x1_0000_0000 == old(d.isize - d.out) % 0x1_0000_0000
    {
      d.outEnd := rooms[i];
      var n;
      res, n, k, e := OneCall(d, b, data, total, ends[i], nears[i], next, s, k, e);
      total := total + n;
      if res != Unfinished {
        return;
      }
    }
  }

  /** With the steps that the block says. */
  method DecodeBlock(d: Decoder, b: Block, data: seq<Byte>, ends: seq<nat>, rooms: seq<nat>)
    returns (res: Ending, total: nat, ghost k: nat, ghost e: State)
    requires d.Valid() && GoodBlock(b) && b.v == Value(data) && |ends| == |rooms| && Growing(ends, |data|)
    requires Growing(rooms, d.buf.Length)
    requires rooms != [] ==> d.out <= rooms[0]
    modifies d, d.buf
    ensures res == Unfinished ==> Standing(d, NextOf(b, 8 * |data|), old(d.At(0)), k, e, total)
    ensures res != Unfinished ==> Over(d, NextOf(b, 8 * |data|), old(d.At(0)), k, e, total, res)
    ensures res != BlockWrong ==> (d.isize - d.out) % 0x1_0000_0000 == old(d.isize - d.out) % 0x1_0000_0000
  {
    res, total, k, e := DecodeInCalls(d, b, data, ends, rooms, NearsOf(b, ends, |data|), NextOf(b, 8 * |data|));
  }

  /**
   However the input and the room were divided among the calls: when the block is over in
   both, two decoders that began alike have consumed the same number of bytes and have the
   same bits to skip, the same output and the same CRC; and it is wrong in both or in none.
   */
  lemma {:induction false} ResumedEqualsWhole(d: Decoder, d': Decoder, next: Stepper, s: State, k: nat, e: State,
                                              total: nat, res: Ending, k': nat, e': State, total': nat, res': Ending)
    requires Over(d, next, s, k, e, total, res) && Over(d', next, s, k', e', total', res') && res != Unfinished
    requires res' != Unfinished
    ensures e == e' && res == res'
    ensures res == BlockDone ==> total == total' && d.skipBits == d'.skipBits && d.crc == d'.crc
    ensures res == BlockDone ==> d.buf[..d.out] == d'.buf[..d'.out]
  {
    EndUnique(next, s, k, e, k', e');
  }

  ghost predicate KeepsCrc(next: Stepper, step: CrcStep, init: nat)
  {
    forall s :: next(s).More? && s.o.crc == CrcOf(step, init, s.o.bytes) ==>
      next(s).s.o.crc == CrcOf(step, init, next(s).s.o.bytes) && s.o.bytes <= next(s).s.o.bytes
  }

  lemma {:induction false} CrcKept(next: Stepper, step: CrcStep, init: nat, s: State, n: nat, e: State)
    requires KeepsCrc(next, step, init) && Reaches(next, s, n, e) && s.o.crc == CrcOf(step, init, s.o.bytes)
    ensures e.o.crc == CrcOf(step, init, e.o.bytes) && s.o.bytes <= e.o.bytes
    decreases n
  {
    if n > 0 {
      CrcKept(next, step, init, next(s).s, n - 1, e);
    }
  }

  /** And the CRC is that of the whole output. */
  lemma {:induction false} RunKeepsCrc(b: Block, limit: nat, init: nat, s: State, n: nat, e: State)
    requires GoodBlock(b) && Reaches(NextOf(b, limit), s, n, e) && s.o.crc == CrcOf(b.step, init, s.o.bytes)
    ensures e.o.crc == CrcOf(b.step, init, e.o.bytes) && s.o.bytes <= e.o.bytes
  {
    forall s | NextOf(b, limit)(s).More? && s.o.crc == CrcOf(b.step, init, s.o.bytes)
      ensures var s' := NextOf(b, limit)(s).s; s'.o.crc == CrcOf(b.step, init, s'.o.bytes) && s.o.bytes <= s'.o.bytes
    {
      TokenKeepsCrc(b.step, init, ReadToken(b.lit, b.dist, b.v, s.pos, limit), s.o);
    }
    CrcKept(NextOf(b, limit), b.step, init, s, n, e);
  }

  lemma {:induction false} TokenKeepsCrc(step: CrcStep, init: nat, t: Token, o: Out)
    requires ApplyToken(step, t, o).More? && o.crc == CrcOf(step, init, o.bytes)
    ensures var o' := ApplyToken(step, t, o).s.o;
            o'.crc == CrcOf(step, init, o'.bytes) && o.bytes <= o'.bytes
  {
    match t
    case Literal(c, _) => EmitKeepsCrc(step, init, o, c);
    case Match(length, dist, _) =>
      EmitMatchKeepsCrc(step, init, o, dist, MatchLength(length));
      EmitMatchGrows(step, o, dist, MatchLength(length));
  }

  lemma {:induction false} EmitMatchGrows(step: CrcStep, o: Out, dist: nat, n: nat)
    requires 0 < dist <= |o.bytes|
    ensures o.bytes <= EmitMatch(step, o, dist, n).bytes
  {
    if n > 0 {
      EmitMatchGrows(step, o, dist, n - 1);
    }
  }
}
