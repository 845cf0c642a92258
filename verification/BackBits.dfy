/**
 compression/zstd_sequences.c: the bit string of the sequences, read from its end towards its start.

 Of the string (a little-endian number) the low left bits are unread. bits is a 64-bit
 register; its low numBits bits are the unread ones from byte ptr on.
 */
module BackBits {
  import opened Basics
  import opened Bits

  const WORD := 64

  ghost predicate Unread(mem: seq<Byte>, bits: nat, numBits: nat, ptr: nat)
  {
    numBits <= WORD && Low(bits, numBits) == Field(Value(mem), 8 * ptr, numBits)
  }

  // ---- where the string ends -----------------------------------------------

  /** The string is what lies below the highest set bit. */
  function Log2Of(v: nat): nat
  {
    if v == 0 then 0 else Log2(v)
  }

  lemma {:induction false} HighestBit(mem: seq<Byte>, len: nat)
    requires 0 < len <= |mem| && mem[len - 1] > 0
    ensures Value(mem[..len]) > 0 && Log2Of(Value(mem[..len])) == 8 * (len - 1) + Log2(mem[len - 1])
    ensures Log2(mem[len - 1]) <= 7
  {
    var s, last, n := mem[..len], mem[len - 1], 8 * (len - 1);
    assert s == mem[..len - 1] + [last];
    ValueConcat(mem[..len - 1], [last]);
    ValueOne(last);
    ValueBound(mem[..len - 1]);
    TopBit(Value(mem[..len - 1]), last, n);
    Log2Bounds(last);
    assert Pow2(8) == 256;
    if Log2(last) >= 8 {
      Pow2Monotone(8, Log2(last));
    }
  }

  lemma {:induction false} TopBit(low: nat, high: Pos, n: nat)
    requires low < Pow2(n)
    ensures low + Shl(high, n) > 0 && Log2(low + Shl(high, n)) == n + Log2(high)
  {
    var k := Log2(high);
    Log2Bounds(high);
    ShlPow2(k, n);
    ShlMonotone(Pow2(k), high, n);
    ShlMonotone(high + 1, Pow2(k + 1), n);
    ShlPow2(k + 1, n);
    ShlAdd(high, 1, n);
    ShlPow2(0, n);
    Log2Unique(low + Shl(high, n), n + k);
  }

  // ---- refilling, eight bytes at once --------------------------------------

  /** Whole bytes the register has room for: 8 - (num_bits + 7) / 8 */
  function Room(numBits: nat): nat
    requires numBits <= WORD
  {
    8 - (numBits + 7) / 8
  }

  /** What the register can be filled up to when left bits are unread: 57 to 64, whatever it holds already. */
  function Capacity(left: nat): (c: nat)
    ensures 57 <= c <= 64 && c % 8 == left % 8
  {
    57 + (left + 7) % 8
  }

  lemma {:induction false} RoomFillsCapacity(numBits: nat, ptr: nat)
    requires numBits <= WORD
    ensures numBits + 8 * Room(numBits) == Capacity(numBits + 8 * ptr)
  {
  }

  lemma {:induction false} TailValue(mem: seq<Byte>, ptr: nat)
    requires ptr <= |mem|
    ensures Shr(Value(mem), 8 * ptr) == Value(mem[ptr..])
  {
    ValueSplit(mem, ptr);
    ValueBound(mem[..ptr]);
    SplitUnique(Value(mem[..ptr]), Value(mem[ptr..]), 8 * ptr);
  }

  lemma {:induction false} PrefixLow(s: seq<Byte>, k: nat, n: nat)
    requires k <= |s| && n <= 8 * k
    ensures Low(Value(s[..k]), n) == Low(Value(s), n)
  {
    ValueSplit(s, k);
    ValueBound(s[..k]);
    SplitUnique(Value(s[..k]), Value(s[k..]), 8 * k);
    LowLow(Value(s), n, 8 * k);
  }

  lemma {:induction false} BytesField(mem: seq<Byte>, ptr: nat, k: nat, n: nat)
    requires ptr + k <= |mem| && n <= 8 * k
    ensures Low(Value(mem[ptr..ptr + k]), n) == Field(Value(mem), 8 * ptr, n)
  {
    TailValue(mem, ptr);
    PrefixLow(mem[ptr..], k, n);
    assert mem[ptr..][..k] == mem[ptr..ptr + k];
  }

  /** lines 28-35. The load stays inside mem: eight bytes from ptr on are there. */
  method RefillWord(mem: seq<Byte>, ptr0: nat, numBits0: nat, total: nat)
    returns (ok: bool, ptr: nat, bits: nat, numBits: nat)
    requires numBits0 <= WORD && ptr0 + 8 <= |mem|
    ensures ok <==> total <= numBits0 + 8 * ptr0 && total <= Capacity(numBits0 + 8 * ptr0)
    ensures ptr <= ptr0 && numBits + 8 * ptr == numBits0 + 8 * ptr0
    ensures Unread(mem, bits, numBits, ptr) && (ok ==> total <= numBits)
  {
    var readBytes := Room(numBits0);
    RoomFillsCapacity(numBits0, ptr0);
    readBytes := if ptr0 < readBytes then ptr0 else readBytes;
    ptr := ptr0 - readBytes;
    bits := Value(mem[ptr..ptr + 8]);
    numBits := numBits0 + readBytes * 8;
    BytesField(mem, ptr, 8, numBits);
    ok := numBits >= total;
  }

  // ---- refilling byte by byte ----------------------------------------------

  lemma {:induction false} ByteField(mem: seq<Byte>, p: nat, n: nat)
    requires p < |mem| && n == 8
    ensures Field(Value(mem), 8 * p, n) == mem[p]
  {
    BytesField(mem, p, 1, n);
    assert mem[p..p + 1] == [mem[p]];
    ValueOne(mem[p]);
    assert Pow2(8) == 256;
    LowSmall(mem[p], n);
  }

  /** bits = bits << 8 | *--ptr, in 64 bits */
  function PushByte(bits: nat, b: Byte): nat
  {
    Low(Shl(bits, 8), WORD) + b
  }

  lemma {:induction false} LowOfPush(bits: nat, b: nat, n: nat, e: nat, w: nat)
    requires n + e <= w && b < Pow2(e)
    ensures Low(Low(Shl(bits, e), w) + b, n + e) == b + Shl(Low(bits, n), e)
  {
    var low := Low(bits, w - e);
    assert Low(Shl(bits, e), w) == Shl(low, e) by {
      Split(bits, w - e);
      ShlWraps(low, Shr(bits, w - e), e, w - e);
    }
    LowOfSum(b, low, n, e);
    LowLow(bits, n, w - e);
  }

  lemma {:induction false} LowOfSum(b: nat, low: nat, n: nat, e: nat)
    requires b < Pow2(e)
    ensures Low(Shl(low, e) + b, n + e) == b + Shl(Low(low, n), e)
  {
    SplitUnique(b, low, e);
    LowSplit(b + Shl(low, e), e, n);
  }

  lemma {:induction false} FieldSplit(x: nat, pos: nat, a: nat, b: nat)
    ensures Field(x, pos, a + b) == Field(x, pos, a) + Shl(Field(x, pos + a, b), a)
  {
    LowSplit(Shr(x, pos), a, b);
    ShrSum(x, pos, a);
  }

  lemma {:induction false} PushField(mem: seq<Byte>, bits: nat, numBits: nat, ptr: nat, e: nat, w: nat)
    requires 0 < ptr <= |mem| && numBits + e <= w && e == 8 && Low(bits, numBits) == Field(Value(mem), 8 * ptr, numBits)
    ensures Low(Low(Shl(bits, e), w) + mem[ptr - 1], numBits + e) == Field(Value(mem), 8 * (ptr - 1), numBits + e)
  {
    assert Pow2(8) == 256;
    LowOfPush(bits, mem[ptr - 1], numBits, e, w);
    ByteField(mem, ptr - 1, e);
    FieldSplit(Value(mem), 8 * (ptr - 1), e, numBits);
    assert 8 * (ptr - 1) + e == 8 * ptr && e + numBits == numBits + e;
  }

  lemma {:induction false} PushUnread(mem: seq<Byte>, bits: nat, numBits: nat, ptr: nat)
    requires 0 < ptr <= |mem| && numBits <= 56 && Unread(mem, bits, numBits, ptr)
    ensures Unread(mem, PushByte(bits, mem[ptr - 1]), numBits + 8, ptr - 1)
  {
    PushField(mem, bits, numBits, ptr, 8, WORD);
  }

  /** k times PushByte */
  function Pushed(mem: seq<Byte>, bits: nat, ptr: nat, k: nat): nat
    requires k <= ptr <= |mem|
  {
    if k == 0 then bits else PushByte(Pushed(mem, bits, ptr, k - 1), mem[ptr - k])
  }

  lemma {:induction false} PushedUnread(mem: seq<Byte>, bits: nat, numBits: nat, ptr: nat, k: nat)
    requires k <= ptr <= |mem| && numBits + 8 * k <= WORD && Unread(mem, bits, numBits, ptr)
    ensures Unread(mem, Pushed(mem, bits, ptr, k), numBits + 8 * k, ptr - k)
  {
    if k > 0 {
      PushedUnread(mem, bits, numBits, ptr, k - 1);
      PushUnread(mem, Pushed(mem, bits, ptr, k - 1), numBits + 8 * (k - 1), ptr - (k - 1));
    }
  }

  /** The loop of lines 39-42, and how far it gets. */
  method PushBytes(mem: seq<Byte>, ptr0: nat, bits0: nat, numBits0: nat) returns (k: nat, bits: nat)
    requires 0 < ptr0 <= |mem| && numBits0 <= WORD
    ensures 0 < k <= ptr0 && bits == Pushed(mem, bits0, ptr0, k)
    ensures numBits0 <= 56 ==> k == if ptr0 < Room(numBits0) then ptr0 else Room(numBits0)
    ensures numBits0 > 56 ==> numBits0 + 8 * k > WORD
  {
    bits, k := PushByte(bits0, mem[ptr0 - 1]), 1;
    while numBits0 + 8 * k <= 56 && k < ptr0
      invariant 0 < k <= ptr0 && bits == Pushed(mem, bits0, ptr0, k)
      invariant numBits0 <= 56 ==> k <= Room(numBits0)
    {
      bits, k := PushByte(bits, mem[ptr0 - k - 1]), k + 1;
    }
  }

  /**
   lines 37-43. Where the first form reports an error although the string goes on, this one
   goes on with a register that holds too few bits, or that has lost some.
   */
  method RefillBytes(mem: seq<Byte>, ptr0: nat, bits0: nat, numBits0: nat, total: nat)
    returns (ok: bool, ptr: nat, bits: nat, numBits: nat)
    requires Unread(mem, bits0, numBits0, ptr0) && ptr0 <= |mem|
    ensures ok <==> total <= numBits0 + 8 * ptr0
    ensures ptr <= ptr0 && numBits + 8 * ptr == numBits0 + 8 * ptr0
    ensures ok && total <= Capacity(numBits0 + 8 * ptr0) ==> Unread(mem, bits, numBits, ptr) && total <= numBits
    ensures ok && total > Capacity(numBits0 + 8 * ptr0) ==> numBits < total || numBits > WORD
  {
    ptr, bits, numBits := ptr0, bits0, numBits0;
    RoomFillsCapacity(numBits0, ptr0);
    if numBits < total {
      if ptr < (total - numBits + 7) / 8 {
        return false, ptr, bits, numBits;
      }
      var k;
      k, bits := PushBytes(mem, ptr0, bits0, numBits0);
      ptr, numBits := ptr0 - k, numBits0 + 8 * k;
      if numBits <= WORD {
        PushedUnread(mem, bits0, numBits0, ptr0, k);
      }
    }
    ok := true;
  }

  // ---- three fields at once ------------------------------------------------

  lemma {:induction false} UnreadField(mem: seq<Byte>, bits: nat, numBits: nat, ptr: nat, at: nat, n: nat)
    requires Unread(mem, bits, numBits, ptr) && at + n <= numBits
    ensures Field(bits, at, n) == Field(Value(mem), 8 * ptr + at, n)
  {
    FieldOfLow(bits, at, n, numBits);
    FieldOfLow(Shr(Value(mem), 8 * ptr), at, n, numBits);
    ShrSum(Value(mem), 8 * ptr, at);
  }

  /** lines 50-57, the temporaries tmp2 and tmp3 being 32 bits wide. */
  method Extract(mem: seq<Byte>, ptr: nat, bits: nat, numBits: nat, a: nat, b: nat, c: nat)
    returns (va: nat, vb: nat, vc: nat)
    requires Unread(mem, bits, numBits, ptr) && a + b + c <= numBits && a < 32 && b < 32 && c < 32
    ensures va == Field(Value(mem), numBits + 8 * ptr - a, a)
    ensures vb == Field(Value(mem), numBits + 8 * ptr - a - b, b)
    ensures vc == Field(Value(mem), numBits + 8 * ptr - a - b - c, c)
  {
    var total := a + b + c;
    var tmp1 := Shr(bits, numBits - total);
    var tmp2 := Low(Shr(bits, numBits - a), 32);
    var tmp3 := Low(Shr(tmp1, c), 32);
    va, vb, vc := Low(tmp2, a), Low(tmp3, b), Low(tmp1, c);
    LowLow(Shr(bits, numBits - a), a, 32);
    LowLow(Shr(tmp1, c), b, 32);
    ShrSum(bits, numBits - total, c);
    UnreadField(mem, bits, numBits, ptr, numBits - a, a);
    UnreadField(mem, bits, numBits, ptr, numBits - a - b, b);
    UnreadField(mem, bits, numBits, ptr, numBits - total, c);
  }

  lemma {:induction false} StillUnread(mem: seq<Byte>, bits: nat, numBits: nat, ptr: nat, n: nat)
    requires Unread(mem, bits, numBits, ptr) && n <= numBits
    ensures Unread(mem, bits, n, ptr)
  {
    LowLow(bits, n, numBits);
    LowLow(Shr(Value(mem), 8 * ptr), n, numBits);
  }

  /** The widths of three fields that are read together, and their values. */
  datatype Request = Request(a: nat, b: nat, c: nat)
  datatype Triple = Triple(a: nat, b: nat, c: nat)

  function Total(r: Request): nat
  {
    r.a + r.b + r.c
  }

  /** The fields are cut off the high end of what is unread. */
  function Cut(bits: BitSource, left: nat, r: Request): Triple
    requires Total(r) <= left
  {
    Triple(bits(left - r.a, r.a), bits(left - r.a - r.b, r.b), bits(left - Total(r), r.c))
  }

  ghost predicate Fits32(r: Request)
  {
    r.a < 32 && r.b < 32 && r.c < 32
  }

  method ExtractTriple(mem: seq<Byte>, ptr: nat, bits: nat, numBits: nat, r: Request) returns (t: Triple)
    requires Unread(mem, bits, numBits, ptr) && Total(r) <= numBits && Fits32(r)
    ensures t == Cut(BitsOf(mem), numBits + 8 * ptr, r)
  {
    var a, b, c := Extract(mem, ptr, bits, numBits, r.a, r.b, r.c);
    t := Triple(a, b, c);
  }

  /** DECODE3 with the first form of REFILL. */
  method DecodeWord(mem: seq<Byte>, ptr0: nat, numBits0: nat, r: Request)
    returns (ok: bool, t: Triple, ptr: nat, numBits: nat)
    requires numBits0 <= WORD && ptr0 + 8 <= |mem| && Fits32(r)
    ensures ok <==> Total(r) <= numBits0 + 8 * ptr0 && Total(r) <= Capacity(numBits0 + 8 * ptr0)
    ensures ok ==> numBits <= WORD && ptr <= ptr0 && numBits + 8 * ptr == numBits0 + 8 * ptr0 - Total(r)
    ensures ok ==> t == Cut(BitsOf(mem), numBits0 + 8 * ptr0, r)
  {
    var bits;
    t := Triple(0, 0, 0);
    ok, ptr, bits, numBits := RefillWord(mem, ptr0, numBits0, Total(r));
    if ok {
      t := ExtractTriple(mem, ptr, bits, numBits, r);
      numBits := numBits - Total(r);
    }
  }

  /** Taken, the string ends too early, or the register does not hold what is to be taken. */
  datatype Fetched = Taken | Ended | Lost

  /** DECODE3 with the second form. A request that is wider than the register can be filled up to is lost. */
  method DecodeBytes(mem: seq<Byte>, ptr0: nat, bits0: nat, numBits0: nat, r: Request)
    returns (res: Fetched, t: Triple, ptr: nat, bits: nat, numBits: nat)
    requires Unread(mem, bits0, numBits0, ptr0) && ptr0 <= |mem| && Fits32(r)
    ensures res == Ended <==> Total(r) > numBits0 + 8 * ptr0
    ensures res == Lost <==> Capacity(numBits0 + 8 * ptr0) < Total(r) <= numBits0 + 8 * ptr0
    ensures res == Lost ==> numBits < Total(r) || numBits > WORD
    ensures res == Taken ==> Unread(mem, bits, numBits, ptr) && ptr <= ptr0
    ensures res == Taken ==> numBits + 8 * ptr == numBits0 + 8 * ptr0 - Total(r)
    ensures res == Taken ==> t == Cut(BitsOf(mem), numBits0 + 8 * ptr0, r)
  {
    t := Triple(0, 0, 0);
    var ok;
    ok, ptr, bits, numBits := RefillBytes(mem, ptr0, bits0, numBits0, Total(r));
    if !ok {
      res := Ended;
    } else if numBits < Total(r) || numBits > WORD {
      res := Lost;
    } else {
      t := ExtractTriple(mem, ptr, bits, numBits, r);
      StillUnread(mem, bits, numBits, ptr, numBits - Total(r));
      numBits := numBits - Total(r);
      res := Taken;
    }
  }

  // ---- both forms, over a whole run ----------------------------------------

  datatype Answers = Short(got: seq<Triple>) | LostAt(got: seq<Triple>) | Answers(got: seq<Triple>, left: nat)
  datatype Form = Plain | ByWords | ByBytes

  /** The requests one after the other: plainly, or with one of the two ways to refill. */
  function ReadAll(bits: BitSource, left: nat, rs: seq<Request>, got: seq<Triple>, form: Form): Answers
    decreases |rs|
  {
    if rs == [] then Answers(got, left)
    else if Total(rs[0]) > left then Short(got)
    else if form != Plain && Total(rs[0]) > Capacity(left) then
      if form == ByWords then Short(got) else LostAt(got)
    else ReadAll(bits, left - Total(rs[0]), rs[1..], got + [Cut(bits, left, rs[0])], form)
  }

  ghost predicate AllFit(rs: seq<Request>)
  {
    forall i :: 0 <= i < |rs| ==> Fits32(rs[i])
  }

  method RunWords(mem: seq<Byte>, ptr0: nat, numBits0: nat, rs: seq<Request>) returns (res: Answers)
    requires numBits0 <= WORD && ptr0 + 8 <= |mem| && AllFit(rs)
    ensures res == ReadAll(BitsOf(mem), numBits0 + 8 * ptr0, rs, [], ByWords)
  {
    var ptr: nat, numBits: nat := ptr0, numBits0;
    var got := [];
    ghost var src := BitsOf(mem);
    for i := 0 to |rs|
      invariant numBits <= WORD && ptr + 8 <= |mem|
      invariant ReadAll(src, numBits0 + 8 * ptr0, rs, [], ByWords) == ReadAll(src, numBits + 8 * ptr, rs[i..], got, ByWords)
    {
      assert rs[i..][1..] == rs[i + 1..];
      var ok, t;
      ok, t, ptr, numBits := DecodeWord(mem, ptr, numBits, rs[i]);
      if !ok {
        return Short(got);
      }
      got := got + [t];
    }
    res := Answers(got, numBits + 8 * ptr);
  }

  method RunBytes(mem: seq<Byte>, ptr0: nat, bits0: nat, numBits0: nat, rs: seq<Request>) returns (res: Answers)
    requires Unread(mem, bits0, numBits0, ptr0) && ptr0 <= |mem| && AllFit(rs)
    ensures res == ReadAll(BitsOf(mem), numBits0 + 8 * ptr0, rs, [], ByBytes)
  {
    var ptr: nat, numBits: nat, bits: nat := ptr0, numBits0, bits0;
    var got := [];
    ghost var src := BitsOf(mem);
    for i := 0 to |rs|
      invariant Unread(mem, bits, numBits, ptr) && ptr <= |mem|
      invariant ReadAll(src, numBits0 + 8 * ptr0, rs, [], ByBytes) == ReadAll(src, numBits + 8 * ptr, rs[i..], got, ByBytes)
    {
      assert rs[i..][1..] == rs[i + 1..];
      var one, t;
      one, t, ptr, bits, numBits := DecodeBytes(mem, ptr, bits, numBits, rs[i]);
      if one != Taken {
        return if one == Ended then Short(got) else LostAt(got);
      }
      got := got + [t];
    }
    res := Answers(got, numBits + 8 * ptr);
  }

  lemma {:induction false} ReadsOn(bits: BitSource, left: nat, rs: seq<Request>, got: seq<Triple>, form: Form)
    ensures |got| <= |ReadAll(bits, left, rs, got, form).got|
    decreases |rs|
  {
    if rs != [] && Total(rs[0]) <= left {
      ReadsOn(bits, left - Total(rs[0]), rs[1..], got + [Cut(bits, left, rs[0])], form);
    }
  }

  function Sum(rs: seq<Request>): nat
  {
    if rs == [] then 0 else Total(rs[0]) + Sum(rs[1..])
  }

  /** Request i comes within the string, and is wider than the register can be filled up to then. */
  predicate TooWide(left: nat, rs: seq<Request>, i: nat)
    requires i < |rs|
  {
    Sum(rs[..i]) + Total(rs[i]) <= left && Total(rs[i]) > Capacity(left - Sum(rs[..i]))
  }

  ghost predicate Loses(left: nat, rs: seq<Request>)
  {
    exists i :: 0 <= i < |rs| && TooWide(left, rs, i)
  }

  lemma {:induction false} TooWideLater(left: nat, rs: seq<Request>, i: nat)
    requires 0 < i < |rs| && Total(rs[0]) <= left
    ensures TooWide(left, rs, i) <==> TooWide(left - Total(rs[0]), rs[1..], i - 1)
  {
    assert rs[..i][1..] == rs[1..][..i - 1];
  }

  lemma {:induction false} LosesStep(left: nat, rs: seq<Request>)
    requires rs != [] && Total(rs[0]) <= left
    ensures Loses(left, rs) <==> Total(rs[0]) > Capacity(left) || Loses(left - Total(rs[0]), rs[1..])
  {
    var left', rest := left - Total(rs[0]), rs[1..];
    assert TooWide(left, rs, 0) <==> Total(rs[0]) > Capacity(left);
    forall i | 0 < i < |rs|
      ensures TooWide(left, rs, i) <==> TooWide(left', rest, i - 1)
    {
      TooWideLater(left, rs, i);
    }
    if Loses(left', rest) {
      var k :| 0 <= k < |rest| && TooWide(left', rest, k);
      assert TooWide(left, rs, k + 1);
    }
  }

  lemma {:induction false} NoneComes(left: nat, rs: seq<Request>)
    requires rs == [] || Total(rs[0]) > left
    ensures !Loses(left, rs)
  {
    forall i | 0 <= i < |rs|
      ensures !TooWide(left, rs, i)
    {
      if i > 0 {
        assert rs[..i][0] == rs[0];
      }
    }
  }

  /**
   Both forms read plainly exactly if no request within the string is wider than the register
   can be filled up to. Otherwise the first form reports an error where the string goes on, and
   the second goes on without the bits.
   */
  lemma {:induction false} FormsAgree(bits: BitSource, left: nat, rs: seq<Request>, got: seq<Triple>)
    ensures
      var plain, words, bytes := ReadAll(bits, left, rs, got, Plain), ReadAll(bits, left, rs, got, ByWords), ReadAll(bits, left, rs, got, ByBytes);
      && (words == plain <==> !Loses(left, rs)) && (bytes == plain <==> !Loses(left, rs))
      && (Loses(left, rs) ==> bytes.LostAt? && words == Short(bytes.got) && |plain.got| > |bytes.got|)
    decreases |rs|
  {
    NeverLost(bits, left, rs, got);
    if rs == [] || Total(rs[0]) > left {
      NoneComes(left, rs);
    } else {
      var got' := got + [Cut(bits, left, rs[0])];
      LosesStep(left, rs);
      ReadsOn(bits, left - Total(rs[0]), rs[1..], got', Plain);
      if Total(rs[0]) <= Capacity(left) {
        FormsAgree(bits, left - Total(rs[0]), rs[1..], got');
      }
    }
  }

  lemma {:induction false} NeverLost(bits: BitSource, left: nat, rs: seq<Request>, got: seq<Triple>)
    ensures !ReadAll(bits, left, rs, got, Plain).LostAt?
    decreases |rs|
  {
    if rs != [] && Total(rs[0]) <= left {
      NeverLost(bits, left - Total(rs[0]), rs[1..], got + [Cut(bits, left, rs[0])]);
    }
  }

  ghost predicate Narrow(rs: seq<Request>)
  {
    forall i :: 0 <= i < |rs| ==> Total(rs[i]) <= 57
  }

  /** Nothing is lost as long as no request is wider than 57 bits. */
  lemma {:induction false} NarrowIsSafe(bits: BitSource, left: nat, rs: seq<Request>, got: seq<Triple>)
    requires Narrow(rs)
    ensures ReadAll(bits, left, rs, got, ByWords) == ReadAll(bits, left, rs, got, Plain) == ReadAll(bits, left, rs, got, ByBytes)
  {
    forall i | 0 <= i < |rs|
      ensures !TooWide(left, rs, i)
    {
      assert Total(rs[i]) <= 57;
    }
    FormsAgree(bits, left, rs, got);
  }

  /**
   57 is the limit: for a request of 58 bits or more there is a string that is long enough and
   yet both forms fail on it.
   */
  lemma {:induction false} WideRequestFails(total: nat)
    ensures (forall left :: total <= left ==> total <= Capacity(left)) <==> total <= 57
  {
    if total > 57 {
      var left := 8 * total + 1;
      assert Capacity(left) == 57 && total <= left;
    }
  }
}
