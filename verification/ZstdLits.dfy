/**
 compression/zstd_literals.c: streams of Huffman coded literals, read from their end (section
 4.2.2 of RFC 8878).
 */
module ZstdLits {
  import opened Basics
  import opened Bits
  import opened ZstdHuff
  import opened BackBits

  // ---- a table that is a prefix code ---------------------------------------

  ghost predicate SameHead(a: nat, b: nat, depth: nat, len: nat)
    requires len <= depth
  {
    Shr(a, depth - len) == Shr(b, depth - len)
  }

  /** Every index that begins like one of a symbol is one of it, and only those are. */
  ghost predicate PrefixTable(table: seq<Entry>, depth: nat)
  {
    && |table| == Pow2(depth) && (forall a :: 0 <= a < |table| ==> 0 < table[a].len <= depth)
    && (forall a, b :: 0 <= a < |table| && 0 <= b < |table| ==> (table[a].sym == table[b].sym <==> SameHead(a, b, depth, table[a].len)))
    && (forall a, b :: 0 <= a < |table| && 0 <= b < |table| && table[a].sym == table[b].sym ==> table[a] == table[b])
  }

  lemma {:induction false} RunOf(w: seq<nat>, order: seq<nat>, maxBits: nat, depth: nat, n: nat, idx: nat) returns (k: nat)
    requires GoodWeights(w, maxBits, depth) && InRange(order, |w|) && n <= |order|
    requires idx < RunStart(w, order, maxBits, depth, n)
    ensures k < n && w[order[k]] > 0 && InRun(w, order, maxBits, depth, k, idx)
  {
    if RunStart(w, order, maxBits, depth, n - 1) <= idx {
      k := n - 1;
    } else {
      k := RunOf(w, order, maxBits, depth, n - 1, idx);
    }
  }

  /** The indices of a run are those that begin with its codeword. */
  lemma {:induction false} RunIsHead(w: seq<nat>, order: seq<nat>, maxBits: nat, depth: nat, k: nat, a: nat, b: nat)
    requires GoodWeights(w, maxBits, depth) && InRange(order, |w|) && Sorted(w, order) && k < |order| && w[order[k]] > 0
    requires RunStart(w, order, maxBits, depth, |order|) == Pow2(depth) && InRun(w, order, maxBits, depth, k, a)
    ensures InRun(w, order, maxBits, depth, k, b) <==> SameHead(a, b, depth, CodeLength(w[order[k]], maxBits))
  {
    HeavierBehind(w, order, k);
    var q := RunAligned(w, order, maxBits, depth, k);
    var e := Spare(w[order[k]], maxBits, depth);
    assert e == depth - CodeLength(w[order[k]], maxBits);
    ShlAdd(q, 1, e);
    ShlPow2(0, e);
    ShrBetween(a, q, e);
    ShrBetween(b, q, e);
  }

  lemma {:induction false} OrderDistinct(w: seq<nat>, order: seq<nat>, j: nat, k: nat)
    requires InRange(order, |w|) && Sorted(w, order) && j < |order| && k < |order| && j != k
    ensures order[j] != order[k]
  {
    if j < k {
      assert Before(w, order[j], order[k]);
    } else {
      assert Before(w, order[k], order[j]);
    }
  }

  lemma {:induction false} EntryOf(w: seq<nat>, order: seq<nat>, maxBits: nat, depth: nat, table: seq<Entry>, a: nat) returns (k: nat)
    requires GoodWeights(w, maxBits, depth) && InRange(order, |w|) && Filled(w, order, maxBits, depth, table, |order|)
    requires RunStart(w, order, maxBits, depth, |order|) == Pow2(depth) == |table| && a < |table|
    ensures k < |order| && w[order[k]] > 0 && InRun(w, order, maxBits, depth, k, a)
    ensures table[a] == Entry(order[k], CodeLength(w[order[k]], maxBits))
  {
    k := RunOf(w, order, maxBits, depth, |order|, a);
  }

  lemma {:induction false} FilledPair(w: seq<nat>, order: seq<nat>, maxBits: nat, depth: nat, table: seq<Entry>, a: nat,
                                      b: nat)
    requires GoodWeights(w, maxBits, depth) && InRange(order, |w|) && Sorted(w, order)
    requires Filled(w, order, maxBits, depth, table, |order|)
    requires RunStart(w, order, maxBits, depth, |order|) == Pow2(depth) == |table| && a < |table| && b < |table|
    ensures 0 < table[a].len <= depth
    ensures table[a].sym == table[b].sym <==> SameHead(a, b, depth, table[a].len)
    ensures table[a].sym == table[b].sym ==> table[a] == table[b]
  {
    var j := EntryOf(w, order, maxBits, depth, table, a);
    var k := EntryOf(w, order, maxBits, depth, table, b);
    RunIsHead(w, order, maxBits, depth, j, a, b);
    if j != k {
      OrderDistinct(w, order, j, k);
    }
  }

  /** The table that has been filled is a prefix code. */
  lemma {:induction false} FilledIsPrefix(w: seq<nat>, order: seq<nat>, maxBits: nat, depth: nat, table: seq<Entry>)
    requires GoodWeights(w, maxBits, depth) && InRange(order, |w|) && Sorted(w, order)
    requires Filled(w, order, maxBits, depth, table, |order|)
    requires RunStart(w, order, maxBits, depth, |order|) == Pow2(depth) == |table|
    ensures PrefixTable(table, depth)
  {
    forall a, b | 0 <= a < |table| && 0 <= b < |table|
      ensures 0 < table[a].len <= depth && (table[a].sym == table[b].sym <==> SameHead(a, b, depth, table[a].len))
      ensures table[a].sym == table[b].sym ==> table[a] == table[b]
    {
      FilledPair(w, order, maxBits, depth, table, a, b);
    }
    forall a | 0 <= a < |table| ensures 0 < table[a].len <= depth {
      FilledPair(w, order, maxBits, depth, table, a, a);
    }
  }

  // ---- writing and reading -------------------------------------------------

  ghost predicate Written(table: seq<Entry>, s: nat)
  {
    exists a :: 0 <= a < |table| && table[a].sym == s
  }

  ghost function IndexOf(table: seq<Entry>, s: nat): (a: nat)
    requires Written(table, s)
    ensures a < |table| && table[a].sym == s
  {
    var a :| 0 <= a < |table| && table[a].sym == s;
    a
  }

  ghost function LenOf(table: seq<Entry>, s: nat): nat
    requires Written(table, s)
  {
    table[IndexOf(table, s)].len
  }

  /** The codeword of a symbol, first bit highest. */
  ghost function Word(table: seq<Entry>, depth: nat, s: nat): nat
    requires PrefixTable(table, depth) && Written(table, s)
  {
    Shr(IndexOf(table, s), depth - LenOf(table, s))
  }

  ghost predicate AllWritten(table: seq<Entry>, lits: seq<nat>)
  {
    forall i :: 0 <= i < |lits| ==> Written(table, lits[i])
  }

  /** How many bits the literals take, and the number these bits make. */
  ghost function Length(table: seq<Entry>, lits: seq<nat>): nat
    requires AllWritten(table, lits)
  {
    if lits == [] then 0 else LenOf(table, lits[0]) + Length(table, lits[1..])
  }

  ghost function Code(table: seq<Entry>, depth: nat, lits: seq<nat>): nat
    requires PrefixTable(table, depth) && AllWritten(table, lits)
  {
    if lits == [] then 0 else Shl(Word(table, depth, lits[0]), Length(table, lits[1..])) + Code(table, depth, lits[1..])
  }

  lemma {:induction false} WordFits(table: seq<Entry>, depth: nat, s: nat)
    requires PrefixTable(table, depth) && Written(table, s)
    ensures 0 < LenOf(table, s) <= depth && Word(table, depth, s) < Pow2(LenOf(table, s))
  {
    var len := LenOf(table, s);
    ShrBound(IndexOf(table, s), depth - len, len);
  }

  lemma {:induction false} CodeFits(table: seq<Entry>, depth: nat, lits: seq<nat>)
    requires PrefixTable(table, depth) && AllWritten(table, lits)
    ensures Code(table, depth, lits) < Pow2(Length(table, lits))
  {
    if lits != [] {
      var n := Length(table, lits[1..]);
      CodeFits(table, depth, lits[1..]);
      WordFits(table, depth, lits[0]);
      ShlAdd(Word(table, depth, lits[0]), 1, n);
      ShlMonotone(Word(table, depth, lits[0]) + 1, Pow2(LenOf(table, lits[0])), n);
      ShlPow2(LenOf(table, lits[0]), n);
      ShlPow2(0, n);
    }
  }

  /** The highest depth of the low left bits of v, with zeros behind them if there are not as many. */
  function Top(v: nat, left: nat, depth: nat): (r: nat)
    ensures r < Pow2(depth)
  {
    if left >= depth then Field(v, left - depth, depth)
    else
      ShlBound(Low(v, left), left, depth - left);
      Shl(Low(v, left), depth - left)
  }

  datatype Decoded = Fail | Lits(s: seq<nat>)

  /** n literals, and nothing after them. */
  function Decode(table: seq<Entry>, depth: nat, v: nat, left: nat, n: nat): Decoded
    requires |table| == Pow2(depth)
  {
    if n == 0 then if left == 0 then Lits([]) else Fail
    else
      var e := table[Top(v, left, depth)];
      if e.len > left then Fail
      else
        var rest := Decode(table, depth, v, left - e.len, n - 1);
        if rest.Fail? then Fail else Lits([e.sym] + rest.s)
  }

  /** The first bits of what Top gives. */
  lemma {:induction false} TopHead(v: nat, left: nat, depth: nat, len: nat)
    requires len <= left && len <= depth
    ensures Shr(Top(v, left, depth), depth - len) == Field(v, left - len, len)
  {
    if left >= depth {
      var x := Shr(v, left - depth);
      LowSplit(x, depth - len, len);
      SplitUnique(Low(x, depth - len), Field(x, depth - len, len), depth - len);
      assert Low(x, depth) == Low(x, depth - len + len);
      ShrSum(v, left - depth, depth - len);
    } else {
      ShortTopHead(v, left, depth, len);
    }
  }

  lemma {:induction false} ShortTopHead(v: nat, left: nat, depth: nat, len: nat)
    requires len <= left < depth
    ensures Shr(Shl(Low(v, left), depth - left), depth - len) == Field(v, left - len, len)
  {
    var l := Low(v, left);
    SplitUnique(0, l, depth - left);
    ShrSum(Shl(l, depth - left), depth - left, left - len);
    LowSplit(v, left - len, len);
    SplitUnique(Low(v, left - len), Field(v, left - len, len), left - len);
  }

  /** The entry that is found is the symbol that comes first, if there is enough of it. */
  lemma {:induction false} FoundSymbol(table: seq<Entry>, depth: nat, v: nat, left: nat, s: nat)
    requires PrefixTable(table, depth) && Written(table, s) && LenOf(table, s) <= left
    ensures table[Top(v, left, depth)].sym == s <==>
      Field(v, left - LenOf(table, s), LenOf(table, s)) == Word(table, depth, s)
  {
    var a, len := IndexOf(table, s), LenOf(table, s);
    var t := Top(v, left, depth);
    TopHead(v, left, depth, len);
    assert table[a].sym == table[t].sym <==> SameHead(a, t, depth, len);
  }

  lemma {:induction false} FoundEntry(table: seq<Entry>, depth: nat, a: nat)
    requires PrefixTable(table, depth) && a < |table|
    ensures Written(table, table[a].sym) && LenOf(table, table[a].sym) == table[a].len
  {
    assert table[IndexOf(table, table[a].sym)] == table[a];
  }

  /** One literal is cut off a number that begins with it. */
  lemma {:induction false} CutWord(v: nat, left: nat, len: nat, word: nat, rest: nat)
    requires len <= left && rest < Pow2(left - len)
    ensures Low(v, left) == Shl(word, left - len) + rest <==>
      Field(v, left - len, len) == word && Low(v, left - len) == rest
  {
    var n := left - len;
    LowSplit(v, n, len);
    if Low(v, left) == Shl(word, n) + rest {
      SplitUnique(rest, word, n);
      SplitUnique(Low(v, n), Field(v, n, len), n);
    }
  }

  /** These are the literals that low left bits of v were written from. */
  ghost predicate WrittenAs(table: seq<Entry>, depth: nat, v: nat, left: nat, lits: seq<nat>)
    requires PrefixTable(table, depth)
  {
    AllWritten(table, lits) && left == Length(table, lits) && Low(v, left) == Code(table, depth, lits)
  }

  lemma {:induction false} WrittenFirst(table: seq<Entry>, depth: nat, v: nat, left: nat, lits: seq<nat>)
    requires PrefixTable(table, depth) && lits != []
    ensures WrittenAs(table, depth, v, left, lits) <==>
            Written(table, lits[0]) && LenOf(table, lits[0]) <= left
            && table[Top(v, left, depth)].sym == lits[0] && WrittenAs(table, depth, v, left - LenOf(table, lits[0]), lits[1..])
  {
    var s, rest := lits[0], lits[1..];
    assert AllWritten(table, lits) <==> Written(table, s) && AllWritten(table, rest) by {
      assert forall i :: 0 < i < |lits| ==> lits[i] == rest[i - 1];
    }
    if AllWritten(table, lits) && LenOf(table, s) <= left && left == Length(table, lits) {
      FoundSymbol(table, depth, v, left, s);
      CodeFits(table, depth, rest);
      CutWord(v, left, LenOf(table, s), Word(table, depth, s), Code(table, depth, rest));
    }
  }

  /** Reading undoes writing, and nothing but what was written is accepted. */
  lemma {:induction false} DecodeIsInverse(table: seq<Entry>, depth: nat, v: nat, left: nat, lits: seq<nat>)
    requires PrefixTable(table, depth)
    ensures Decode(table, depth, v, left, |lits|) == Lits(lits) <==> WrittenAs(table, depth, v, left, lits)
    decreases |lits|
  {
    if lits != [] {
      var a := Top(v, left, depth);
      var e := table[a];
      FoundEntry(table, depth, a);
      WrittenFirst(table, depth, v, left, lits);
      if e.len <= left {
        DecodeIsInverse(table, depth, v, left - e.len, lits[1..]);
        FirstDecoded(table, depth, v, left, lits);
      }
    }
  }

  lemma {:induction false} FirstDecoded(table: seq<Entry>, depth: nat, v: nat, left: nat, lits: seq<nat>)
    requires |table| == Pow2(depth) && lits != [] && table[Top(v, left, depth)].len <= left
    ensures Decode(table, depth, v, left, |lits|) == Lits(lits) <==>
            table[Top(v, left, depth)].sym == lits[0] && Decode(table, depth, v, left - table[Top(v, left, depth)].len, |lits| - 1) == Lits(lits[1..])
  {
    var e := table[Top(v, left, depth)];
    var rest := Decode(table, depth, v, left - e.len, |lits| - 1);
    if rest.Lits? {
      assert ([e.sym] + rest.s)[1..] == rest.s;
      assert lits == [lits[0]] + lits[1..];
    }
  }

  // ---- the register --------------------------------------------------------

  /** The unread bits from byte ptr on, numBits of them, stand highest in a register of word bits. */
  ghost predicate Reg(v: nat, word: nat, bits: nat, numBits: nat, ptr: nat)
  {
    numBits <= word && bits == Shl(Field(v, 8 * ptr, numBits), word - numBits)
  }

  /** What the highest depth bits of the register are. */
  lemma {:induction false} RegTop(f: nat, word: nat, numBits: nat, depth: nat)
    requires numBits <= word && depth <= word && f < Pow2(numBits)
    ensures Shr(Shl(f, word - numBits), word - depth) == Top(f, numBits, depth)
  {
    if numBits >= depth {
      SplitUnique(0, f, word - numBits);
      ShrSum(Shl(f, word - numBits), word - numBits, numBits - depth);
      ShrBound(f, numBits - depth, depth);
      LowSmall(Shr(f, numBits - depth), depth);
    } else {
      ShlSum(f, depth - numBits, word - depth);
      SplitUnique(0, Shl(f, depth - numBits), word - depth);
      LowSmall(f, numBits);
    }
  }

  lemma {:induction false} FieldOfField(v: nat, pos: nat, n: nat, at: nat, m: nat)
    requires at + m <= n
    ensures Field(Field(v, pos, n), at, m) == Field(v, pos + at, m)
  {
    FieldOfLow(Shr(v, pos), at, m, n);
    ShrSum(v, pos, at);
  }

  /** As far as the register goes it leads to the entry of the whole string, ... */
  lemma {:induction false} SameEntry(table: seq<Entry>, depth: nat, v: nat, numBits: nat, ptr: nat)
    requires PrefixTable(table, depth) && table[Top(Field(v, 8 * ptr, numBits), numBits, depth)].len <= numBits
    ensures table[Top(Field(v, 8 * ptr, numBits), numBits, depth)] == table[Top(v, numBits + 8 * ptr, depth)]
  {
    var f, left := Field(v, 8 * ptr, numBits), numBits + 8 * ptr;
    var a, b := Top(f, numBits, depth), Top(v, left, depth);
    var len := table[a].len;
    TopHead(f, numBits, depth, len);
    TopHead(v, left, depth, len);
    FieldOfField(v, 8 * ptr, numBits, numBits - len, len);
    assert 8 * ptr + (numBits - len) == left - len;
    assert SameHead(a, b, depth, len);
  }

  /** ... and when everything has been loaded, there is no difference. */
  lemma {:induction false} LoadedTop(v: nat, left: nat, depth: nat)
    ensures Top(Field(v, 0, left), left, depth) == Top(v, left, depth)
  {
    if left >= depth {
      FieldOfField(v, 0, left, left - depth, depth);
    } else {
      LowLow(v, left, left);
    }
  }

  /** bits |= *--end << (shift -= 8) */
  lemma {:induction false} RegLoad(data: seq<Byte>, word: nat, bits: nat, numBits: nat, ptr: nat, e: nat)
    requires 0 < ptr <= |data| && e == 8 && numBits + e <= word && Reg(Value(data), word, bits, numBits, ptr)
    ensures Reg(Value(data), word, bits + Shl(data[ptr - 1], word - numBits - e), numBits + e, ptr - 1)
  {
    var f, b, n := Field(Value(data), 8 * ptr, numBits), data[ptr - 1], word - numBits - e;
    ByteField(data, ptr - 1, e);
    FieldSplit(Value(data), 8 * (ptr - 1), e, numBits);
    assert 8 * (ptr - 1) + e == 8 * ptr && e + numBits == numBits + e;
    ShlAdd(b, Shl(f, e), n);
    ShlSum(f, e, n);
  }

  /** shift += len; bits <<= len, in a register of word bits */
  lemma {:induction false} RegTake(v: nat, word: nat, bits: nat, numBits: nat, ptr: nat, len: nat)
    requires Reg(v, word, bits, numBits, ptr) && len <= numBits
    ensures Reg(v, word, Low(Shl(bits, len), word), numBits - len, ptr)
  {
    var f, n := Field(v, 8 * ptr, numBits), numBits - len;
    var low, hi, s := Low(f, n), Shr(f, n), word - numBits;
    Split(f, n);
    ShlAdd(low, Shl(hi, n), s);
    ShlSum(hi, n, s);
    ShlBound(low, n, s);
    assert n + s == word - len && s + len == word - n;
    ShlWraps(Shl(low, s), hi, len, word - len);
    ShlSum(low, s, len);
    LowLow(Shr(v, 8 * ptr), n, numBits);
  }

  // ---- zstd_decompress_literal_stream --------------------------------------

  /** lines 158-160: load until there is no room for a byte or no byte. */
  method LoadBytes(data: seq<Byte>, word: nat, bits0: nat, numBits0: nat, ptr0: nat)
    returns (bits: nat, numBits: nat, ptr: nat)
    requires 0 < ptr0 <= |data| && numBits0 + 8 <= word && Reg(Value(data), word, bits0, numBits0, ptr0)
    ensures Reg(Value(data), word, bits, numBits, ptr) && ptr < ptr0 && numBits + 8 * ptr == numBits0 + 8 * ptr0
  {
    RegLoad(data, word, bits0, numBits0, ptr0, 8);
    bits := bits0 + Shl(data[ptr0 - 1], word - numBits0 - 8);
    numBits, ptr := numBits0 + 8, ptr0 - 1;
    while word - numBits >= 8 && ptr > 0
      invariant Reg(Value(data), word, bits, numBits, ptr) && ptr < ptr0 && numBits + 8 * ptr == numBits0 + 8 * ptr0
    {
      RegLoad(data, word, bits, numBits, ptr, 8);
      bits := bits + Shl(data[ptr - 1], word - numBits - 8);
      numBits, ptr := numBits + 8, ptr - 1;
    }
  }

  /** The entry at the top of the register: table + (bits >> 21) */
  method Peek(table: seq<Entry>, depth: nat, v: nat, word: nat, bits: nat, numBits: nat, ptr: nat) returns (e: Entry)
    requires PrefixTable(table, depth) && depth <= word && Reg(v, word, bits, numBits, ptr)
    ensures e.len <= depth
    ensures e.len <= numBits || ptr == 0 ==> e == table[Top(v, numBits + 8 * ptr, depth)]
  {
    RegTop(Field(v, 8 * ptr, numBits), word, numBits, depth);
    e := table[Shr(bits, word - depth)];
    if e.len <= numBits {
      SameEntry(table, depth, v, numBits, ptr);
    } else if ptr == 0 {
      LoadedTop(v, numBits, depth);
    }
  }

  /** lines 155-163: the next literal. */
  method NextLiteral(table: seq<Entry>, depth: nat, data: seq<Byte>, word: nat, bits0: nat, numBits0: nat, ptr0: nat,
                     ghost left: nat)
    returns (ok: bool, e: Entry, bits: nat, numBits: nat, ptr: nat)
    requires PrefixTable(table, depth) && depth + 8 <= word && ptr0 <= |data|
    requires Reg(Value(data), word, bits0, numBits0, ptr0)
    requires left == numBits0 + 8 * ptr0
    ensures ok <==> table[Top(Value(data), left, depth)].len <= left
    ensures ok ==> e == table[Top(Value(data), left, depth)]
    ensures ok ==> ptr <= |data| && Reg(Value(data), word, bits, numBits, ptr) && numBits + 8 * ptr == left - e.len
  {
    bits, numBits, ptr := bits0, numBits0, ptr0;
    e := Peek(table, depth, Value(data), word, bits, numBits, ptr);
    while e.len > numBits
      invariant ptr <= |data| && Reg(Value(data), word, bits, numBits, ptr) && numBits + 8 * ptr == left
      invariant e.len <= depth
      invariant e.len <= numBits || ptr == 0 ==> e == table[Top(Value(data), left, depth)]
      decreases ptr
    {
      if ptr == 0 {
        return false, e, bits, numBits, ptr;
      }
      bits, numBits, ptr := LoadBytes(data, word, bits, numBits, ptr);
      e := Peek(table, depth, Value(data), word, bits, numBits, ptr);
    }
    RegTake(Value(data), word, bits, numBits, ptr, e.len);
    ok, bits, numBits := true, Low(Shl(bits, e.len), word), numBits - e.len;
  }

  function Join(prefix: seq<nat>, d: Decoded): Decoded
  {
    if d.Fail? then Fail else Lits(prefix + d.s)
  }

  lemma {:induction false} JoinStep(table: seq<Entry>, depth: nat, v: nat, left: nat, n: nat, prefix: seq<nat>)
    requires |table| == Pow2(depth) && n > 0
    ensures var e := table[Top(v, left, depth)];
            Join(prefix, Decode(table, depth, v, left, n)) ==
            if e.len > left then Fail else Join(prefix + [e.sym], Decode(table, depth, v, left - e.len, n - 1))
  {
    var e := table[Top(v, left, depth)];
    if e.len <= left {
      var rest := Decode(table, depth, v, left - e.len, n - 1);
      if rest.Lits? {
        assert prefix + ([e.sym] + rest.s) == prefix + [e.sym] + rest.s;
      }
    }
  }

  /** lines 146-150: what is below the highest bit of the last byte. */
  lemma {:induction false} FirstReg(data: seq<Byte>, word: nat, e: nat)
    requires data != [] && data[|data| - 1] > 0 && e == 8 <= word
    ensures var last := data[|data| - 1];
            Log2(last) <= 7 && Reg(Value(data), word, Low(Shl(last, word - Log2(last)), word), Log2(last), |data| - 1)
  {
    var last, n := data[|data| - 1], |data| - 1;
    HighestBit(data, |data|);
    var k := Log2(last);
    Split(last, k);
    assert word - k + k == word && k + (word - k) == word;
    ShlWraps(Low(last, k), Shr(last, k), word - k, k);
    ByteField(data, n, e);
    LowLow(Shr(Value(data), 8 * n), k, e);
  }

  /** lines 152-166: the literals, out of the register and the bytes below ptr0. */
  method DecodeLiterals(table: seq<Entry>, depth: nat, data: seq<Byte>, word: nat, bits0: nat, numBits0: nat, ptr0: nat,
                        out: array<nat>, n: nat, ghost v: nat, ghost left0: nat)
    returns (ok: bool)
    requires PrefixTable(table, depth) && depth + 8 <= word && n <= out.Length && v == Value(data)
    requires ptr0 <= |data| && Reg(v, word, bits0, numBits0, ptr0) && numBits0 + 8 * ptr0 == left0
    modifies out
    ensures ok <==> Decode(table, depth, v, left0, n).Lits?
    ensures ok ==> Decode(table, depth, v, left0, n) == Lits(out[..n])
  {
    var bits: nat, numBits: nat, ptr: nat := bits0, numBits0, ptr0;
    ghost var left: nat := left0;
    ghost var whole := Decode(table, depth, v, left, n);
    assert whole == Join([], whole) by { assert whole.Lits? ==> [] + whole.s == whole.s; }
    for i := 0 to n
      invariant ptr <= |data| && Reg(v, word, bits, numBits, ptr) && numBits + 8 * ptr == left
      invariant whole == Join(out[..i], Decode(table, depth, v, left, n - i))
    {
      var more, e;
      JoinStep(table, depth, v, left, n - i, out[..i]);
      more, e, bits, numBits, ptr := NextLiteral(table, depth, data, word, bits, numBits, ptr, left);
      if !more {
        return false;
      }
      left := left - e.len;
      out[i] := e.sym;
      assert out[..i + 1] == out[..i] + [e.sym];
    }
    ok := ptr == 0 && numBits == 0;
  }

  /** zstd_decompress_literal_stream, for n literals: nothing but what was written as n literals is accepted. */
  method DecompressLiteralStream(table: seq<Entry>, depth: nat, data: seq<Byte>, word: nat, out: array<nat>, n: Pos)
    returns (ok: bool)
    requires PrefixTable(table, depth) && depth + 8 <= word && n <= out.Length
    modifies out
    ensures ok <==>
      data != [] && data[|data| - 1] > 0 && Decode(table, depth, Value(data), Log2Of(Value(data)), n).Lits?
    ensures ok ==> Decode(table, depth, Value(data), Log2Of(Value(data)), n) == Lits(out[..n])
  {
    if data == [] || data[|data| - 1] == 0 {
      return false;
    }
    var last := data[|data| - 1];
    var numBits: nat, ptr: nat := Log2(last), |data| - 1;
    FirstReg(data, word, 8);
    var bits: nat := Low(Shl(last, word - numBits), word);
    HighestBit(data, |data|);
    assert data[..|data|] == data;
    ghost var v, left: nat := Value(data), Log2Of(Value(data));
    ok := DecodeLiterals(table, depth, data, word, bits, numBits, ptr, out, n, v, left);
  }

  /** So a stream is accepted exactly if it is a 1 followed by the codewords of the literals it yields. */
  lemma {:induction false} AcceptedStreams(table: seq<Entry>, depth: nat, v: Pos, lits: seq<nat>)
    requires PrefixTable(table, depth)
    ensures Decode(table, depth, v, Log2(v), |lits|) == Lits(lits) <==>
            AllWritten(table, lits) && v == Pow2(Length(table, lits)) + Code(table, depth, lits)
  {
    var n := Log2(v);
    DecodeIsInverse(table, depth, v, n, lits);
    Log2Bounds(v);
    LowBelowTop(v);
    if AllWritten(table, lits) && v == Pow2(Length(table, lits)) + Code(table, depth, lits) {
      CodeFits(table, depth, lits);
      Log2Unique(v, Length(table, lits));
    }
  }

  lemma {:induction false} LowBelowTop(v: Pos)
    ensures v == Pow2(Log2(v)) + Low(v, Log2(v))
  {
    if v > 1 {
      LowBelowTop(v / 2);
    }
  }
}
