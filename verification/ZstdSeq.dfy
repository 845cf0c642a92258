/**
 compression/zstd_sequences.c: decoding the sequences of a block (section 3.1.1.3.2 of RFC 8878).
 */
module ZstdSeq {
  import opened Basics
  import opened Bits
  import opened BackBits
  import opened Fse
  import opened ZstdPack
  import opened ZstdTables

  // ---- codes for literal and match lengths ---------------------------------

  const COPY_CODES := 36
  const LENGTH_CODES := 53
  const DIST_CODES := 29

  /** The values base to base + 2^bits - 1. */
  datatype Code = Code(base: nat, bits: nat)

  /** ctable_copy, lines 8-15 */
  function CopyCode(sym: nat): (c: Code)
    ensures sym < COPY_CODES ==> c.bits <= 16
  {
    if sym < 16 then Code(sym, 0)
    else if sym < 20 then Code(16 + 2 * (sym - 16), 1)
    else if sym < 22 then Code(24 + 4 * (sym - 20), 2)
    else if sym < 24 then Code(32 + 8 * (sym - 22), 3)
    else if sym < 25 then Code(48, 4)
    else Code(Pow2(sym - 19), sym - 19)
  }

  /** ctable_length, lines 16-25 */
  function LengthCode(sym: nat): (c: Code)
    ensures sym < LENGTH_CODES ==> c.bits <= 16
  {
    if sym < 32 then Code(sym, 0)
    else if sym < 36 then Code(32 + 2 * (sym - 32), 1)
    else if sym < 38 then Code(40 + 4 * (sym - 36), 2)
    else if sym < 40 then Code(48 + 8 * (sym - 38), 3)
    else if sym < 42 then Code(64 + 16 * (sym - 40), 4)
    else if sym < 43 then Code(96, 5)
    else Code(Pow2(sym - 36), sym - 36)
  }

  /** The codes follow each other without a gap ... */
  lemma {:induction false} CodesMeet(sym: nat)
    ensures CopyCode(sym).base + Pow2(CopyCode(sym).bits) == CopyCode(sym + 1).base
    ensures LengthCode(sym).base + Pow2(LengthCode(sym).bits) == LengthCode(sym + 1).base
  {
    assert Pow2(1) == 2 && Pow2(2) == 4 && Pow2(3) == 8 && Pow2(4) == 16 && Pow2(5) == 32 && Pow2(6) == 64;
  }

  lemma {:induction false} BasesGrow(sym: nat, sym': nat)
    requires sym <= sym'
    ensures CopyCode(sym).base <= CopyCode(sym').base && LengthCode(sym).base <= LengthCode(sym').base
    decreases sym' - sym
  {
    if sym < sym' {
      CodesMeet(sym);
      BasesGrow(sym + 1, sym');
    }
  }

  lemma {:induction false} CodesEnd()
    ensures CopyCode(COPY_CODES).base == 0x20000 && LengthCode(LENGTH_CODES).base == 0x20000
  {
    assert Pow2(8) == 256 && Pow2(9) == 512;
    Pow2Sum(8, 9);
  }

  /** ... so the values of all codes fit the 17 bits they are packed into (line 122). */
  lemma {:induction false} CodesFit(copySym: nat, copyExtra: nat, lengthSym: nat, lengthExtra: nat)
    requires copySym < COPY_CODES && copyExtra < Pow2(CopyCode(copySym).bits)
    requires lengthSym < LENGTH_CODES && lengthExtra < Pow2(LengthCode(lengthSym).bits)
    ensures CopyCode(copySym).base + copyExtra < 0x20000
    ensures LengthCode(lengthSym).base + lengthExtra < 0x20000
  {
    CodesMeet(copySym);
    BasesGrow(copySym + 1, COPY_CODES);
    CodesMeet(lengthSym);
    BasesGrow(lengthSym + 1, LENGTH_CODES);
    CodesEnd();
  }

  // ---- what a run of sequences is ------------------------------------------

  datatype Table = Table(log: nat, entries: seq<int>)
  datatype Tables = Tables(copy: Table, length: Table, dist: Table)
  datatype Entries = Entries(copy: int, length: int, dist: int)

  ghost predicate GoodTables(ts: Tables)
  {
    && ts.copy.log <= 9 && GoodTable(ts.copy.entries, ts.copy.log, COPY_CODES)
    && ts.length.log <= 9 && GoodTable(ts.length.entries, ts.length.log, LENGTH_CODES)
    && ts.dist.log <= 8 && GoodTable(ts.dist.entries, ts.dist.log, DIST_CODES)
  }

  ghost predicate GoodEntries(ts: Tables, es: Entries)
  {
    && GoodEntry(es.copy, ts.copy.log, COPY_CODES)
    && GoodEntry(es.length, ts.length.log, LENGTH_CODES)
    && GoodEntry(es.dist, ts.dist.log, DIST_CODES)
  }

  /** lines 135-137: the bits that lead to the next states. */
  function StateRequest(es: Entries): (r: Request)
    requires 0 <= EntryBits(es.copy) && 0 <= EntryBits(es.length) && 0 <= EntryBits(es.dist)
    ensures Fits32(r)
  {
    Request(EntryBits(es.copy), EntryBits(es.length), EntryBits(es.dist))
  }

  ghost predicate TripleFits(t: Triple, r: Request)
  {
    t.a < Pow2(r.a) && t.b < Pow2(r.b) && t.c < Pow2(r.c)
  }

  /** lines 138-141 */
  function NextEntries(ts: Tables, es: Entries, t: Triple): (r: Entries)
    requires GoodTables(ts) && GoodEntries(ts, es)
    requires TripleFits(t, StateRequest(es))
    ensures GoodEntries(ts, r)
  {
    Entries(ts.copy.entries[t.a + EntryBase(es.copy)],
            ts.length.entries[t.b + EntryBase(es.length)],
            ts.dist.entries[t.c + EntryBase(es.dist)])
  }

  /** lines 142-148: the bits that the three symbols have added to them. */
  function ExtraRequest(es: Entries): Request
    requires 0 <= EntrySym(es.copy) && 0 <= EntrySym(es.length) && 0 <= EntrySym(es.dist)
  {
    Request(EntrySym(es.dist), LengthCode(EntrySym(es.length)).bits, CopyCode(EntrySym(es.copy)).bits)
  }

  /** lines 149-151 */
  datatype Values = Values(copy: nat, length: nat, dist: Pos)

  function ValuesOf(es: Entries, t: Triple): (v: Values)
    requires 0 <= EntrySym(es.copy) && 0 <= EntrySym(es.length) && 0 <= EntrySym(es.dist)
  {
    Values(t.c + CopyCode(EntrySym(es.copy)).base, t.b + LengthCode(EntrySym(es.length)).base, t.a + Pow2(EntrySym(es.dist)))
  }

  lemma {:induction false} ValuesFit(ts: Tables, es: Entries, t: Triple)
    requires GoodEntries(ts, es)
    requires TripleFits(t, ExtraRequest(es))
    ensures ValuesOf(es, t).copy < 0x20000 && ValuesOf(es, t).length < 0x20000 && ValuesOf(es, t).dist < 0x4000_0000
  {
    CodesFit(EntrySym(es.copy), t.c, EntrySym(es.length), t.b);
    Pow2Monotone(EntrySym(es.dist), 28);
    assert Pow2(8) == 256 && Pow2(10) == 1024;
    Pow2Sum(8, 10);
    Pow2Sum(18, 10);
  }

  /** Whether total bits can be read when left are unread; a register limits them to what it can be filled up to. */
  predicate Enough(left: nat, total: nat, register: bool)
  {
    total <= left && (register ==> total <= Capacity(left))
  }

  lemma {:induction false} CutBounds(bits: BitSource, left: nat, r: Request)
    requires Bounded(bits) && Total(r) <= left
    ensures TripleFits(Cut(bits, left, r), r)
  {
  }

  datatype StatesRead = NoStates | States(es: Entries, left: nat)

  /** lines 135-141: the three tables' next states. */
  ghost function ReadStates(bits: BitSource, left: nat, ts: Tables, es: Entries, register: bool): (s: StatesRead)
    requires Bounded(bits) && GoodTables(ts) && GoodEntries(ts, es)
    ensures s.States? ==> GoodEntries(ts, s.es) && s.left <= left
  {
    var r := StateRequest(es);
    if !Enough(left, Total(r), register) then NoStates
    else
      CutBounds(bits, left, r);
      States(NextEntries(ts, es, Cut(bits, left, r)), left - Total(r))
  }

  datatype ValuesRead = NoValues | GotValues(v: Values, left: nat)

  /** lines 142-151: the values of the symbols of the new states. */
  ghost function ReadValues(bits: BitSource, left: nat, ts: Tables, es: Entries, register: bool): (r: ValuesRead)
    requires Bounded(bits) && GoodEntries(ts, es)
    ensures r.GotValues? ==> r.left <= left && r.v.copy < 0x20000 && r.v.length < 0x20000 && r.v.dist < 0x4000_0000
  {
    var x := ExtraRequest(es);
    if !Enough(left, Total(x), register) then NoValues
    else
      CutBounds(bits, left, x);
      ValuesFit(ts, es, Cut(bits, left, x));
      GotValues(ValuesOf(es, Cut(bits, left, x)), left - Total(x))
  }

  datatype One = NoMore | Next(s: Sequence, left: nat, es: Entries, history: seq<nat>)

  /** The sequence that three values make, with the history behind them. */
  function Applied(v: Values, h: seq<nat>, left: nat, es: Entries): One
    requires |h| == 3 && h[0] > 0
  {
    var o := Resolve(h, v.dist, v.copy);
    if o.offset == 0 then NoMore else Next(Sequence(v.copy, v.length + 3, o.offset), left, es, o.history)
  }

  /** lines 135-152: the next sequence. */
  ghost function ReadOne(bits: BitSource, left: nat, ts: Tables, es: Entries, h: seq<nat>, register: bool): (o: One)
    requires Bounded(bits) && GoodTables(ts) && GoodEntries(ts, es) && GoodHistory(h)
    ensures o.Next? ==> GoodEntries(ts, o.es) && GoodHistory(o.history) && o.history[0] == o.s.dist
    ensures o.Next? ==> o.left <= left && o.s.copy < 0x20000 && 3 <= o.s.length < 0x20003
  {
    var s := ReadStates(bits, left, ts, es, register);
    if s.NoStates? then NoMore
    else
      var r := ReadValues(bits, s.left, ts, s.es, register);
      if r.NoValues? then NoMore
      else
        ResolveKeeps(h, r.v.dist, r.v.copy);
        Applied(r.v, h, r.left, s.es)
  }

  /** What reads one sequence, given the unread bits, the entries and the history. */
  type Step = (nat, Entries, seq<nat>) -> One

  ghost function StepOf(bits: BitSource, ts: Tables, register: bool): Step
    requires Bounded(bits) && GoodTables(ts)
  {
    (left: nat, es, h) => if GoodEntries(ts, es) && GoodHistory(h) then ReadOne(bits, left, ts, es, h, register) else NoMore
  }

  datatype Decoded = Failed | Decoded(seqs: seq<Sequence>, left: nat, es: Entries, history: seq<nat>)

  /** n sequences, one after the other. */
  function ReadMany(step: Step, left: nat, es: Entries, h: seq<nat>, n: nat, got: seq<Sequence>): Decoded
    decreases n
  {
    if n == 0 then Decoded(got, left, es, h)
    else
      match step(left, es, h)
      case NoMore => Failed
      case Next(s, left', es', h') => ReadMany(step, left', es', h', n - 1, got + [s])
  }

  /** What a run of sequences hands on to the next one and what it has handed out. */
  ghost predicate GoodSequences(s: seq<Sequence>)
  {
    forall i :: 0 <= i < |s| ==> s[i].copy < 0x20000 && 3 <= s[i].length < 0x20003 && s[i].dist < 0x4000_0000
  }

  /** The entries and histories that a run can come to. */
  type Reach = (Entries, seq<nat>) -> bool

  ghost function ReachOf(ts: Tables): Reach
  {
    (es, h) => GoodEntries(ts, es) && GoodHistory(h)
  }

  ghost predicate Closed(step: Step, reach: Reach)
  {
    forall left, es, h :: reach(es, h) && step(left, es, h).Next? ==>
      var o := step(left, es, h);
      reach(o.es, o.history) && o.left <= left && GoodSequences([o.s])
  }

  lemma {:induction false} RunKeeps(step: Step, reach: Reach, left: nat, es: Entries, h: seq<nat>, n: nat,
                                    got: seq<Sequence>)
    requires Closed(step, reach) && reach(es, h) && GoodSequences(got)
    ensures match ReadMany(step, left, es, h, n, got)
      case Failed => true
      case Decoded(seqs, left', es', h') => reach(es', h') && GoodSequences(seqs) && |seqs| == |got| + n && left' <= left
    decreases n
  {
    if n > 0 {
      var o := step(left, es, h);
      if o.Next? {
        SequencesAppend(got, o.s);
        RunKeeps(step, reach, o.left, o.es, o.history, n - 1, got + [o.s]);
      }
    }
  }

  lemma {:induction false} SequencesAppend(got: seq<Sequence>, s: Sequence)
    requires GoodSequences(got) && GoodSequences([s])
    ensures GoodSequences(got + [s])
  {
    assert [s][0] == s;
  }

  lemma {:induction false} OneKeeps(bits: BitSource, ts: Tables, register: bool, left: nat, es: Entries, h: seq<nat>)
    requires Bounded(bits) && GoodTables(ts) && GoodEntries(ts, es) && GoodHistory(h)
    ensures var o := StepOf(bits, ts, register)(left, es, h);
            o.Next? ==> GoodEntries(ts, o.es) && GoodHistory(o.history) && o.left <= left && GoodSequences([o.s])
  {
    assert StepOf(bits, ts, register)(left, es, h) == ReadOne(bits, left, ts, es, h, register);
  }

  lemma {:induction false} StepCloses(bits: BitSource, ts: Tables, register: bool)
    requires Bounded(bits) && GoodTables(ts)
    ensures Closed(StepOf(bits, ts, register), ReachOf(ts))
  {
    forall left, es, h | ReachOf(ts)(es, h) && StepOf(bits, ts, register)(left, es, h).Next?
      ensures var o := StepOf(bits, ts, register)(left, es, h);
              ReachOf(ts)(o.es, o.history) && o.left <= left && GoodSequences([o.s])
    {
      OneKeeps(bits, ts, register, left, es, h);
    }
  }

  /** Over any run every state stays inside its table and every offset of the history above zero. */
  lemma {:induction false} RunKeepsStates(bits: BitSource, ts: Tables, register: bool, left: nat, es: Entries,
                                          h: seq<nat>, n: nat)
    requires Bounded(bits) && GoodTables(ts) && GoodEntries(ts, es) && GoodHistory(h)
    ensures match ReadMany(StepOf(bits, ts, register), left, es, h, n, [])
      case Failed => true
      case Decoded(seqs, left', es', h') =>
        GoodEntries(ts, es') && GoodHistory(h') && GoodSequences(seqs) && |seqs| == n && left' <= left
  {
    StepCloses(bits, ts, register);
    RunKeeps(StepOf(bits, ts, register), ReachOf(ts), left, es, h, n, []);
  }

  // ---- decode_sequences ----------------------------------------------------

  lemma {:induction false} BitsOfBounded(mem: seq<Byte>)
    ensures Bounded(BitsOf(mem))
  {
  }

  /** DECODE3, and what its fields are bounded by. */
  method DecodeFields(mem: seq<Byte>, ptr0: nat, numBits0: nat, r: Request, ghost src: BitSource, ghost left: nat)
    returns (ok: bool, t: Triple, ptr: nat, numBits: nat)
    requires numBits0 <= WORD && ptr0 + 8 <= |mem| && Fits32(r) && src == BitsOf(mem) && left == numBits0 + 8 * ptr0
    ensures ok <==> Enough(left, Total(r), true)
    ensures ok ==> numBits <= WORD && ptr + 8 <= |mem| && numBits + 8 * ptr == left - Total(r)
    ensures ok ==> t == Cut(src, left, r) && TripleFits(t, r)
  {
    ok, t, ptr, numBits := DecodeWord(mem, ptr0, numBits0, r);
    if ok {
      BitsOfBounded(mem);
      CutBounds(src, left, r);
    }
  }

  lemma {:induction false} EntriesRequests(ts: Tables, es: Entries)
    requires GoodEntries(ts, es)
    ensures Fits32(StateRequest(es)) && Fits32(ExtraRequest(es))
  {
  }

  /** lines 135-141 */
  method DecodeStates(mem: seq<Byte>, ptr0: nat, numBits0: nat, ts: Tables, es0: Entries, ghost src: BitSource,
                      ghost left: nat)
    returns (ok: bool, es: Entries, ptr: nat, numBits: nat)
    requires numBits0 <= WORD && ptr0 + 8 <= |mem| && left == numBits0 + 8 * ptr0
    requires src == BitsOf(mem) && Bounded(src) && GoodTables(ts) && GoodEntries(ts, es0)
    ensures ok <==> ReadStates(src, left, ts, es0, true).States?
    ensures ok ==> ReadStates(src, left, ts, es0, true) == States(es, numBits + 8 * ptr)
    ensures ok ==> numBits <= WORD && ptr + 8 <= |mem|
  {
    var t;
    es := es0;
    EntriesRequests(ts, es0);
    ok, t, ptr, numBits := DecodeFields(mem, ptr0, numBits0, StateRequest(es0), src, left);
    if ok {
      es := NextEntries(ts, es0, t);
    }
  }

  /** lines 142-151 */
  method DecodeValues(mem: seq<Byte>, ptr0: nat, numBits0: nat, ghost ts: Tables, es: Entries, ghost src: BitSource,
                      ghost left: nat)
    returns (ok: bool, v: Values, ptr: nat, numBits: nat)
    requires numBits0 <= WORD && ptr0 + 8 <= |mem| && left == numBits0 + 8 * ptr0
    requires src == BitsOf(mem) && Bounded(src) && GoodEntries(ts, es)
    ensures ok <==> ReadValues(src, left, ts, es, true).GotValues?
    ensures ok ==> ReadValues(src, left, ts, es, true) == GotValues(v, numBits + 8 * ptr)
    ensures ok ==> numBits <= WORD && ptr + 8 <= |mem|
  {
    var t;
    v := Values(0, 0, 1);
    EntriesRequests(ts, es);
    ok, t, ptr, numBits := DecodeFields(mem, ptr0, numBits0, ExtraRequest(es), src, left);
    if ok {
      v := ValuesOf(es, t);
    }
  }

  lemma {:induction false} OneWithoutStates(bits: BitSource, left: nat, ts: Tables, es: Entries, h: seq<nat>)
    requires Bounded(bits) && GoodTables(ts) && GoodEntries(ts, es) && GoodHistory(h)
    requires ReadStates(bits, left, ts, es, true).NoStates?
    ensures ReadOne(bits, left, ts, es, h, true) == NoMore
  {
  }

  lemma {:induction false} OneFromParts(bits: BitSource, left: nat, ts: Tables, es: Entries, h: seq<nat>, es': Entries,
                                        left': nat, r: ValuesRead)
    requires Bounded(bits) && GoodTables(ts) && GoodEntries(ts, es) && GoodHistory(h) && GoodEntries(ts, es')
    requires ReadStates(bits, left, ts, es, true) == States(es', left') && ReadValues(bits, left', ts, es', true) == r
    ensures ReadOne(bits, left, ts, es, h, true) == if r.NoValues? then NoMore else Applied(r.v, h, r.left, es')
  {
  }

  /** lines 135-151 */
  method DecodeParts(mem: seq<Byte>, ptr0: nat, numBits0: nat, ts: Tables, es0: Entries, ghost src: BitSource,
                     ghost left: nat, ghost h: seq<nat>, ghost one: One)
    returns (ok: bool, v: Values, es: Entries, ptr: nat, numBits: nat)
    requires numBits0 <= WORD && ptr0 + 8 <= |mem| && left == numBits0 + 8 * ptr0
    requires src == BitsOf(mem) && Bounded(src) && GoodTables(ts) && GoodEntries(ts, es0) && GoodHistory(h)
    requires one == ReadOne(src, left, ts, es0, h, true)
    ensures !ok ==> one == NoMore
    ensures ok ==> numBits <= WORD && ptr + 8 <= |mem| && GoodEntries(ts, es)
    ensures ok ==> v.copy < 0x20000 && v.length < 0x20000 && v.dist < 0x4000_0000
    ensures ok ==> one == Applied(v, h, numBits + 8 * ptr, es)
  {
    v := Values(0, 0, 1);
    ok, es, ptr, numBits := DecodeStates(mem, ptr0, numBits0, ts, es0, src, left);
    if !ok {
      OneWithoutStates(src, left, ts, es0, h);
      return;
    }
    ghost var left' := numBits + 8 * ptr;
    OneFromParts(src, left, ts, es0, h, es, left', ReadValues(src, left', ts, es, true));
    ok, v, ptr, numBits := DecodeValues(mem, ptr, numBits, ts, es, src, left');
  }

  ghost predicate At(left: nat, es: Entries, h: seq<nat>)
  {
    true
  }

  ghost predicate Kept(es: Entries, h: seq<nat>)
  {
    true
  }

  /** step reads one sequence of mem through a register, from wherever reach holds, and what it comes to is in reach. */
  ghost predicate Does(step: Step, reach: Reach, mem: seq<Byte>, ts: Tables)
  {
    && (forall left, es, h {:trigger At(left, es, h)} :: At(left, es, h) && reach(es, h) ==>
          && Bounded(BitsOf(mem)) && GoodTables(ts) && GoodEntries(ts, es) && GoodHistory(h)
          && step(left, es, h) == ReadOne(BitsOf(mem), left, ts, es, h, true))
    && (forall es, h {:trigger Kept(es, h)} :: Kept(es, h) && GoodEntries(ts, es) && GoodHistory(h) ==> reach(es, h))
  }

  lemma {:induction false} StepDoes(mem: seq<Byte>, ts: Tables)
    requires GoodTables(ts)
    ensures Bounded(BitsOf(mem)) && Does(StepOf(BitsOf(mem), ts, true), ReachOf(ts), mem, ts)
  {
    BitsOfBounded(mem);
  }

  /** line 76: in the order copy, distance, length. */
  function FirstRequest(ts: Tables): Request
  {
    Request(ts.copy.log, ts.dist.log, ts.length.log)
  }

  lemma {:induction false} FirstEntries(ts: Tables, t: Triple)
    requires GoodTables(ts) && TripleFits(t, FirstRequest(ts))
    ensures GoodEntries(ts, Entries(2048 * t.a, 2048 * t.c, 2048 * t.b))
  {
    EntryFields(0, 0, t.a);
    EntryFields(0, 0, t.b);
    EntryFields(0, 0, t.c);
  }

  // ---- struct sequences_state ----------------------------------------------

  class SequencesState {
    var ptr: nat
    var numBits: nat
    var entryCopy: int
    var entryLength: int
    var entryDist: int
    var dist1: nat
    var dist2: nat
    var dist3: nat

    constructor ()
    {
    }

    ghost function History(): seq<nat>
      reads this
    {
      [dist1, dist2, dist3]
    }

    function State(): Entries
      reads this
    {
      Entries(entryCopy, entryLength, entryDist)
    }

    ghost function Left(): nat
      reads this
    {
      numBits + 8 * ptr
    }

    ghost predicate Valid(mem: seq<Byte>, reach: Reach)
      reads this
    {
      reach(State(), History()) && numBits <= WORD && ptr + 8 <= |mem|
    }

    /** init_sequences: the string ends below its highest set bit; then come the three first states. */
    method InitSequences(mem: seq<Byte>, len: nat, ts: Tables, d1: nat, d2: nat, d3: nat) returns (ok: bool)
      requires len <= |mem| && 8 <= |mem| && GoodTables(ts) && GoodHistory([d1, d2, d3])
      modifies this
      ensures ok ==> len > 0 && mem[len - 1] > 0 && Value(mem[..len]) > 0
      ensures ok <==> len > 0 && mem[len - 1] > 0 && Enough(Log2Of(Value(mem[..len])), Total(FirstRequest(ts)), true)
      ensures ok ==> History() == [d1, d2, d3] && GoodEntries(ts, State()) && numBits <= WORD && ptr + 8 <= |mem|
      ensures ok ==> Left() == Log2Of(Value(mem[..len])) - Total(FirstRequest(ts))
      ensures ok ==> var t := Cut(BitsOf(mem), Log2Of(Value(mem[..len])), FirstRequest(ts));
                     State() == Entries(2048 * t.a, 2048 * t.c, 2048 * t.b)
    {
      if len == 0 || mem[len - 1] == 0 {
        return false;
      }
      var last := mem[len - 1];
      HighestBit(mem, len);
      ghost var left := Log2Of(Value(mem[..len]));
      var p: nat, b: nat, t := len - 1, Log2(last), Triple(0, 0, 0);
      while b <= 56 && 0 < p
        invariant p < len && b <= WORD && b + 8 * p == left
      {
        p, b := p - 1, b + 8;
      }
      ok, t, p, b := DecodeFields(mem, p, b, FirstRequest(ts), BitsOf(mem), left);
      if ok {
        ptr, numBits := p, b;
        entryCopy, entryLength, entryDist := 2048 * t.a, 2048 * t.c, 2048 * t.b;
        FirstEntries(ts, t);
        dist1, dist2, dist3 := d1, d2, d3;
      }
    }

    /** pack_sequence */
    method PackSequence(copy: nat, length: nat, dist: Pos) returns (ok: bool, out: nat)
      requires GoodHistory(History()) && copy < 0x20000 && length < 0x20000 && dist < 0x4000_0000
      modifies this`dist1, this`dist2, this`dist3
      ensures ok <==> Resolve(old(History()), dist, copy).offset != 0
      ensures ok ==> History() == Resolve(old(History()), dist, copy).history && GoodHistory(History())
      ensures ok ==> Unpack(out) == Sequence(copy, length + 3, Resolve(old(History()), dist, copy).offset)
      ensures ok ==> out < 0x1_0000_0000_0000_0000
    {
      var usedDist;
      ResolveKeeps(History(), dist, copy);
      if dist > 3 {
        usedDist := dist - 3;
        dist3 := dist2;
        dist2 := dist1;
        dist1 := usedDist;
      } else if copy == 0 {
        if dist == 3 {
          usedDist := dist1 - 1;
          dist3 := dist2;
          dist2 := dist1;
        } else if dist == 1 {
          usedDist := dist2;
          dist2 := dist1;
        } else {
          assert dist == 2;
          usedDist := dist3;
          dist3 := dist2;
          dist2 := dist1;
        }
      } else {
        if dist == 1 {
          usedDist := dist1;
        } else if dist == 2 {
          usedDist := dist2;
          dist2 := dist1;
        } else {
          usedDist := dist3;
          dist3 := dist2;
          dist2 := dist1;
        }
      }
      if usedDist == 0 {
        return false, 0;
      }
      dist1 := usedDist;
      PackRoundTrip(copy, length, usedDist);
      return true, Packed(copy, length, usedDist);
    }

    /** lines 135-152: one round of the loop. */
    method DecodeOne(mem: seq<Byte>, ptr0: nat, numBits0: nat, ts: Tables, es0: Entries, ghost src: BitSource,
                     ghost left: nat, ghost one: One)
      returns (more: bool, packed: nat, es: Entries, p: nat, b: nat)
      requires numBits0 <= WORD && ptr0 + 8 <= |mem| && left == numBits0 + 8 * ptr0
      requires src == BitsOf(mem) && Bounded(src) && GoodTables(ts) && GoodEntries(ts, es0) && GoodHistory(History())
      requires one == ReadOne(src, left, ts, es0, History(), true)
      modifies this`dist1, this`dist2, this`dist3
      ensures more <==> one.Next?
      ensures more ==> one == Next(Unpack(packed), b + 8 * p, es, History())
      ensures more ==> b <= WORD && p + 8 <= |mem| && GoodEntries(ts, es) && GoodHistory(History())
    {
      packed := 0;
      var v;
      more, v, es, p, b := DecodeParts(mem, ptr0, numBits0, ts, es0, src, left, History(), one);
      if more {
        more, packed := PackSequence(v.copy, v.length, v.dist);
      }
    }

    /** The same, in terms of step. */
    method DecodeStep(mem: seq<Byte>, ptr0: nat, numBits0: nat, ts: Tables, es0: Entries, ghost step: Step,
                      ghost reach: Reach, ghost left: nat)
      returns (more: bool, packed: nat, es: Entries, p: nat, b: nat)
      requires numBits0 <= WORD && ptr0 + 8 <= |mem| && left == numBits0 + 8 * ptr0
      requires Does(step, reach, mem, ts) && reach(es0, History())
      modifies this`dist1, this`dist2, this`dist3
      ensures more <==> step(left, es0, old(History())).Next?
      ensures more ==> step(left, es0, old(History())) == Next(Unpack(packed), b + 8 * p, es, History())
      ensures more ==> b <= WORD && p + 8 <= |mem| && reach(es, History())
    {
      assert At(left, es0, History());
      more, packed, es, p, b := DecodeOne(mem, ptr0, numBits0, ts, es0, BitsOf(mem), left, step(left, es0, History()));
      assert Kept(es, History());
    }

    /** decode_sequences */
    method DecodeSequences(mem: seq<Byte>, n: Pos, out: array<nat>, ts: Tables, ghost step: Step, ghost reach: Reach)
      returns (ok: bool)
      requires Valid(mem, reach) && n <= out.Length && Does(step, reach, mem, ts)
      modifies this, out
      ensures ok <==> ReadMany(step, old(Left()), old(State()), old(History()), n, []).Decoded?
      ensures ok ==> Valid(mem, reach)
      ensures ok ==> ReadMany(step, old(Left()), old(State()), old(History()), n, []) ==
                     Decoded(UnpackAll(out[..n]), Left(), State(), History())
    {
      ghost var whole := ReadMany(step, Left(), State(), History(), n, []);
      var es, p: nat, b: nat := State(), ptr, numBits;
      assert UnpackAll(out[..0]) == [];
      for i := 0 to n
        invariant b <= WORD && p + 8 <= |mem| && reach(es, History())
        invariant whole == ReadMany(step, b + 8 * p, es, History(), n - i, UnpackAll(out[..i]))
      {
        var more, packed;
        more, packed, es, p, b := DecodeStep(mem, p, b, ts, es, step, reach, b + 8 * p);
        if !more {
          return false;
        }
        UnpackAllAppend(out[..i], packed);
        out[i] := packed;
        assert out[..i + 1] == out[..i] + [packed];
      }
      entryCopy, entryLength, entryDist := es.copy, es.length, es.dist;
      ptr, numBits := p, b;
      ok := true;
    }
  }
}
