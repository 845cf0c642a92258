/**
 The sequences of section 3.1.1.3.2 of RFC 8878, as a writer has them: the codes of lengths and
 offsets, the states of the three tables, and the bits, which are read from the end of the
 string. The decoder of compression/zstd_sequences.c reads back whatever is written.
 */
module ZstdWriter {
  import opened Basics
  import opened Bits
  import opened Fse
  import opened BackBits
  import opened ZstdPack
  import opened ZstdTables
  import opened ZstdSeq
  import opened ZstdBlock

  // ---- the codes -----------------------------------------------------------

  /** The bits of the codes for literal lengths, and those for match lengths. */
  const COPY_BITS: seq<nat> :=
    Run(16, 0) + [1, 1, 1, 1, 2, 2, 3, 3, 4] + [6, 7, 8, 9, 10, 11, 12, 13, 14, 15, 16]
  const LENGTH_BITS: seq<nat> :=
    Run(32, 0) + [1, 1, 1, 1, 2, 2, 3, 3, 4, 4, 5] + [7, 8, 9, 10, 11, 12, 13, 14, 15, 16]

  /** How many numbers the first k codes of these bits stand for. */
  function Reached(bits: seq<nat>, k: nat): nat
    requires k <= |bits|
  {
    if k == 0 then 0 else Reached(bits, k - 1) + Pow2(bits[k - 1])
  }

  /** Codes that follow each other begin where the one before ends. */
  lemma {:induction false} BasesAre(code: nat -> Code, bits: seq<nat>, k: nat)
    requires code(0).base == 0 && k <= |bits|
    requires forall i :: 0 <= i < |bits| ==> code(i).bits == bits[i] && code(i).base + Pow2(bits[i]) == code(i + 1).base
    ensures code(k).base == Reached(bits, k)
  {
    if k > 0 {
      BasesAre(code, bits, k - 1);
      assert code(k - 1).bits == bits[k - 1];
    }
  }

  /** The tables of section 3.1.1.3.2.1.1; for match lengths, without the 3 that is added to all of them. */
  lemma {:induction false} CodesAre(sym: nat)
    ensures sym < COPY_CODES ==> CopyCode(sym) == Code(Reached(COPY_BITS, sym), COPY_BITS[sym])
    ensures sym < LENGTH_CODES ==> LengthCode(sym) == Code(Reached(LENGTH_BITS, sym), LENGTH_BITS[sym])
  {
    CopyRow(COPY_BITS, sym);
    LengthRow(LENGTH_BITS, sym);
  }

  lemma {:induction false} CopyRow(bits: seq<nat>, sym: nat)
    requires |bits| == COPY_CODES && forall i :: 0 <= i < COPY_CODES ==> CopyCode(i).bits == bits[i]
    ensures sym < COPY_CODES ==> CopyCode(sym) == Code(Reached(bits, sym), bits[sym])
  {
    forall i: nat | i < COPY_CODES ensures CopyCode(i).base + Pow2(bits[i]) == CopyCode(i + 1).base {
      CodesMeet(i);
    }
    if sym < COPY_CODES {
      BasesAre(CopyCode, bits, sym);
    }
  }

  lemma {:induction false} LengthRow(bits: seq<nat>, sym: nat)
    requires |bits| == LENGTH_CODES && forall i :: 0 <= i < LENGTH_CODES ==> LengthCode(i).bits == bits[i]
    ensures sym < LENGTH_CODES ==> LengthCode(sym) == Code(Reached(bits, sym), bits[sym])
  {
    forall i: nat | i < LENGTH_CODES ensures LengthCode(i).base + Pow2(bits[i]) == LengthCode(i + 1).base {
      CodesMeet(i);
    }
    if sym < LENGTH_CODES {
      BasesAre(LengthCode, bits, sym);
    }
  }

  /** Every number of 17 bits has a code ... */
  lemma {:induction false} CopyFound(n: nat) returns (sym: nat)
    requires n < 0x20000
    ensures sym < COPY_CODES && CopyCode(sym).base <= n < CopyCode(sym).base + Pow2(CopyCode(sym).bits)
  {
    CodesEnd();
    sym := COPY_CODES - 1;
    CodesMeet(sym);
    while CopyCode(sym).base > n
      invariant sym < COPY_CODES && n < CopyCode(sym).base + Pow2(CopyCode(sym).bits)
    {
      sym := sym - 1;
      CodesMeet(sym);
    }
  }

  lemma {:induction false} LengthFound(n: nat) returns (sym: nat)
    requires n < 0x20000
    ensures sym < LENGTH_CODES && LengthCode(sym).base <= n < LengthCode(sym).base + Pow2(LengthCode(sym).bits)
  {
    CodesEnd();
    sym := LENGTH_CODES - 1;
    CodesMeet(sym);
    while LengthCode(sym).base > n
      invariant sym < LENGTH_CODES && n < LengthCode(sym).base + Pow2(LengthCode(sym).bits)
    {
      sym := sym - 1;
      CodesMeet(sym);
    }
  }

  /** ... and so has every offset value of up to 29 bits. */
  lemma {:induction false} DistFound(n: Pos) returns (sym: nat)
    requires n < 0x2000_0000
    ensures sym < DIST_CODES && Pow2(sym) <= n < Pow2(sym) + Pow2(sym)
  {
    sym := Log2(n);
    Log2Bounds(n);
    assert Pow2(9) == 512 && Pow2(10) == 1024;
    Pow2Sum(10, 9);
    Pow2Sum(10, 19);
    if sym >= DIST_CODES {
      Pow2Monotone(29, sym);
    }
  }

  // ---- bits, one field on top of the other ---------------------------------

  /** width bits that stand for x. */
  datatype Text = Text(x: nat, width: nat)

  function Top(t: Text, v: nat, n: nat): Text
  {
    Text(t.x + Shl(v, t.width), t.width + n)
  }

  /** The first width bits of mem are this text. */
  ghost predicate Has(mem: seq<Byte>, t: Text)
  {
    Low(Value(mem), t.width) == t.x
  }

  lemma {:induction false} TopBound(x: nat, w: nat, v: nat, n: nat)
    requires x < Pow2(w) && v < Pow2(n)
    ensures x + Shl(v, w) < Pow2(w + n)
  {
    ShlAdd(v, 1, w);
    ShlMonotone(v + 1, Pow2(n), w);
    ShlPow2(n, w);
    ShlPow2(0, w);
  }

  lemma {:induction false} TopFields(m: nat, x: nat, w: nat, v: nat, n: nat)
    requires x < Pow2(w) && Low(m, w + n) == x + Shl(v, w)
    ensures Low(m, w) == x && Field(m, w, n) == v
  {
    LowSplit(m, w, n);
    SplitUnique(x, v, w);
    SplitUnique(Low(m, w), Field(m, w, n), w);
  }

  lemma {:induction false} TopRead(mem: seq<Byte>, t: Text, v: nat, n: nat)
    requires t.x < Pow2(t.width) && v < Pow2(n)
    ensures Top(t, v, n).x < Pow2(t.width + n)
    ensures Has(mem, Top(t, v, n)) ==> Has(mem, t) && BitsOf(mem)(t.width, n) == v
  {
    TopBound(t.x, t.width, v, n);
    if Has(mem, Top(t, v, n)) {
      TopFields(Value(mem), t.x, t.width, v, n);
    }
  }

  /** Three fields: the one on top is read first. */
  function Three(t: Text, f: Triple, r: Request): Text
  {
    Top(Top(Top(t, f.c, r.c), f.b, r.b), f.a, r.a)
  }

  lemma {:induction false} ThreeRead(mem: seq<Byte>, t: Text, f: Triple, r: Request)
    requires t.x < Pow2(t.width) && TripleFits(f, r)
    ensures var w := Three(t, f, r);
            w.width == t.width + Total(r) && w.x < Pow2(w.width)
    ensures Has(mem, Three(t, f, r)) ==> Has(mem, t) && Cut(BitsOf(mem), t.width + Total(r), r) == f
  {
    var t1 := Top(t, f.c, r.c);
    var t2 := Top(t1, f.b, r.b);
    TopRead(mem, t, f.c, r.c);
    TopRead(mem, t1, f.b, r.b);
    TopRead(mem, t2, f.a, r.a);
  }

  // ---- one sequence --------------------------------------------------------

  /** A state of each table. */
  datatype Trio = Trio(copy: nat, length: nat, dist: nat)

  ghost predicate InTables(ts: Tables, at: Trio)
  {
    at.copy < |ts.copy.entries| && at.length < |ts.length.entries| && at.dist < |ts.dist.entries|
  }

  function EntriesAt(ts: Tables, at: Trio): Entries
    requires InTables(ts, at)
  {
    Entries(ts.copy.entries[at.copy], ts.length.entries[at.length], ts.dist.entries[at.dist])
  }

  ghost predicate Leads(entry: int, y: nat)
  {
    EntryBase(entry) <= y < EntryBase(entry) + Pow2(EntryBits(entry))
  }

  /** The states that entries lead to. */
  ghost predicate AllLead(es: Entries, at: Trio)
  {
    Leads(es.copy, at.copy) && Leads(es.length, at.length) && Leads(es.dist, at.dist)
  }

  ghost predicate StandsFor(c: Code, n: nat)
  {
    c.base <= n < c.base + Pow2(c.bits)
  }

  /** Of offset values, 2^sym are those of sym + 1 bits. */
  function DistCode(sym: nat): Code
  {
    Code(Pow2(sym), sym)
  }

  /** The values that the symbols of entries stand for. */
  ghost predicate AllStand(es: Entries, v: Values)
  {
    && StandsFor(CopyCode(EntrySym(es.copy)), v.copy) && StandsFor(LengthCode(EntrySym(es.length)), v.length)
    && StandsFor(DistCode(EntrySym(es.dist)), v.dist)
  }

  /** Extra bits of an offset, of a match length, of a literal length: read in this order. */
  function ValueText(t: Text, es: Entries, v: Values): Text
    requires AllStand(es, v)
  {
    var copy, length, dist := CopyCode(EntrySym(es.copy)), LengthCode(EntrySym(es.length)), DistCode(EntrySym(es.dist));
    var t1 := Top(t, v.copy - copy.base, copy.bits);
    var t2 := Top(t1, v.length - length.base, length.bits);
    Top(t2, v.dist - dist.base, dist.bits)
  }

  /** What leads to the next state of the literal lengths, of the match lengths, of the offsets: read in this order. */
  function StateText(t: Text, es: Entries, at: Trio): Text
    requires AllLead(es, at)
  {
    var t1 := Top(t, at.dist - EntryBase(es.dist), EntryBits(es.dist));
    var t2 := Top(t1, at.length - EntryBase(es.length), EntryBits(es.length));
    Top(t2, at.copy - EntryBase(es.copy), EntryBits(es.copy))
  }

  /** How far each state is from where its entry leads to at the least. */
  function Steps(es: Entries, at: Trio): (f: Triple)
    requires AllLead(es, at)
    ensures TripleFits(f, StateRequest(es))
  {
    Triple(at.copy - EntryBase(es.copy), at.length - EntryBase(es.length), at.dist - EntryBase(es.dist))
  }

  lemma {:induction false} StatesCut(mem: seq<Byte>, es: Entries, at: Trio, t: Text)
    requires AllLead(es, at) && t.x < Pow2(t.width)
    ensures var w, r := StateText(t, es, at), StateRequest(es);
            && w.width == t.width + Total(r) && w.x < Pow2(w.width)
            && (Has(mem, w) ==> Has(mem, t) && Cut(BitsOf(mem), w.width, r) == Steps(es, at))
  {
    var f, r := Steps(es, at), StateRequest(es);
    ThreeRead(mem, t, f, r);
  }

  lemma {:induction false} StatesFrom(bits: BitSource, left: nat, ts: Tables, es: Entries, r: Request, f: Triple,
                                      next: Entries)
    requires Bounded(bits) && GoodTables(ts) && GoodEntries(ts, es)
    requires r == StateRequest(es) && Total(r) <= left && Cut(bits, left, r) == f && TripleFits(f, r)
    requires NextEntries(ts, es, f) == next
    ensures ReadStates(bits, left, ts, es, false) == States(next, left - Total(r))
  {
  }

  /** The values of the extra bits. */
  function Extras(es: Entries, v: Values): (f: Triple)
    requires AllStand(es, v)
    ensures TripleFits(f, ExtraRequest(es)) && ValuesOf(es, f) == v
  {
    Triple(v.dist - DistCode(EntrySym(es.dist)).base, v.length - LengthCode(EntrySym(es.length)).base,
           v.copy - CopyCode(EntrySym(es.copy)).base)
  }

  lemma {:induction false} ValuesCut(mem: seq<Byte>, es: Entries, v: Values, t: Text)
    requires AllStand(es, v) && t.x < Pow2(t.width)
    ensures var w, r := ValueText(t, es, v), ExtraRequest(es);
            && w.width == t.width + Total(r) && w.x < Pow2(w.width)
            && (Has(mem, w) ==> Has(mem, t) && Cut(BitsOf(mem), w.width, r) == Extras(es, v))
  {
    var f, r := Extras(es, v), ExtraRequest(es);
    ThreeRead(mem, t, f, r);
  }

  lemma {:induction false} ValuesFrom(bits: BitSource, left: nat, ts: Tables, es: Entries, r: Request, f: Triple,
                                      v: Values)
    requires Bounded(bits) && GoodEntries(ts, es)
    requires r == ExtraRequest(es) && Total(r) <= left && Cut(bits, left, r) == f && ValuesOf(es, f) == v
    ensures ReadValues(bits, left, ts, es, false) == GotValues(v, left - Total(r))
  {
  }

  /** One sequence: its states, then its values. */
  function OneText(t: Text, es: Entries, at: Trio, next: Entries, v: Values): Text
    requires AllLead(es, at) && AllStand(next, v)
  {
    StateText(ValueText(t, next, v), es, at)
  }

  /** What has been written for a sequence is read as this sequence: its states ... */
  lemma {:induction false} StatesBack(mem: seq<Byte>, ts: Tables, es: Entries, at: Trio, t: Text)
    requires Bounded(BitsOf(mem)) && GoodTables(ts) && GoodEntries(ts, es) && InTables(ts, at) && AllLead(es, at)
    requires t.x < Pow2(t.width) && Has(mem, StateText(t, es, at))
    ensures Has(mem, t)
    ensures ReadStates(BitsOf(mem), StateText(t, es, at).width, ts, es, false) == States(EntriesAt(ts, at), t.width)
  {
    StatesCut(mem, es, at, t);
    StatesFrom(BitsOf(mem), StateText(t, es, at).width, ts, es, StateRequest(es), Steps(es, at), EntriesAt(ts, at));
  }

  /** ... and its values. */
  lemma {:induction false} ValuesBack(mem: seq<Byte>, ts: Tables, es: Entries, v: Values, t: Text)
    requires Bounded(BitsOf(mem)) && GoodEntries(ts, es) && AllStand(es, v)
    requires t.x < Pow2(t.width) && Has(mem, ValueText(t, es, v))
    ensures Has(mem, t) && ReadValues(BitsOf(mem), ValueText(t, es, v).width, ts, es, false) == GotValues(v, t.width)
  {
    ValuesCut(mem, es, v, t);
    ValuesFrom(BitsOf(mem), ValueText(t, es, v).width, ts, es, ExtraRequest(es), Extras(es, v), v);
  }

  lemma {:induction false} OneFits(es: Entries, at: Trio, next: Entries, v: Values, t: Text)
    requires AllLead(es, at) && AllStand(next, v) && t.x < Pow2(t.width)
    ensures ValueText(t, next, v).x < Pow2(ValueText(t, next, v).width)
    ensures OneText(t, es, at, next, v).x < Pow2(OneText(t, es, at, next, v).width)
  {
    ValuesCut([], next, v, t);
    StatesCut([], es, at, ValueText(t, next, v));
  }

  lemma {:induction false} OneFrom(bits: BitSource, left: nat, ts: Tables, es: Entries, h: seq<nat>, next: Entries,
                                   mid: nat, v: Values, left': nat)
    requires Bounded(bits) && GoodTables(ts) && GoodEntries(ts, es) && GoodHistory(h) && GoodEntries(ts, next)
    requires ReadStates(bits, left, ts, es, false) == States(next, mid)
    requires ReadValues(bits, mid, ts, next, false) == GotValues(v, left')
    ensures StepOf(bits, ts, false)(left, es, h) == Applied(v, h, left', next) && v.dist < 0x4000_0000
  {
  }

  // ---- any steps -----------------------------------------------------------

  /** Where a run is between two sequences. */
  datatype Stop = Stop(left: nat, es: Entries)

  ghost predicate Hands(step: Step, a: Stop, b: Stop, v: Values)
  {
    v.dist < 0x4000_0000 && forall h :: GoodHistory(h) ==> step(a.left, a.es, h) == Applied(v, h, b.left, b.es)
  }

  /** From stop to stop a step hands out these values; at the last one no bit is left. */
  ghost predicate Gives(step: Step, stops: seq<Stop>, vs: seq<Values>)
  {
    && |stops| == |vs| + 1
    && if vs == [] then stops[0].left == 0
       else Hands(step, stops[0], stops[1], vs[0]) && Gives(step, stops[1..], vs[1..])
  }

  function UsesOf(vs: seq<Values>): (r: seq<Use>)
    ensures |r| == |vs|
  {
    seq(|vs|, i requires 0 <= i < |vs| => Use(vs[i].dist, vs[i].copy))
  }

  ghost predicate IsOne(s: Sequence, v: Values, offset: nat)
  {
    s.copy == v.copy && s.length == v.length + 3 && s.dist == offset
  }

  /** After those of got come the sequences of these values and offsets. */
  ghost predicate Have(seqs: seq<Sequence>, got: seq<Sequence>, vs: seq<Values>, offsets: seq<nat>)
  {
    && got <= seqs && |seqs| == |got| + |vs| && |offsets| == |vs|
    && forall i :: 0 <= i < |vs| ==> IsOne(seqs[|got| + i], vs[i], offsets[i])
  }

  /** Decoding comes to that and uses up all bits; or to nothing, if there is an offset of zero. */
  ghost predicate ComesTo(d: Decoded, got: seq<Sequence>, vs: seq<Values>, m: Meant)
  {
    match m
    case NoOffsets => d == Failed
    case Meant(offsets, h) => d.Decoded? && d.left == 0 && d.history == h && Have(d.seqs, got, vs, offsets)
  }

  lemma {:induction false} HaveOn(seqs: seq<Sequence>, got: seq<Sequence>, vs: seq<Values>, s: Sequence, offset: nat,
                                  offsets: seq<nat>)
    requires vs != [] && IsOne(s, vs[0], offset) && Have(seqs, got + [s], vs[1..], offsets)
    ensures Have(seqs, got, vs, [offset] + offsets)
  {
    assert got <= got + [s] && seqs[|got|] == s;
    forall i | 0 <= i < |vs|
      ensures IsOne(seqs[|got| + i], vs[i], ([offset] + offsets)[i])
    {
      if i > 0 {
        assert IsOne(seqs[|got + [s]| + (i - 1)], vs[1..][i - 1], offsets[i - 1]);
      }
    }
  }

  lemma {:induction false} AnyRun(step: Step, stops: seq<Stop>, vs: seq<Values>, h: seq<nat>, got: seq<Sequence>)
    requires Gives(step, stops, vs) && GoodHistory(h)
    ensures ComesTo(ReadMany(step, stops[0].left, stops[0].es, h, |vs|, got), got, vs, MeantBy(h, UsesOf(vs)))
    decreases |vs|
  {
    if vs != [] {
      var v, rest, b := vs[0], vs[1..], stops[1];
      assert UsesOf(vs)[1..] == UsesOf(rest);
      ResolveKeeps(h, v.dist, v.copy);
      var o := Resolve(h, v.dist, v.copy);
      if o.offset > 0 {
        var s := Sequence(v.copy, v.length + 3, o.offset);
        AnyRun(step, stops[1..], rest, o.history, got + [s]);
        var m := MeantBy(o.history, UsesOf(rest));
        if m.Meant? {
          HaveOn(ReadMany(step, b.left, b.es, o.history, |rest|, got + [s]).seqs, got, vs, s, o.offset, m.offsets);
        }
      }
    }
  }

  // ---- a run of sequences --------------------------------------------------

  /** The states that a sequence has, and its values. */
  datatype Item = Item(at: Trio, v: Values)

  /** Every state leads to the next one, and its symbols stand for the values. */
  ghost predicate Chained(ts: Tables, items: seq<Item>)
  {
    items == [] ||
    (&& InTables(ts, items[0].at) && AllStand(EntriesAt(ts, items[0].at), items[0].v)
     && (|items| > 1 ==> AllLead(EntriesAt(ts, items[0].at), items[1].at))
     && Chained(ts, items[1..]))
  }

  /** The bits of a run that comes after the given entries. */
  function Written(ts: Tables, es: Entries, items: seq<Item>): Text
    requires Chained(ts, items) && (items == [] || AllLead(es, items[0].at))
    decreases |items|
  {
    if items == [] then Text(0, 0)
    else
      var next := EntriesAt(ts, items[0].at);
      OneText(Written(ts, next, items[1..]), es, items[0].at, next, items[0].v)
  }

  function ValuesIn(items: seq<Item>): (r: seq<Values>)
    ensures |r| == |items|
  {
    seq(|items|, i requires 0 <= i < |items| => items[i].v)
  }

  /** Where reading it is between the sequences. */
  function StopsIn(ts: Tables, es: Entries, items: seq<Item>): (r: seq<Stop>)
    requires Chained(ts, items) && (items == [] || AllLead(es, items[0].at))
    ensures |r| == |items| + 1 && r[0] == Stop(Written(ts, es, items).width, es)
    decreases |items|
  {
    [Stop(Written(ts, es, items).width, es)] +
    if items == [] then [] else StopsIn(ts, EntriesAt(ts, items[0].at), items[1..])
  }

  lemma {:induction false} WrittenFits(ts: Tables, es: Entries, items: seq<Item>)
    requires Chained(ts, items) && (items == [] || AllLead(es, items[0].at))
    ensures Written(ts, es, items).x < Pow2(Written(ts, es, items).width)
    decreases |items|
  {
    if items != [] {
      var next := EntriesAt(ts, items[0].at);
      WrittenFits(ts, next, items[1..]);
      OneFits(es, items[0].at, next, items[0].v, Written(ts, next, items[1..]));
    }
  }

  lemma {:induction false} OneBack(mem: seq<Byte>, ts: Tables, es: Entries, at: Trio, v: Values, t: Text)
    requires Bounded(BitsOf(mem)) && GoodTables(ts) && GoodEntries(ts, es) && InTables(ts, at) && AllLead(es, at)
    requires AllStand(EntriesAt(ts, at), v) && t.x < Pow2(t.width)
    requires Has(mem, OneText(t, es, at, EntriesAt(ts, at), v))
    ensures GoodEntries(ts, EntriesAt(ts, at)) && Has(mem, t)
    ensures var next := EntriesAt(ts, at);
            Hands(StepOf(BitsOf(mem), ts, false), Stop(OneText(t, es, at, next, v).width, es), Stop(t.width, next), v)
  {
    var next := EntriesAt(ts, at);
    var mid := ValueText(t, next, v);
    OneFits(es, at, next, v, t);
    StatesBack(mem, ts, es, at, mid);
    ValuesBack(mem, ts, next, v, t);
    OneFrom(BitsOf(mem), OneText(t, es, at, next, v).width, ts, es, [1, 1, 1], next, mid.width, v, t.width);
    forall h | GoodHistory(h)
      ensures StepOf(BitsOf(mem), ts, false)(OneText(t, es, at, next, v).width, es, h) == Applied(v, h, t.width, next)
    {
      OneFrom(BitsOf(mem), OneText(t, es, at, next, v).width, ts, es, h, next, mid.width, v, t.width);
    }
  }

  /** What has been written for a run is read as this run. */
  lemma {:induction false} RunBack(mem: seq<Byte>, ts: Tables, es: Entries, items: seq<Item>)
    requires Bounded(BitsOf(mem)) && GoodTables(ts) && GoodEntries(ts, es)
    requires Chained(ts, items) && (items == [] || AllLead(es, items[0].at)) && Has(mem, Written(ts, es, items))
    ensures Gives(StepOf(BitsOf(mem), ts, false), StopsIn(ts, es, items), ValuesIn(items))
    decreases |items|
  {
    if items != [] {
      var at, v, rest := items[0].at, items[0].v, items[1..];
      var next := EntriesAt(ts, at);
      WrittenFits(ts, next, rest);
      OneBack(mem, ts, es, at, v, Written(ts, next, rest));
      RunBack(mem, ts, next, rest);
      assert ValuesIn(items)[1..] == ValuesIn(rest);
      assert StopsIn(ts, es, items)[1..] == StopsIn(ts, next, rest);
    }
  }

  // ---- a whole string ------------------------------------------------------

  /** The first states: of the literal lengths, of the offsets, of the match lengths, read in this order. */
  function FirstText(t: Text, ts: Tables, at: Trio): Text
  {
    Top(Top(Top(t, at.length, ts.length.log), at.dist, ts.dist.log), at.copy, ts.copy.log)
  }

  function FirstOf(at: Trio): Entries
  {
    Entries(2048 * at.copy, 2048 * at.length, 2048 * at.dist)
  }

  lemma {:induction false} FirstLeads(at: Trio)
    ensures AllLead(FirstOf(at), at)
  {
    EntryFields(0, 0, at.copy);
    EntryFields(0, 0, at.length);
    EntryFields(0, 0, at.dist);
  }

  /** All that is written for a run, below the bit that marks the end. */
  function Whole(ts: Tables, items: seq<Item>): Text
    requires items != [] && Chained(ts, items)
  {
    FirstLeads(items[0].at);
    FirstText(Written(ts, FirstOf(items[0].at), items), ts, items[0].at)
  }

  lemma {:induction false} FirstCut(mem: seq<Byte>, ts: Tables, at: Trio, t: Text)
    requires GoodTables(ts) && InTables(ts, at) && t.x < Pow2(t.width)
    ensures var w, r := FirstText(t, ts, at), FirstRequest(ts);
            && w.width == t.width + Total(r) && w.x < Pow2(w.width)
            && (Has(mem, w) ==> Has(mem, t) && Cut(BitsOf(mem), w.width, r) == Triple(at.copy, at.dist, at.length))
  {
    ThreeRead(mem, t, Triple(at.copy, at.dist, at.length), FirstRequest(ts));
  }

  /** The highest bit of a string is its end. */
  lemma {:induction false} MarkedEnd(stream: seq<Byte>, len: nat, t: Text)
    requires 0 < len <= |stream| && stream[len - 1] > 0 && t.x < Pow2(t.width)
    requires Value(stream[..len]) == t.x + Pow2(t.width)
    ensures Log2Of(Value(stream[..len])) == t.width && Has(stream, t)
  {
    HighestBit(stream, len);
    Log2Unique(Value(stream[..len]), t.width);
    ShlPow2(0, t.width);
    SplitUnique(t.x, 1, t.width);
    PrefixLow(stream, len, t.width);
  }

  lemma {:induction false} Beginning(stream: seq<Byte>, len: nat, ts: Tables, at: Trio, t: Text)
    requires 0 < len <= |stream| && stream[len - 1] > 0 && GoodTables(ts) && InTables(ts, at) && t.x < Pow2(t.width)
    requires Value(stream[..len]) == FirstText(t, ts, at).x + Pow2(FirstText(t, ts, at).width)
    ensures CanBegin(stream, len, ts) && FirstLeft(stream, len, ts) == t.width && Has(stream, t)
    ensures FirstStates(stream, len, ts) == FirstOf(at)
  {
    FirstCut(stream, ts, at, t);
    MarkedEnd(stream, len, FirstText(t, ts, at));
  }

  /** A string that has been written is decoded to the sequences it was written for. */
  lemma {:induction false} StreamBack(stream: seq<Byte>, len: nat, ts: Tables, items: seq<Item>, h: seq<nat>)
    requires 0 < len <= |stream| && stream[len - 1] > 0 && GoodTables(ts) && GoodHistory(h)
    requires items != [] && Chained(ts, items)
    requires Value(stream[..len]) == Whole(ts, items).x + Pow2(Whole(ts, items).width)
    ensures ComesTo(SequencesOf(stream, len, ts, h, |items|, false), [], ValuesIn(items),
                    MeantBy(h, UsesOf(ValuesIn(items))))
  {
    var es, vs := FirstOf(items[0].at), ValuesIn(items);
    FirstLeads(items[0].at);
    WrittenFits(ts, es, items);
    Beginning(stream, len, ts, items[0].at, Written(ts, es, items));
    BitsOfBounded(stream);
    FirstStatesGood(stream, len, ts);
    RunBack(stream, ts, es, items);
    AnyRun(StepOf(BitsOf(stream), ts, false), StopsIn(ts, es, items), vs, h, []);
  }

  // ---- everything can be written -------------------------------------------

  ghost predicate SomeLeads(entries: seq<int>, s: nat, y: nat)
  {
    exists x: nat :: x < |entries| && LeadsTo(entries, x, s, y)
  }

  /** To every state of the table leads a state of the symbol. */
  ghost predicate Full(entries: seq<int>, s: nat)
  {
    forall y: nat :: y < |entries| ==> SomeLeads(entries, s, y)
  }

  /** A symbol that a distribution has states for. */
  lemma {:induction false} BuiltFull(table: seq<int>, dist: seq<nat>, log: nat, spread: seq<int>, s: nat)
    requires GoodDistribution(dist, log) && Built(table, dist, log, spread) && s < |dist| && dist[s] != 1
    ensures Full(table, s)
  {
    forall y: nat | y < |table| ensures SomeLeads(table, s, y) {
      var x := TileReaches(table, dist, log, spread, s, y);
    }
  }

  lemma {:induction false} RleFull(s: nat)
    requires s < 64
    ensures Full([RleEntry(s)], s)
  {
    EntryFields(0, s, 0);
    var entries := [RleEntry(s)];
    forall y: nat | y < |entries| ensures SomeLeads(entries, s, y) {
      assert LeadsTo(entries, 0, s, y);
    }
  }

  lemma {:induction false} Leading(entries: seq<int>, s: nat, y: nat) returns (x: nat)
    requires Full(entries, s) && y < |entries|
    ensures x < |entries| && EntrySym(entries[x]) == s && Leads(entries[x], y)
  {
    assert SomeLeads(entries, s, y);
    x :| x < |entries| && LeadsTo(entries, x, s, y);
  }

  /** Values that have codes, and tables that have states for them. */
  ghost predicate Offered(ts: Tables, v: Values)
  {
    && v.copy < 0x20000 && v.length < 0x20000 && v.dist < 0x2000_0000
    && (forall s: nat :: s < COPY_CODES && StandsFor(CopyCode(s), v.copy) ==> Full(ts.copy.entries, s))
    && (forall s: nat :: s < LENGTH_CODES && StandsFor(LengthCode(s), v.length) ==> Full(ts.length.entries, s))
    && (forall s: nat :: s < DIST_CODES && StandsFor(DistCode(s), v.dist) ==> Full(ts.dist.entries, s))
  }

  lemma {:induction false} FindState(ts: Tables, v: Values, y: Trio) returns (at: Trio)
    requires Offered(ts, v) && InTables(ts, y)
    ensures InTables(ts, at) && AllStand(EntriesAt(ts, at), v) && AllLead(EntriesAt(ts, at), y)
  {
    var a := CopyFound(v.copy);
    var b := LengthFound(v.length);
    var c := DistFound(v.dist);
    assert StandsFor(CopyCode(a), v.copy) && StandsFor(LengthCode(b), v.length) && StandsFor(DistCode(c), v.dist);
    var i := Leading(ts.copy.entries, a, y.copy);
    var j := Leading(ts.length.entries, b, y.length);
    var k := Leading(ts.dist.entries, c, y.dist);
    at := Trio(i, j, k);
  }

  lemma {:induction false} FindStates(ts: Tables, vs: seq<Values>) returns (items: seq<Item>)
    requires GoodTables(ts) && forall i :: 0 <= i < |vs| ==> Offered(ts, vs[i])
    ensures ValuesIn(items) == vs && Chained(ts, items)
    decreases |vs|
  {
    items := [];
    if vs != [] {
      var rest := FindStates(ts, vs[1..]);
      var y := if rest == [] then Trio(0, 0, 0) else rest[0].at;
      var at := FindState(ts, vs[0], y);
      items := [Item(at, vs[0])] + rest;
      assert items[1..] == rest;
      assert ValuesIn(items) == [vs[0]] + ValuesIn(rest);
    }
  }

  function BytesFor(x: nat, n: nat): (s: seq<Byte>)
    ensures |s| == n
  {
    if n == 0 then [] else [x % 256] + BytesFor(x / 256, n - 1)
  }

  lemma {:induction false} BytesValue(x: nat, n: nat)
    requires x < Pow2(8 * n)
    ensures Value(BytesFor(x, n)) == x
  {
    if n > 0 {
      ShlPow2(8 * (n - 1), 8);
      Shl8(Pow2(8 * (n - 1)));
      BytesValue(x / 256, n - 1);
    }
  }

  lemma {:induction false} LastByte(s: seq<Byte>, w: nat)
    requires |s| == w / 8 + 1 && Value(s) >= Pow2(w)
    ensures s[|s| - 1] > 0
  {
    var n := |s| - 1;
    if s[n] == 0 {
      assert s == s[..n] + [s[n]];
      ValueConcat(s[..n], [s[n]]);
      ValueOne(s[n]);
      ShrZero(8 * n);
      ValueBound(s[..n]);
      Pow2Monotone(8 * n, w);
    }
  }

  lemma {:induction false} Spell(t: Text) returns (stream: seq<Byte>)
    requires t.x < Pow2(t.width)
    ensures stream != [] && stream[|stream| - 1] > 0 && Value(stream) == t.x + Pow2(t.width)
  {
    var n := t.width / 8 + 1;
    stream := BytesFor(t.x + Pow2(t.width), n);
    Pow2Monotone(t.width + 1, 8 * n);
    BytesValue(t.x + Pow2(t.width), n);
    LastByte(stream, t.width);
  }

  /** Whatever values are offered, there is a string that is decoded to the sequences of them. */
  lemma {:induction false} EveryRun(ts: Tables, vs: seq<Values>, h: seq<nat>) returns (stream: seq<Byte>)
    requires GoodTables(ts) && GoodHistory(h) && vs != [] && forall i :: 0 <= i < |vs| ==> Offered(ts, vs[i])
    ensures ComesTo(SequencesOf(stream, |stream|, ts, h, |vs|, false), [], vs, MeantBy(h, UsesOf(vs)))
  {
    var items := FindStates(ts, vs);
    var es := FirstOf(items[0].at);
    FirstLeads(items[0].at);
    WrittenFits(ts, es, items);
    FirstCut([], ts, items[0].at, Written(ts, es, items));
    stream := Spell(Whole(ts, items));
    assert stream[..|stream|] == stream;
    StreamBack(stream, |stream|, ts, items, h);
  }

  /** A table that is built from predefined weights. */
  ghost predicate IsPredefined(t: Table, s: Settings, spread: seq<int>)
  {
    GoodDistribution(Weights(s.predef), s.log) && Built(t.entries, Weights(s.predef), s.log, spread)
  }

  lemma {:induction false} PredefinedFull(t: Table, s: Settings, spread: seq<int>, sym: nat)
    requires IsPredefined(t, s, spread) && sym < |s.predef|
    ensures Full(t.entries, sym)
  {
    BuiltFull(t.entries, Weights(s.predef), s.log, spread, sym);
  }

  /** The predefined tables offer all values there are codes for. */
  lemma {:induction false} PredefinedOffer(ts: Tables, a: seq<int>, b: seq<int>, c: seq<int>, v: Values)
    requires IsPredefined(ts.copy, CopySettings(), a) && IsPredefined(ts.length, LengthSettings(), b)
    requires IsPredefined(ts.dist, DistSettings(), c) && v.copy < 0x20000 && v.length < 0x20000 && v.dist < 0x2000_0000
    ensures Offered(ts, v)
  {
    forall s: nat | s < COPY_CODES ensures Full(ts.copy.entries, s) {
      PredefinedFull(ts.copy, CopySettings(), a, s);
    }
    forall s: nat | s < LENGTH_CODES ensures Full(ts.length.entries, s) {
      PredefinedFull(ts.length, LengthSettings(), b, s);
    }
    forall s: nat | s < DIST_CODES ensures Full(ts.dist.entries, s) {
      PredefinedFull(ts.dist, DistSettings(), c, s);
    }
  }
}
