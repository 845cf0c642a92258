/**
 compression/zstd.c: the sequences section of a compressed block (section 3.1.1.3.2 of RFC
 8878), from its three decoding tables to the output.
 */
module ZstdBlock {
  import opened Basics
  import opened Bits
  import opened LzCopy
  import opened Fse
  import opened BackBits
  import opened ZstdTables
  import opened ZstdPack
  import opened ZstdSeq
  import opened ZstdRegister
  import Exec = ZstdExec

  // ---- the tables ----------------------------------------------------------

  /** The settings of the tables for copy, distance and length, as far as decoding sequences depends on them. */
  predicate Suit(copy: Settings, dist: Settings, length: Settings)
  {
    && copy.maxLog <= 9 && copy.sym == COPY_CODES && dist.maxLog <= 8 && dist.sym == DIST_CODES && length.maxLog <= 9
    && length.sym == LENGTH_CODES
  }

  lemma {:induction false} SettingsSuit()
    ensures Suit(CopySettings(), DistSettings(), LengthSettings())
  {
  }

  /** A table that can be decoded with. */
  ghost predicate Usable(t: DecodingTable)
    reads t, t.entries
  {
    t.Valid() && t.log != NOT_AVAILABLE
  }

  // ---- sequences in portions -----------------------------------------------

  lemma {:induction false} ReadManySplit(step: Step, left: nat, es: Entries, h: seq<nat>, n: nat, m: nat,
                                         got: seq<Sequence>)
    ensures ReadMany(step, left, es, h, n + m, got) ==
            match ReadMany(step, left, es, h, n, got)
            case Failed => Failed
            case Decoded(s, left', es', h') => ReadMany(step, left', es', h', m, s)
    decreases n
  {
    if n > 0 {
      match step(left, es, h)
      case NoMore =>
      case Next(s, left', es', h') => ReadManySplit(step, left', es', h', n - 1, m, got + [s]);
    }
  }

  /** What has been read before is in front of what is read. */
  lemma {:induction false} ReadManyAfter(step: Step, left: nat, es: Entries, h: seq<nat>, n: nat, got: seq<Sequence>)
    ensures ReadMany(step, left, es, h, n, got) ==
            match ReadMany(step, left, es, h, n, [])
            case Failed => Failed
            case Decoded(s, left', es', h') => Decoded(got + s, left', es', h')
    decreases n
  {
    if n == 0 {
      assert got + [] == got;
    } else {
      match step(left, es, h)
      case NoMore =>
      case Next(s, left', es', h') =>
        ReadManyAfter(step, left', es', h', n - 1, got + [s]);
        ReadManyAfter(step, left', es', h', n - 1, [] + [s]);
        var r := ReadMany(step, left', es', h', n - 1, []);
        if r.Decoded? {
          assert got + [s] + r.seqs == got + ([] + [s] + r.seqs);
        }
    }
  }

  /** A portion of n sequences, and m more. */
  lemma {:induction false} Portion(step: Step, left: nat, es: Entries, h: seq<nat>, n: nat, m: nat, first: Decoded,
                                   whole: Decoded)
    requires first == ReadMany(step, left, es, h, n, []) && whole == ReadMany(step, left, es, h, n + m, [])
    ensures first == Failed ==> whole == Failed
    ensures first.Decoded? ==>
              var rest := ReadMany(step, first.left, first.es, first.history, m, []);
              whole == if rest == Failed then Failed
                       else Decoded(first.seqs + rest.seqs, rest.left, rest.es, rest.history)
  {
    ReadManySplit(step, left, es, h, n, m, []);
    if first.Decoded? {
      ReadManyAfter(step, first.left, first.es, first.history, m, first.seqs);
    }
  }

  /** What the sequences that are left do is what those from which they are left do. */
  ghost predicate SameOutcome(cur: seq<Byte>, lits: seq<Byte>, whole: Decoded, cur': seq<Byte>, lits': seq<Byte>,
                              rest: Decoded, limit: nat)
  {
    && (whole == Failed <==> rest == Failed)
    && (whole.Decoded? && rest.Decoded? ==>
          && rest.left == whole.left && rest.history == whole.history
          && Exec.RunBounded(cur, lits, whole.seqs, limit) == Exec.RunBounded(cur', lits', rest.seqs, limit))
  }

  /** How executing sequences ends that can all be decoded. */
  ghost predicate Stopped(status: Exec.Code, cur: seq<Byte>, lits: seq<Byte>, whole: Decoded, limit: nat)
  {
    whole.Decoded? ==>
      && (status == Exec.Err ==> Exec.RunBounded(cur, lits, whole.seqs, limit) == Exec.Failed)
      && (status == Exec.MoreSpace ==> Exec.RunBounded(cur, lits, whole.seqs, limit) == Exec.NeedMoreSpace)
  }

  lemma {:induction false} OutcomesJoin(cur0: seq<Byte>, lits0: seq<Byte>, whole: Decoded, cur: seq<Byte>,
                                        lits: seq<Byte>, mid: Decoded, cur': seq<Byte>, lits': seq<Byte>, rest: Decoded,
                                        limit: nat)
    requires SameOutcome(cur0, lits0, whole, cur, lits, mid, limit)
    requires SameOutcome(cur, lits, mid, cur', lits', rest, limit)
    ensures SameOutcome(cur0, lits0, whole, cur', lits', rest, limit)
  {
  }

  /** lines 203-233: a buffer of n sequences is decoded and executed; m more follow. */
  method OneBuffer(st: SequencesState, stream: seq<Byte>, ts: Tables, n: Pos, mem: array<Byte>, windowStart: nat,
                   out: nat, outEnd: nat, lp: nat, size: nat, ghost m: nat, ghost out0: nat, ghost cur: seq<Byte>,
                   ghost lits: seq<Byte>, ghost step: Step, ghost reach: Reach, ghost whole: Decoded)
    returns (status: Exec.Code, out': nat, lp': nat, size': nat, ghost cur': seq<Byte>, ghost lits': seq<Byte>,
             ghost rest: Decoded)
    requires n <= 128 && st.Valid(stream, reach) && Does(step, reach, stream, ts)
    requires whole == ReadMany(step, st.Left(), st.State(), st.History(), n + m, [])
    requires windowStart <= out0 && Exec.Layout(mem.Length, out0, out, outEnd, lp, size)
    requires Exec.Holds(mem, windowStart, out, lp, size, cur, lits)
    modifies st, mem
    ensures SameOutside(old(mem[..]), mem[..], out0, outEnd + BLOCK)
    ensures status == Exec.Ok ==> st.Valid(stream, reach)
    ensures status == Exec.Ok ==> rest == ReadMany(step, st.Left(), st.State(), st.History(), m, [])
    ensures status == Exec.Ok ==> SameOutcome(cur, lits, whole, cur', lits', rest, outEnd - windowStart)
    ensures status == Exec.Ok ==> Exec.Layout(mem.Length, out0, out', outEnd, lp', size')
    ensures status == Exec.Ok ==> Exec.Holds(mem, windowStart, out', lp', size', cur', lits')
    ensures status != Exec.Ok ==> Stopped(status, cur, lits, whole, outEnd - windowStart)
  {
    var buffer := new nat[128];
    out', lp', size', cur', lits', rest := out, lp, size, cur, lits, Failed;
    ghost var first := ReadMany(step, st.Left(), st.State(), st.History(), n, []);
    Portion(step, st.Left(), st.State(), st.History(), n, m, first, whole);
    var ok := st.DecodeSequences(stream, n, buffer, ts, step, reach);
    if !ok {
      return Exec.Err, out', lp', size', cur', lits', rest;
    }
    rest := ReadMany(step, st.Left(), st.State(), st.History(), m, []);
    ghost var more := if rest.Decoded? then rest.seqs else [];
    status, out', lp', size', cur', lits' :=
      Exec.ExecuteSome(mem, windowStart, out, outEnd, lp, size, buffer[..n], out0, cur, lits, more);
  }

  lemma {:induction false} StoppedJoin(status: Exec.Code, cur0: seq<Byte>, lits0: seq<Byte>, whole: Decoded,
                                       cur: seq<Byte>, lits: seq<Byte>, rest: Decoded, limit: nat)
    requires SameOutcome(cur0, lits0, whole, cur, lits, rest, limit) && Stopped(status, cur, lits, rest, limit)
    ensures Stopped(status, cur0, lits0, whole, limit)
  {
  }

  /** lines 202-234 */
  method AllBuffers(st: SequencesState, stream: seq<Byte>, ts: Tables, num: nat, mem: array<Byte>, windowStart: nat,
                    out0: nat, outEnd: nat, lp0: nat, size0: nat, ghost o: seq<Byte>, ghost l: seq<Byte>,
                    ghost step: Step, ghost reach: Reach, ghost whole: Decoded)
    returns (status: Exec.Code, out: nat, lp: nat, size: nat, ghost cur: seq<Byte>, ghost lits: seq<Byte>)
    requires st.Valid(stream, reach) && Does(step, reach, stream, ts)
    requires whole == ReadMany(step, st.Left(), st.State(), st.History(), num, [])
    requires windowStart <= out0 && Exec.Layout(mem.Length, out0, out0, outEnd, lp0, size0)
    requires Exec.Holds(mem, windowStart, out0, lp0, size0, o, l)
    modifies st, mem
    ensures SameOutside(old(mem[..]), mem[..], out0, outEnd + BLOCK)
    ensures status == Exec.Ok ==> st.Valid(stream, reach)
    ensures status == Exec.Ok ==>
      SameOutcome(o, l, whole, cur, lits, Decoded([], st.Left(), st.State(), st.History()), outEnd - windowStart)
    ensures status == Exec.Ok ==> Exec.Layout(mem.Length, out0, out, outEnd, lp, size)
    ensures status == Exec.Ok ==> Exec.Holds(mem, windowStart, out, lp, size, cur, lits)
    ensures status != Exec.Ok ==> Stopped(status, o, l, whole, outEnd - windowStart)
  {
    ghost var limit, rest := outEnd - windowStart, whole;
    var left := num;
    status, out, lp, size, cur, lits := Exec.Ok, out0, lp0, size0, o, l;
    while left > 0
      invariant status == Exec.Ok && st.Valid(stream, reach)
      invariant rest == ReadMany(step, st.Left(), st.State(), st.History(), left, [])
      invariant SameOutcome(o, l, whole, cur, lits, rest, limit)
      invariant SameOutside(old(mem[..]), mem[..], out0, outEnd + BLOCK)
      invariant Exec.Layout(mem.Length, out0, out, outEnd, lp, size)
      invariant Exec.Holds(mem, windowStart, out, lp, size, cur, lits)
    {
      var n := if left < 128 then left else 128;
      ghost var cur1, lits1, mid := cur, lits, rest;
      status, out, lp, size, cur, lits, rest :=
        OneBuffer(st, stream, ts, n, mem, windowStart, out, outEnd, lp, size, left - n, out0, cur, lits, step, reach,
                  rest);
      if status != Exec.Ok {
        StoppedJoin(status, o, l, whole, cur1, lits1, mid, limit);
        return;
      }
      OutcomesJoin(o, l, whole, cur1, lits1, mid, cur, lits, rest, limit);
      left := left - n;
    }
  }

  /** The output is that of the plain executor, and all bits have been used. */
  ghost predicate Accepted(o: seq<Byte>, l: seq<Byte>, whole: Decoded, limit: nat)
  {
    whole.Decoded? && whole.left == 0 && Exec.RunBounded(o, l, whole.seqs, limit).Finished?
  }

  ghost predicate Yields(o: seq<Byte>, l: seq<Byte>, whole: Decoded, limit: nat, output: seq<Byte>)
  {
    whole.Decoded? && Exec.RunBounded(o, l, whole.seqs, limit) == Exec.Finished(output)
  }

  ghost predicate NeedsMore(o: seq<Byte>, l: seq<Byte>, whole: Decoded, limit: nat)
  {
    whole.Decoded? && Exec.RunBounded(o, l, whole.seqs, limit) == Exec.NeedMoreSpace
  }

  /** That is: the plain executor of section 3.1.1.4 of RFC 8878 has an output, and it fits. */
  lemma {:induction false} AcceptedIsPlain(o: seq<Byte>, l: seq<Byte>, whole: Decoded, limit: nat)
    requires |o| + |l| <= limit
    ensures Accepted(o, l, whole, limit) <==>
            && whole.Decoded? && whole.left == 0 && Exec.Run(o, l, whole.seqs).Some?
            && |Exec.Run(o, l, whole.seqs).value| <= limit
  {
    if whole.Decoded? {
      Exec.BoundedIsRunThatFits(o, l, whole.seqs, limit);
    }
  }

  /**
   lines 199-238, after init_sequences. It goes well exactly if all sequences can be decoded,
   no bits are left over, and the plain executor accepts them with an output that fits, which
   is then the output.
   */
  method RunSequences(st: SequencesState, stream: seq<Byte>, ts: Tables, num: nat, mem: array<Byte>, windowStart: nat,
                      out0: nat, outEnd: nat, lp0: nat, size0: nat, ghost step: Step, ghost reach: Reach,
                      ghost whole: Decoded)
    returns (status: Exec.Code, out: nat)
    requires st.Valid(stream, reach) && Does(step, reach, stream, ts)
    requires whole == ReadMany(step, st.Left(), st.State(), st.History(), num, [])
    requires windowStart <= out0 && Exec.Layout(mem.Length, out0, out0, outEnd, lp0, size0)
    modifies st, mem
    ensures SameOutside(old(mem[..]), mem[..], out0, outEnd + BLOCK)
    ensures status == Exec.Ok <==>
      Accepted(old(mem[windowStart..out0]), old(mem[lp0..lp0 + size0]), whole, outEnd - windowStart)
    ensures status == Exec.Ok ==> windowStart <= out <= outEnd
    ensures status == Exec.Ok ==> Yields(old(mem[windowStart..out0]), old(mem[lp0..lp0 + size0]), whole,
                                         outEnd - windowStart, mem[windowStart..out])
    ensures NeedsMore(old(mem[windowStart..out0]), old(mem[lp0..lp0 + size0]), whole, outEnd - windowStart) ==>
      status == Exec.MoreSpace
    ensures status == Exec.Ok ==> st.Valid(stream, reach) && st.History() == whole.history
  {
    ghost var o, l := mem[windowStart..out0], mem[lp0..lp0 + size0];
    var lp, size;
    ghost var cur, lits;
    status, out, lp, size, cur, lits := AllBuffers(st, stream, ts, num, mem, windowStart, out0, outEnd, lp0, size0, o,
                                                   l, step, reach, whole);
    if status == Exec.Ok {
      if st.numBits != 0 || st.ptr != 0 {
        return Exec.Err, out;
      }
      Exec.FinishLiterals(mem, windowStart, out, lp, size, out0, outEnd, cur, lits);
      out := out + size;
    }
  }

  // ---- the whole section ---------------------------------------------------

  datatype Section = Done(out: nat) | Rejected | NeedMoreSpace | Asserted

  /** A table as it was before, and its settings. */
  datatype Earlier = Earlier(s: Settings, log: nat, entries: seq<int>)

  ghost function EarlierOf(t: DecodingTable): Earlier
    reads t, t.entries
  {
    Earlier(t.settings, t.log, t.Content())
  }

  /** The same, for an object that is in order. */
  ghost function Before(t: DecodingTable): Option<Earlier>
    reads t, t.entries
  {
    if t.Valid() then Some(EarlierOf(t)) else None
  }

  /** The table that can be decoded with, if there is one. */
  ghost function Held(t: DecodingTable): Option<Table>
    reads t, t.entries
  {
    if Usable(t) then Some(Table(t.log, t.Content())) else None
  }

  /** It is the one before for the next block. */
  lemma {:induction false} HeldIsEarlier(t: DecodingTable, made: Table)
    requires Held(t) == Some(made)
    ensures Before(t) == Some(Earlier(t.settings, made.log, made.entries))
  {
  }

  /** The table objects hold the tables, to decode with and for a block that repeats them. */
  ghost predicate Ready(copy: DecodingTable, length: DecodingTable, dist: DecodingTable, ts: Tables)
    reads copy, copy.entries, length, length.entries, dist, dist.entries
  {
    Held(copy) == Some(ts.copy) && Held(length) == Some(ts.length) && Held(dist) == Some(ts.dist)
  }

  ghost predicate Separate(copy: DecodingTable, length: DecodingTable, dist: DecodingTable)
  {
    && copy != length && copy != dist && length != dist && copy.entries != length.entries
    && copy.entries != dist.entries && length.entries != dist.entries
  }

  ghost predicate Makes(mode: Mode, input: seq<Byte>, e: Earlier, made: Table, used: nat)
  {
    && TableFor(mode, input, e.s, e.log, e.entries, made.log, made.entries, used)
    && made.log <= e.s.maxLog && GoodTable(made.entries, made.log, e.s.sym)
  }

  /** No table is set up: the input is rejected, or else the assertion of fse_build_table fails (asserts). */
  ghost predicate Refuses(mode: Mode, input: seq<Byte>, e: Earlier, asserts: bool)
  {
    if asserts then Asserts(mode, input, e.s) else Rejects(mode, input, e.s, e.log)
  }

  /** handle_decoding_table, and which table it leaves. */
  method SetUp(t: DecodingTable, input: seq<Byte>, mode: Mode, ghost e: Earlier)
    returns (res: ZstdTables.Outcome, made: Table)
    requires Before(t) == Some(e)
    modifies t`log, t.entries
    ensures !res.Ready? ==> Refuses(mode, input, e, res.AssertionFails?)
    ensures res.Ready? ==> Held(t) == Some(made) && res.used <= |input| && Makes(mode, input, e, made, res.used)
  {
    made := Table(0, []);
    ghost var w, spread;
    res, w, spread := t.Handle(input, mode);
    if res.Ready? {
      made := Table(t.log, t.entries[..Pow2(t.log)]);
      if mode.Rle? {
        assert made.entries == [t.entries[0]];
      }
    }
  }

  /** The tables that three modes call for one after the other; a, b and c are what they take of the input. */
  ghost predicate AllMade(modes: (Mode, Mode, Mode), input: seq<Byte>, copy: Earlier, dist: Earlier, length: Earlier,
                          ts: Tables, a: nat, b: nat, c: nat)
  {
    && a + b + c <= |input| && Makes(modes.0, input, copy, ts.copy, a) && Makes(modes.1, input[a..], dist, ts.dist, b)
    && Makes(modes.2, input[a + b..], length, ts.length, c)
  }

  /** One of the three is refused; those before it take a and b bytes. */
  ghost predicate OneRefused(modes: (Mode, Mode, Mode), input: seq<Byte>, copy: Earlier, dist: Earlier, length: Earlier,
                             ts: Tables, a: nat, b: nat, asserts: bool)
  {
    || Refuses(modes.0, input, copy, asserts)
    || (a <= |input| && Makes(modes.0, input, copy, ts.copy, a) && Refuses(modes.1, input[a..], dist, asserts))
    || (a + b <= |input| && Makes(modes.0, input, copy, ts.copy, a) && Makes(modes.1, input[a..], dist, ts.dist, b) &&
        Refuses(modes.2, input[a + b..], length, asserts))
  }

  /** Tables that are made are good for decoding sequences. */
  lemma {:induction false} ThreeTables(modes: (Mode, Mode, Mode), input: seq<Byte>, copy: Earlier, dist: Earlier,
                                       length: Earlier, ts: Tables, a: nat, b: nat, c: nat)
    requires AllMade(modes, input, copy, dist, length, ts, a, b, c) && Suit(copy.s, dist.s, length.s)
    ensures GoodTables(ts)
  {
  }

  /** lines 192-195: the first two tables; a and b are what they take of the input. */
  method SetUpTwo(copy: DecodingTable, dist: DecodingTable, input: seq<Byte>, mode0: Mode, mode1: Mode,
                  ghost ec: Earlier, ghost ed: Earlier)
    returns (res: ZstdTables.Outcome, tc: Table, td: Table, ghost a: nat, ghost b: nat)
    requires copy != dist && copy.entries != dist.entries
    requires Before(copy) == Some(ec) && Before(dist) == Some(ed)
    modifies copy`log, copy.entries, dist`log, dist.entries
    ensures res.Ready? ==> Held(copy) == Some(tc) && Held(dist) == Some(td) && res.used == a + b <= |input|
    ensures res.Ready? ==> Makes(mode0, input, ec, tc, a) && Makes(mode1, input[a..], ed, td, b)
    ensures !res.Ready? ==>
      || Refuses(mode0, input, ec, res.AssertionFails?)
      || (a <= |input| && Makes(mode0, input, ec, tc, a) && Refuses(mode1, input[a..], ed, res.AssertionFails?))
  {
    td, a, b := Table(0, []), 0, 0;
    res, tc := SetUp(copy, input, mode0, ec);
    if res.Ready? {
      var pos := res.used;
      a := pos;
      res, td := SetUp(dist, input[pos..], mode1, ed);
      if res.Ready? {
        b := res.used;
        res := ZstdTables.Ready(pos + res.used);
      }
    }
  }

  /** lines 192-197: the tables, in the order copy, distance, length. */
  method SetUpTables(copy: DecodingTable, length: DecodingTable, dist: DecodingTable, input: seq<Byte>,
                     modes: (Mode, Mode, Mode), ghost ec: Earlier, ghost ed: Earlier, ghost el: Earlier)
    returns (res: ZstdTables.Outcome, ts: Tables, ghost a: nat, ghost b: nat, ghost c: nat)
    requires Separate(copy, length, dist)
    requires Before(copy) == Some(ec) && Before(dist) == Some(ed) && Before(length) == Some(el)
    modifies copy`log, copy.entries, length`log, length.entries, dist`log, dist.entries
    ensures res.Ready? ==> Ready(copy, length, dist, ts) && res.used == a + b + c
    ensures res.Ready? ==> AllMade(modes, input, ec, ed, el, ts, a, b, c)
    ensures !res.Ready? ==> OneRefused(modes, input, ec, ed, el, ts, a, b, res.AssertionFails?)
  {
    var tc, td, tl;
    c := 0;
    res, tc, td, a, b := SetUpTwo(copy, dist, input, modes.0, modes.1, ec, ed);
    ts := Tables(tc, Table(0, []), td);
    if res.Ready? {
      var pos := res.used;
      res, tl := SetUp(length, input[pos..], modes.2, el);
      if res.Ready? {
        c, ts := res.used, Tables(tc, tl, td);
        res := ZstdTables.Ready(pos + res.used);
      }
    }
  }

  /** How the three tables are set up, or one is refused. */
  ghost predicate SetsUp(modes: (Mode, Mode, Mode), input: seq<Byte>, copy: Earlier, dist: Earlier, length: Earlier,
                         ready: bool, asserts: bool, ts: Tables, a: nat, b: nat, c: nat)
  {
    if ready then AllMade(modes, input, copy, dist, length, ts, a, b, c)
    else OneRefused(modes, input, copy, dist, length, ts, a, b, asserts)
  }

  /** The same, and what the three tables are good for. */
  method SetUpAll(copy: DecodingTable, length: DecodingTable, dist: DecodingTable, input: seq<Byte>,
                  modes: (Mode, Mode, Mode), ghost ec: Earlier, ghost ed: Earlier, ghost el: Earlier)
    returns (res: ZstdTables.Outcome, ts: Tables, ghost a: nat, ghost b: nat, ghost c: nat)
    requires Separate(copy, length, dist) && Suit(ec.s, ed.s, el.s)
    requires Before(copy) == Some(ec) && Before(dist) == Some(ed) && Before(length) == Some(el)
    modifies copy`log, copy.entries, length`log, length.entries, dist`log, dist.entries
    ensures res.Ready? ==> Ready(copy, length, dist, ts) && res.used == a + b + c <= |input| && GoodTables(ts)
    ensures SetsUp(modes, input, ec, ed, el, res.Ready?, res.AssertionFails?, ts, a, b, c)
  {
    res, ts, a, b, c := SetUpTables(copy, length, dist, input, modes, ec, ed, el);
    if res.Ready? {
      ThreeTables(modes, input, ec, ed, el, ts, a, b, c);
    }
  }

  /** The string has an end, and enough bits for the three first states. */
  ghost predicate CanBegin(stream: seq<Byte>, len: nat, ts: Tables)
    requires len <= |stream|
  {
    len > 0 && stream[len - 1] > 0 && Total(FirstRequest(ts)) <= Log2Of(Value(stream[..len]))
  }

  /** What is left when they have been read. */
  ghost function FirstLeft(stream: seq<Byte>, len: nat, ts: Tables): nat
    requires len <= |stream| && CanBegin(stream, len, ts)
  {
    Log2Of(Value(stream[..len])) - Total(FirstRequest(ts))
  }

  ghost function FirstStates(stream: seq<Byte>, len: nat, ts: Tables): Entries
    requires len <= |stream| && CanBegin(stream, len, ts)
  {
    var t := Cut(BitsOf(stream), Log2Of(Value(stream[..len])), FirstRequest(ts));
    Entries(2048 * t.a, 2048 * t.c, 2048 * t.b)
  }

  /**
   The num sequences of a bit string of len bytes, with the tables and the history they go on
   from; read through the register or plainly.
   */
  ghost function SequencesOf(stream: seq<Byte>, len: nat, ts: Tables, h: seq<nat>, num: nat, register: bool): Decoded
    requires len <= |stream| && GoodTables(ts)
  {
    BitsOfBounded(stream);
    if !CanBegin(stream, len, ts) then Failed
    else ReadMany(StepOf(BitsOf(stream), ts, register), FirstLeft(stream, len, ts), FirstStates(stream, len, ts), h,
                  num, [])
  }

  ghost predicate AreSequences(whole: Decoded, stream: seq<Byte>, len: nat, ts: Tables, h: (nat, nat, nat), num: nat,
                               register: bool)
  {
    len <= |stream| && GoodTables(ts) && whole == SequencesOf(stream, len, ts, [h.0, h.1, h.2], num, register)
  }

  lemma {:induction false} FirstStatesGood(stream: seq<Byte>, len: nat, ts: Tables)
    requires len <= |stream| && GoodTables(ts) && CanBegin(stream, len, ts)
    ensures GoodEntries(ts, FirstStates(stream, len, ts))
  {
    BitsOfBounded(stream);
    var left := Log2Of(Value(stream[..len]));
    CutBounds(BitsOf(stream), left, FirstRequest(ts));
    FirstEntries(ts, Cut(BitsOf(stream), left, FirstRequest(ts)));
  }

  /** Reading plainly comes to a sequence whose bits the register lacks. */
  ghost predicate StreamLoses(stream: seq<Byte>, len: nat, ts: Tables, h: seq<nat>, num: nat)
    requires len <= |stream| && GoodTables(ts)
  {
    BitsOfBounded(stream);
    var bits := BitsOf(stream);
    CanBegin(stream, len, ts) &&
    RunLoses(StepOf(bits, ts, false), LostOf(bits, ts), FirstLeft(stream, len, ts), FirstStates(stream, len, ts), h,
             num)
  }

  /** Through the register the sequences are those of the string, unless that is so. */
  lemma {:induction false} StreamThroughRegister(stream: seq<Byte>, len: nat, ts: Tables, h: seq<nat>, num: nat)
    requires len <= |stream| && GoodTables(ts) && GoodHistory(h)
    ensures SequencesOf(stream, len, ts, h, num, true) ==
            if StreamLoses(stream, len, ts, h, num) then Failed else SequencesOf(stream, len, ts, h, num, false)
  {
    BitsOfBounded(stream);
    if CanBegin(stream, len, ts) {
      FirstStatesGood(stream, len, ts);
      RunWithRegister(BitsOf(stream), ts, FirstLeft(stream, len, ts), FirstStates(stream, len, ts), h, num);
    }
  }

  lemma {:induction false} DecodedIsPlain(whole: Decoded, stream: seq<Byte>, len: nat, ts: Tables, h: (nat, nat, nat),
                                          num: nat)
    requires AreSequences(whole, stream, len, ts, h, num, true) && GoodHistory([h.0, h.1, h.2]) && whole.Decoded?
    ensures AreSequences(whole, stream, len, ts, h, num, false)
  {
    StreamThroughRegister(stream, len, ts, [h.0, h.1, h.2], num);
  }

  lemma {:induction false} LeftOf(stream: seq<Byte>, len: nat, ts: Tables, left: nat)
    requires 0 < len <= |stream| && 2 <= stream[len - 1] <= 3 && left == 8 * len - 7
    requires ts.copy.log == ts.dist.log == ts.length.log == 0
    ensures CanBegin(stream, len, ts) && FirstLeft(stream, len, ts) == left
  {
    HighestBit(stream, len);
    assert Log2(stream[len - 1]) == 1;
  }

  lemma {:induction false} WideFrom(stream: seq<Byte>, len: nat, ts: Tables, h: seq<nat>, num: nat)
    requires len <= |stream| && ts == RleTables(35, 52, 27) && GoodTables(ts) && GoodHistory(h) && num == 3
    requires CanBegin(stream, len, ts) && FirstLeft(stream, len, ts) == 177
    ensures SequencesOf(stream, len, ts, h, num, true) == Failed
    ensures var all := SequencesOf(stream, len, ts, h, num, false);
            all.Decoded? && all.left == 0
  {
    BitsOfBounded(stream);
    FirstStatesGood(stream, len, ts);
    WideSequences(BitsOf(stream), ts, FirstStates(stream, len, ts), h);
  }

  /**
   With tables for the symbols 35, 27 and 52 and nothing else, any 23 bytes of which the last is
   2 or 3 are three sequences and no bit more; and through the register they are none.
   */
  lemma {:induction false} WideStream(stream: seq<Byte>, len: nat, ts: Tables, h: seq<nat>, num: nat)
    requires len == 23 <= |stream| && num == 3 && 2 <= stream[len - 1] <= 3 && ts == RleTables(35, 52, 27)
    requires GoodHistory(h)
    ensures GoodTables(ts) && SequencesOf(stream, len, ts, h, num, true) == Failed
    ensures var all := SequencesOf(stream, len, ts, h, num, false);
            all.Decoded? && all.left == 0
  {
    RleTablesGood(35, 52, 27);
    LeftOf(stream, len, ts, 177);
    WideFrom(stream, len, ts, h, num);
  }

  lemma {:induction false} SequencesFrom(stream: seq<Byte>, len: nat, ts: Tables, h: seq<nat>, num: nat, step: Step,
                                         left: nat, es: Entries)
    requires len <= |stream| && GoodTables(ts) && CanBegin(stream, len, ts) && left == FirstLeft(stream, len, ts)
    requires es == FirstStates(stream, len, ts)
    requires Bounded(BitsOf(stream)) && step == StepOf(BitsOf(stream), ts, true)
    ensures SequencesOf(stream, len, ts, h, num, true) == ReadMany(step, left, es, h, num, [])
  {
  }

  lemma {:induction false} GetStep(stream: seq<Byte>, ts: Tables) returns (step: Step, reach: Reach)
    requires GoodTables(ts)
    ensures Bounded(BitsOf(stream)) && step == StepOf(BitsOf(stream), ts, true) && Does(step, reach, stream, ts)
    ensures forall es, h :: reach(es, h) <==> GoodEntries(ts, es) && GoodHistory(h)
  {
    StepDoes(stream, ts);
    step, reach := StepOf(BitsOf(stream), ts, true), ReachOf(ts);
  }

  /** lines 199-200 */
  method Begin(stream: seq<Byte>, len: nat, ts: Tables, h: (nat, nat, nat), ghost num: nat, ghost step: Step,
               ghost reach: Reach)
    returns (ok: bool, st: SequencesState)
    requires len <= |stream| && 8 <= |stream| && GoodTables(ts) && GoodHistory([h.0, h.1, h.2])
    requires Bounded(BitsOf(stream)) && step == StepOf(BitsOf(stream), ts, true)
    requires forall es, h :: reach(es, h) <==> GoodEntries(ts, es) && GoodHistory(h)
    ensures fresh(st) && (ok ==> st.Valid(stream, reach))
    ensures SequencesOf(stream, len, ts, [h.0, h.1, h.2], num, true) ==
            if ok then ReadMany(step, st.Left(), st.State(), st.History(), num, []) else Failed
  {
    st := new SequencesState();
    ok := st.InitSequences(stream, len, ts, h.0, h.1, h.2);
    if ok {
      SequencesFrom(stream, len, ts, [h.0, h.1, h.2], num, step, st.Left(), st.State());
    }
  }

  /**
   How the section ends whose sequences are whole: with the output that is then in memory, and
   the new history, exactly if they are accepted.
   */
  ghost predicate Concludes(res: Section, h: (nat, nat, nat), o: seq<Byte>, l: seq<Byte>, whole: Decoded, limit: nat,
                            windowStart: nat, mem: seq<Byte>)
  {
    && res != Asserted && (res.Done? <==> Accepted(o, l, whole, limit))
    && (res.Done? ==> windowStart <= res.out <= windowStart + limit && res.out <= |mem|)
    && (res.Done? ==> Yields(o, l, whole, limit, mem[windowStart..res.out]))
    && (res.Done? ==> [h.0, h.1, h.2] == whole.history && GoodHistory(whole.history))
    && (NeedsMore(o, l, whole, limit) ==> res == NeedMoreSpace)
  }

  /** lines 199-238, with the tables ts. */
  method RunStream(stream: seq<Byte>, len: nat, ts: Tables, num: nat, h: (nat, nat, nat), mem: array<Byte>,
                   windowStart: nat, out0: nat, outEnd: nat, lp: nat, size: nat, ghost o: seq<Byte>, ghost l: seq<Byte>)
    returns (res: Section, h': (nat, nat, nat), ghost whole: Decoded)
    requires len <= |stream| && 8 <= |stream| && GoodTables(ts) && GoodHistory([h.0, h.1, h.2])
    requires windowStart <= out0 && Exec.Layout(mem.Length, out0, out0, outEnd, lp, size)
    requires o == mem[windowStart..out0] && l == mem[lp..lp + size]
    modifies mem
    ensures SameOutside(old(mem[..]), mem[..], out0, outEnd + BLOCK)
    ensures AreSequences(whole, stream, len, ts, h, num, true)
    ensures res.Done? ==> AreSequences(whole, stream, len, ts, h, num, false)
    ensures Concludes(res, h', o, l, whole, outEnd - windowStart, windowStart, mem[..])
  {
    h' := h;
    ghost var step, reach := GetStep(stream, ts);
    var ok, st := Begin(stream, len, ts, h, num, step, reach);
    whole := SequencesOf(stream, len, ts, [h.0, h.1, h.2], num, true);
    if !ok {
      return Rejected, h', whole;
    }
    var status, out := RunSequences(st, stream, ts, num, mem, windowStart, out0, outEnd, lp, size, step, reach, whole);
    match status
    case Ok =>
      res, h' := Done(out), (st.dist1, st.dist2, st.dist3);
      DecodedIsPlain(whole, stream, len, ts, h, num);
    case Err => res := Rejected;
    case MoreSpace => res := NeedMoreSpace;
  }

  /** How the section ends once the tables are ready as ts, or not. */
  ghost predicate Ends(res: Section, h': (nat, nat, nat), ready: bool, asserts: bool, ts: Tables, used: nat,
                       whole: Decoded, input: seq<Byte>, behind: seq<Byte>, h: (nat, nat, nat), num: nat, o: seq<Byte>,
                       l: seq<Byte>, limit: nat, windowStart: nat, mem: seq<Byte>)
  {
    if ready then
      && used <= |input| && AreSequences(whole, input[used..] + behind, |input| - used, ts, h, num, true)
      && (res.Done? ==> AreSequences(whole, input[used..] + behind, |input| - used, ts, h, num, false))
      && Concludes(res, h', o, l, whole, limit, windowStart, mem)
    else res == if asserts then Asserted else Rejected
  }

  /** lines 197-238, after the tables. */
  method RunSection(r: ZstdTables.Outcome, ts: Tables, input: seq<Byte>, behind: seq<Byte>, num: nat,
                    h: (nat, nat, nat), mem: array<Byte>, windowStart: nat, out0: nat, outEnd: nat, lp: nat, size: nat,
                    ghost o: seq<Byte>, ghost l: seq<Byte>)
    returns (res: Section, h': (nat, nat, nat), ghost used: nat, ghost whole: Decoded)
    requires r.Ready? ==> GoodTables(ts) && r.used <= |input|
    requires 8 <= |behind| && GoodHistory([h.0, h.1, h.2]) && windowStart <= out0
    requires Exec.Layout(mem.Length, out0, out0, outEnd, lp, size)
    requires o == mem[windowStart..out0] && l == mem[lp..lp + size]
    modifies mem
    ensures Ends(res, h', r.Ready?, r.AssertionFails?, ts, used, whole, input, behind, h, num, o, l,
                 outEnd - windowStart, windowStart, mem[..])
    ensures SameOutside(old(mem[..]), mem[..], out0, outEnd + BLOCK)
    ensures r.Ready? ==> used == r.used
  {
    h', whole, used := h, Failed, 0;
    match r
    case Corrupt => res := Rejected;
    case AssertionFails => res := Asserted;
    case Ready(pos) =>
      used := pos;
      res, h', whole := RunStream(input[pos..] + behind, |input| - pos, ts, num, h, mem, windowStart, out0, outEnd, lp,
                                  size, o, l);
  }

  /**
   lines 192-238. input is the rest of the block, behind what lies in memory after it; modes
   are those of the three tables, copy, distance, length. If the tables can be set up (ready)
   as ts, and their descriptions take used bytes, the section is accepted exactly if the
   sequences in the rest of the input are, and the output is what they say.
   */
  method SequencesSection(copy: DecodingTable, length: DecodingTable, dist: DecodingTable, input: seq<Byte>,
                          behind: seq<Byte>, modes: (Mode, Mode, Mode), num: nat, h: (nat, nat, nat), mem: array<Byte>,
                          windowStart: nat, out0: nat, outEnd: nat, lp: nat, size: nat, ghost ec: Earlier,
                          ghost ed: Earlier, ghost el: Earlier, ghost o: seq<Byte>, ghost l: seq<Byte>)
    returns (res: Section, h': (nat, nat, nat), ghost ready: bool, ghost asserts: bool, ghost ts: Tables, ghost a: nat,
             ghost b: nat, ghost c: nat, ghost used: nat, ghost whole: Decoded)
    requires Separate(copy, length, dist) && Suit(ec.s, ed.s, el.s)
    requires Before(copy) == Some(ec) && Before(dist) == Some(ed) && Before(length) == Some(el)
    requires 8 <= |behind| && GoodHistory([h.0, h.1, h.2]) && windowStart <= out0
    requires Exec.Layout(mem.Length, out0, out0, outEnd, lp, size)
    requires o == mem[windowStart..out0] && l == mem[lp..lp + size]
    modifies copy`log, copy.entries, length`log, length.entries, dist`log, dist.entries, mem
    ensures SetsUp(modes, input, ec, ed, el, ready, asserts, ts, a, b, c) && (ready ==> used == a + b + c)
    ensures Ends(res, h', ready, asserts, ts, used, whole, input, behind, h, num, o, l, outEnd - windowStart,
                 windowStart, mem[..])
    ensures SameOutside(old(mem[..]), mem[..], out0, outEnd + BLOCK)
    ensures ready ==> Ready(copy, length, dist, ts)
  {
    var r, tables;
    r, tables, a, b, c := SetUpAll(copy, length, dist, input, modes, ec, ed, el);
    ready, asserts, ts := r.Ready?, r.AssertionFails?, tables;
    res, h', used, whole := RunSection(r, tables, input, behind, num, h, mem, windowStart, out0, outEnd, lp, size, o,
                                       l);
  }
}
