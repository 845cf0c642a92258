/**
 compression/zstd_sequences.c: what difference it makes that the sequences of a block are read
 through a register of 64 bits.
 */
module ZstdRegister {
  import opened Basics
  import opened Bits
  import opened BackBits
  import opened Fse
  import opened ZstdPack
  import opened ZstdTables
  import opened ZstdSeq

  /** The values of a sequence are within the string, and ask for more than the register can be filled up to. */
  ghost predicate ValuesLost(bits: BitSource, left: nat, ts: Tables, es: Entries)
    requires Bounded(bits) && GoodTables(ts) && GoodEntries(ts, es)
  {
    var s := ReadStates(bits, left, ts, es, false);
    s.States? && Capacity(s.left) < Total(ExtraRequest(s.es)) <= s.left
  }

  lemma {:induction false} StatesNeverLost(bits: BitSource, left: nat, ts: Tables, es: Entries)
    requires Bounded(bits) && GoodTables(ts) && GoodEntries(ts, es)
    ensures ReadStates(bits, left, ts, es, true) == ReadStates(bits, left, ts, es, false)
  {
  }

  /** With the register a sequence is the same, or none where the register lacks its bits. */
  lemma {:induction false} OneWithRegister(bits: BitSource, ts: Tables, left: nat, es: Entries, h: seq<nat>)
    requires Bounded(bits) && GoodTables(ts) && GoodEntries(ts, es) && GoodHistory(h)
    ensures StepOf(bits, ts, true)(left, es, h) == if ValuesLost(bits, left, ts, es) then NoMore else StepOf(bits, ts, false)(left, es, h)
  {
    StatesNeverLost(bits, left, ts, es);
    var s := ReadStates(bits, left, ts, es, true);
    if s.States? {
      assert ReadValues(bits, s.left, ts, s.es, true) ==
             if ValuesLost(bits, left, ts, es) then NoValues else ReadValues(bits, s.left, ts, s.es, false);
    }
  }

  /** Whether the register lacks the bits of the next sequence. */
  type Lost = (nat, Entries) -> bool

  ghost function LostOf(bits: BitSource, ts: Tables): Lost
    requires Bounded(bits) && GoodTables(ts)
  {
    (left: nat, es) => GoodEntries(ts, es) && ValuesLost(bits, left, ts, es)
  }

  /** Reading plainly comes to a sequence whose bits the register lacks. */
  predicate RunLoses(plain: Step, lost: Lost, left: nat, es: Entries, h: seq<nat>, n: nat)
    decreases n
  {
    n > 0 && (lost(left, es) || (var o := plain(left, es, h); o.Next? && RunLoses(plain, lost, o.left, o.es, o.history, n - 1)))
  }

  /** step is plain, except where something is lost. */
  ghost predicate PlainBut(step: Step, plain: Step, lost: Lost, reach: Reach)
  {
    forall left, es, h :: reach(es, h) ==> step(left, es, h) == if lost(left, es) then NoMore else plain(left, es, h)
  }

  lemma {:induction false} RunPlainBut(step: Step, plain: Step, lost: Lost, reach: Reach, left: nat, es: Entries,
                                       h: seq<nat>, n: nat, got: seq<Sequence>)
    requires PlainBut(step, plain, lost, reach) && Closed(plain, reach) && reach(es, h)
    ensures ReadMany(step, left, es, h, n, got) ==
            if RunLoses(plain, lost, left, es, h, n) then Failed else ReadMany(plain, left, es, h, n, got)
    decreases n
  {
    if n > 0 && !lost(left, es) {
      var o := plain(left, es, h);
      if o.Next? {
        RunPlainBut(step, plain, lost, reach, o.left, o.es, o.history, n - 1, got + [o.s]);
      }
    }
  }

  /** So for all codes what is decoded with the register is what the string says, unless a sequence is lost. */
  lemma {:induction false} RunWithRegister(bits: BitSource, ts: Tables, left: nat, es: Entries, h: seq<nat>, n: nat)
    requires Bounded(bits) && GoodTables(ts) && GoodEntries(ts, es) && GoodHistory(h)
    ensures ReadMany(StepOf(bits, ts, true), left, es, h, n, []) ==
            if RunLoses(StepOf(bits, ts, false), LostOf(bits, ts), left, es, h, n) then Failed
            else ReadMany(StepOf(bits, ts, false), left, es, h, n, [])
  {
    var step, plain, lost := StepOf(bits, ts, true), StepOf(bits, ts, false), LostOf(bits, ts);
    forall left, es, h | ReachOf(ts)(es, h)
      ensures step(left, es, h) == if lost(left, es) then NoMore else plain(left, es, h)
    {
      OneWithRegister(bits, ts, left, es, h);
    }
    StepCloses(bits, ts, false);
    RunPlainBut(step, plain, lost, ReachOf(ts), left, es, h, n, []);
  }

  /**
   The register suffices as long as no offset code is above 25, that is, offsets stay below 2^26:
   a sequence then never asks for more than 57 bits at once.
   */
  lemma {:induction false} NarrowRunsAgree(bits: BitSource, ts: Tables, left: nat, es: Entries, h: seq<nat>, n: nat,
                                           got: seq<Sequence>)
    requires Bounded(bits) && GoodTables(ts) && GoodEntries(ts, es) && GoodHistory(h)
    requires forall x :: 0 <= x < |ts.dist.entries| ==> EntrySym(ts.dist.entries[x]) <= 25
    ensures ReadMany(StepOf(bits, ts, true), left, es, h, n, got) == ReadMany(StepOf(bits, ts, false), left, es, h, n, got)
    decreases n
  {
    if n > 0 {
      NarrowOneAgrees(bits, ts, left, es, h);
      var o := StepOf(bits, ts, true)(left, es, h);
      if o.Next? {
        OneKeeps(bits, ts, true, left, es, h);
        NarrowRunsAgree(bits, ts, o.left, o.es, o.history, n - 1, got + [o.s]);
      }
    }
  }

  lemma {:induction false} NarrowOneAgrees(bits: BitSource, ts: Tables, left: nat, es: Entries, h: seq<nat>)
    requires Bounded(bits) && GoodTables(ts) && GoodEntries(ts, es) && GoodHistory(h)
    requires forall x :: 0 <= x < |ts.dist.entries| ==> EntrySym(ts.dist.entries[x]) <= 25
    ensures StepOf(bits, ts, true)(left, es, h) == StepOf(bits, ts, false)(left, es, h)
  {
    OneWithRegister(bits, ts, left, es, h);
    var s := ReadStates(bits, left, ts, es, false);
    if s.States? {
      assert Total(ExtraRequest(s.es)) <= 57;
    }
  }

  // ---- sequences that the register is too small for ------------------------

  /** Three tables of one symbol each. */
  function RleTables(copy: nat, length: nat, dist: nat): Tables
  {
    Tables(Table(0, [RleEntry(copy)]), Table(0, [RleEntry(length)]), Table(0, [RleEntry(dist)]))
  }

  lemma {:induction false} RleTablesGood(copy: nat, length: nat, dist: nat)
    requires copy < COPY_CODES && length < LENGTH_CODES && dist < DIST_CODES
    ensures GoodTables(RleTables(copy, length, dist))
    ensures EntrySym(RleEntry(copy)) == copy && EntrySym(RleEntry(length)) == length && EntrySym(RleEntry(dist)) == dist
  {
    RleIsGood(copy, COPY_CODES);
    RleIsGood(length, LENGTH_CODES);
    RleIsGood(dist, DIST_CODES);
  }

  /** The bits of every sequence with these tables. */
  function RleTotal(copy: nat, length: nat, dist: nat): nat
  {
    dist + LengthCode(length).bits + CopyCode(copy).bits
  }

  lemma {:induction false} RleStates(bits: BitSource, copy: nat, length: nat, dist: nat, ts: Tables, left: nat,
                                     es: Entries)
    requires copy < COPY_CODES && length < LENGTH_CODES && dist < DIST_CODES && ts == RleTables(copy, length, dist)
    requires Bounded(bits) && GoodTables(ts) && GoodEntries(ts, es)
    ensures ReadStates(bits, left, ts, es, false) == States(Entries(RleEntry(copy), RleEntry(length), RleEntry(dist)), left)
  {
    assert Pow2(0) == 1;
    var r := StateRequest(es);
    assert r == Request(0, 0, 0);
    CutBounds(bits, left, r);
  }

  lemma {:induction false} RleValues(bits: BitSource, copy: nat, length: nat, dist: nat, ts: Tables, left: nat,
                                     es: Entries)
    requires copy < COPY_CODES && length < LENGTH_CODES && 2 <= dist < DIST_CODES
    requires es == Entries(RleEntry(copy), RleEntry(length), RleEntry(dist))
    requires Bounded(bits) && GoodEntries(ts, es) && RleTotal(copy, length, dist) <= left
    ensures Total(ExtraRequest(es)) == RleTotal(copy, length, dist)
    ensures var v := ReadValues(bits, left, ts, es, false);
            v.GotValues? && v.left == left - RleTotal(copy, length, dist) && v.v.dist > 3
  {
    RleTablesGood(copy, length, dist);
    Pow2Monotone(2, dist);
    assert Pow2(2) == 4;
  }

  lemma {:induction false} FarApplied(v: Values, h: seq<nat>, left: nat, es: Entries)
    requires GoodHistory(h) && 3 < v.dist < 0x4000_0000
    ensures var o := Applied(v, h, left, es);
            o.Next? && o.left == left && o.es == es && GoodHistory(o.history)
  {
    ResolveKeeps(h, v.dist, v.copy);
  }

  lemma {:induction false} OneApplied(bits: BitSource, left: nat, ts: Tables, es: Entries, h: seq<nat>, s: StatesRead,
                                      v: ValuesRead)
    requires Bounded(bits) && GoodTables(ts) && GoodEntries(ts, es) && GoodHistory(h)
    requires s == ReadStates(bits, left, ts, es, false) && s.States?
    requires v == ReadValues(bits, s.left, ts, s.es, false) && v.GotValues?
    ensures ReadOne(bits, left, ts, es, h, false) == Applied(v.v, h, v.left, s.es)
  {
  }

  lemma {:induction false} RleLost(bits: BitSource, copy: nat, length: nat, dist: nat, ts: Tables, left: nat,
                                   es: Entries)
    requires copy < COPY_CODES && length < LENGTH_CODES && 2 <= dist < DIST_CODES && ts == RleTables(copy, length, dist)
    requires Bounded(bits) && GoodTables(ts) && GoodEntries(ts, es) && RleTotal(copy, length, dist) <= left
    ensures ValuesLost(bits, left, ts, es) <==> Capacity(left) < RleTotal(copy, length, dist)
  {
    var s := ReadStates(bits, left, ts, es, false);
    RleStates(bits, copy, length, dist, ts, left, es);
    RleValues(bits, copy, length, dist, ts, left, s.es);
  }

  lemma {:induction false} RleOne(bits: BitSource, copy: nat, length: nat, dist: nat, ts: Tables, left: nat,
                                  es: Entries, h: seq<nat>)
    requires copy < COPY_CODES && length < LENGTH_CODES && 2 <= dist < DIST_CODES && ts == RleTables(copy, length, dist)
    requires Bounded(bits) && GoodTables(ts) && GoodEntries(ts, es) && GoodHistory(h)
    requires RleTotal(copy, length, dist) <= left
    ensures var o := ReadOne(bits, left, ts, es, h, false);
            o.Next? && o.left == left - RleTotal(copy, length, dist) && GoodEntries(ts, o.es) && GoodHistory(o.history)
  {
    var s := ReadStates(bits, left, ts, es, false);
    RleStates(bits, copy, length, dist, ts, left, es);
    RleValues(bits, copy, length, dist, ts, left, s.es);
    var v := ReadValues(bits, left, ts, s.es, false);
    OneApplied(bits, left, ts, es, h, s, v);
    FarApplied(v.v, h, v.left, s.es);
  }

  /** Every step takes total bits. */
  ghost predicate Steady(step: Step, reach: Reach, total: nat)
  {
    forall left, es, h :: reach(es, h) && total <= left ==>
      var o := step(left, es, h);
      o.Next? && o.left == left - total && reach(o.es, o.history)
  }

  lemma {:induction false} SteadyRun(step: Step, reach: Reach, total: nat, left: nat, es: Entries, h: seq<nat>, n: nat,
                                     got: seq<Sequence>)
    requires Steady(step, reach, total) && reach(es, h) && left == n * total
    ensures var all := ReadMany(step, left, es, h, n, got);
            all.Decoded? && all.left == 0
    decreases n
  {
    if n > 0 {
      assert n * total == (n - 1) * total + total;
      MulMonotone(0, n - 1, total);
      var o := step(left, es, h);
      SteadyRun(step, reach, total, o.left, o.es, o.history, n - 1, got + [o.s]);
    }
  }

  lemma {:induction false} RleSteady(bits: BitSource, copy: nat, length: nat, dist: nat, ts: Tables)
    requires copy < COPY_CODES && length < LENGTH_CODES && 2 <= dist < DIST_CODES && ts == RleTables(copy, length, dist)
    requires Bounded(bits) && GoodTables(ts)
    ensures Steady(StepOf(bits, ts, false), ReachOf(ts), RleTotal(copy, length, dist))
  {
    var step, reach, total := StepOf(bits, ts, false), ReachOf(ts), RleTotal(copy, length, dist);
    forall left: nat, es, h | reach(es, h) && total <= left
      ensures var o := step(left, es, h);
              o.Next? && o.left == left - total && reach(o.es, o.history)
    {
      RleOne(bits, copy, length, dist, ts, left, es, h);
    }
  }

  /**
   Three sequences with an offset code of 27 and 16 bits each for the other two values, which
   take 177 bits: whatever these bits are, they decode to the last, and not with the register.
   */
  lemma {:induction false} WideSequences(bits: BitSource, ts: Tables, es: Entries, h: seq<nat>)
    requires Bounded(bits) && ts == RleTables(35, 52, 27) && GoodTables(ts) && GoodEntries(ts, es) && GoodHistory(h)
    ensures ReadMany(StepOf(bits, ts, true), 177, es, h, 3, []) == Failed
    ensures var all := ReadMany(StepOf(bits, ts, false), 177, es, h, 3, []);
            all.Decoded? && all.left == 0
  {
    assert RleTotal(35, 52, 27) == 59 && Capacity(177) == 57;
    RleSteady(bits, 35, 52, 27, ts);
    SteadyRun(StepOf(bits, ts, false), ReachOf(ts), 59, 177, es, h, 3, []);
    RleLost(bits, 35, 52, 27, ts, 177, es);
    OneWithRegister(bits, ts, 177, es, h);
  }
}
