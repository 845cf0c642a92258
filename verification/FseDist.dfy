/**
 compression/zstd_fse.c: reading an FSE distribution (section 4.1.1 of RFC 8878).
 */
module FseDist {
  import opened Basics
  import opened Bits
  import opened Fse

  // ---- one value in truncated binary ---------------------------------------

  /** lines 13-15: values below this take one bit less. */
  function Cutoff(range: Pos): int
  {
    2 * Pow2(Log2(range)) - range
  }

  datatype Truncated = NoValue | Got(v: nat, end: nat)

  /** lines 37-48: the value at bit pos and the position after it, unless the string ends before. */
  function ReadTrunc(bits: BitSource, avail: nat, pos: nat, range: Pos): Truncated
  {
    var len := Log2(range);
    if pos + len > avail then NoValue
    else
      var v := bits(pos, len);
      if v < Cutoff(range) then Got(v, pos + len)
      else if pos + len + 1 > avail then NoValue
      else if bits(pos + len, 1) == 1 then
        Log2Bounds(range);
        Got(v + Pow2(len) - Cutoff(range), pos + len + 1)
      else Got(v, pos + len + 1)
  }

  lemma {:induction false} ReadTruncBounds(bits: BitSource, avail: nat, pos: nat, range: Pos)
    requires ReadTrunc(bits, avail, pos, range).Got? && bits(pos, Log2(range)) < Pow2(Log2(range))
    ensures ReadTrunc(bits, avail, pos, range).v < range
    ensures pos <= ReadTrunc(bits, avail, pos, range).end <= avail
  {
    Log2Bounds(range);
  }

  /** The fields a value is written as: its low bits, and for the larger values one bit more. */
  function TruncFields(range: Pos, v: nat, rest: Fields): Fields
    requires v < range
  {
    Log2Bounds(range);
    var len := Log2(range);
    if v < Cutoff(range) then Then(v, len, rest)
    else if v < Pow2(len) then Then(v, len, Then(0, 1, rest))
    else Then(v + Cutoff(range) - Pow2(len), len, Then(1, 1, rest))
  }

  lemma {:induction false} ReadShort(bits: BitSource, avail: nat, pos: nat, range: Pos, v: nat)
    requires bits(pos, Log2(range)) == v < Cutoff(range) && pos + Log2(range) <= avail
    ensures ReadTrunc(bits, avail, pos, range) == Got(v, pos + Log2(range))
  {
  }

  lemma {:induction false} ReadLong(bits: BitSource, avail: nat, pos: nat, range: Pos, lo: nat, hi: nat)
    requires bits(pos, Log2(range)) == lo >= Cutoff(range) && bits(pos + Log2(range), 1) == hi <= 1
    requires pos + Log2(range) + 1 <= avail
    ensures ReadTrunc(bits, avail, pos, range).Got? && ReadTrunc(bits, avail, pos, range).end == pos + Log2(range) + 1
    ensures ReadTrunc(bits, avail, pos, range).v == if hi == 1 then lo + Pow2(Log2(range)) - Cutoff(range) else lo
  {
  }

  /** Reading undoes writing. */
  lemma {:induction false} TruncRoundTrip(bits: BitSource, avail: nat, pos: nat, range: Pos, v: nat, rest: Fields) returns (end: nat)
    requires v < range && StartsWith(bits, pos, TruncFields(range, v, rest))
    requires pos + Width(TruncFields(range, v, rest)) <= avail
    ensures pos + Width(TruncFields(range, v, rest)) == end + Width(rest) && StartsWith(bits, end, rest)
    ensures ReadTrunc(bits, avail, pos, range) == Got(v, end)
  {
    Log2Bounds(range);
    var f, len := TruncFields(range, v, rest), Log2(range);
    if v < Cutoff(range) {
      end := pos + len;
      ReadShort(bits, avail, pos, range, v);
    } else {
      end := pos + len + 1;
      assert StartsWith(bits, pos + len, f.rest);
      ReadLong(bits, avail, pos, range, f.value, f.rest.value);
    }
  }

  // ---- a whole distribution ------------------------------------------------

  datatype Zeros = NoZeros | Zeros(acc: seq<nat>, end: nat)

  /** Stuck stands for the failing assertion of line 52. */
  datatype Distr = Bad | Stuck | Done(weights: seq<nat>, pos: nat)

  function Ones(n: nat): (r: seq<nat>)
    ensures |r| == n && forall i :: 0 <= i < n ==> r[i] == 1
  {
    seq(n, _ => 1)
  }

  /** lines 61-73: counts of further zero probabilities, two bits each, as long as they are 3. */
  function ReadZeros(bits: BitSource, avail: nat, pos: nat, acc: seq<nat>, maxSym: nat): Zeros
    decreases avail - pos
  {
    if pos + 2 > avail then NoZeros
    else
      var rep := bits(pos, 2);
      if |acc| - 1 + rep > maxSym then NoZeros
      else if rep == 3 then ReadZeros(bits, avail, pos + 2, acc + Ones(rep), maxSym)
      else Zeros(acc + Ones(rep), pos + 2)
  }

  lemma {:induction false} ReadZerosGrows(bits: BitSource, avail: nat, pos: nat, acc: seq<nat>, maxSym: nat)
    requires ReadZeros(bits, avail, pos, acc, maxSym).Zeros?
    ensures acc <= ReadZeros(bits, avail, pos, acc, maxSym).acc
    ensures TotalSlots(ReadZeros(bits, avail, pos, acc, maxSym).acc) == TotalSlots(acc)
    ensures SmallOrSeen(ReadZeros(bits, avail, pos, acc, maxSym).acc, acc)
    decreases avail - pos
  {
    var rep := bits(pos, 2);
    TotalSlotsOnes(acc, rep);
    if rep == 3 {
      ReadZerosGrows(bits, avail, pos + 2, acc + Ones(rep), maxSym);
    }
  }

  /** Every element of r is one of acc or 1. */
  ghost predicate SmallOrSeen(r: seq<nat>, acc: seq<nat>)
  {
    acc <= r && forall i :: |acc| <= i < |r| ==> r[i] == 1
  }

  lemma {:induction false} TotalSlotsOnes(acc: seq<nat>, n: nat)
    ensures TotalSlots(acc + Ones(n)) == TotalSlots(acc)
  {
    if n == 0 {
      assert acc + Ones(0) == acc;
    } else {
      assert (acc + Ones(n))[..|acc| + n - 1] == acc + Ones(n - 1);
      TotalSlotsOnes(acc, n - 1);
    }
  }

  lemma {:induction false} TotalSlotsAppend(acc: seq<nat>, v: nat)
    ensures TotalSlots(acc + [v]) == TotalSlots(acc) + Slots(v)
  {
    assert (acc + [v])[..|acc|] == acc;
  }

  /** lines 26-76: the values of the symbols from |acc| on, with left states still to be given out. */
  function ReadSymbols(bits: BitSource, avail: nat, pos: nat, left: Pos, acc: seq<nat>, maxSym: nat): Distr
    decreases maxSym - |acc|
  {
    if |acc| >= maxSym then Bad
    else
      match ReadTrunc(bits, avail, pos, left + 2)
      case NoValue => Bad
      case Got(v, pos') =>
        if v != 1 then
          if Slots(v) > left then Stuck
          else if left == Slots(v) then Done(acc + [v] + Ones(maxSym - |acc| - 1), pos')
          else ReadSymbols(bits, avail, pos', left - Slots(v), acc + [v], maxSym)
        else
          var z := ReadZeros(bits, avail, pos', acc + [v], maxSym);
          if z.NoZeros? then Bad
          else
            ReadZerosGrows(bits, avail, pos', acc + [v], maxSym);
            ReadSymbols(bits, avail, z.end, left, z.acc, maxSym)
  }

  /** The accuracy log in the first byte. */
  function LogOf(first: Byte): (log: nat)
    ensures 5 <= log <= 20
  {
    first % 16 + 5
  }

  function Distribution(input: seq<Byte>, maxSym: nat): Distr
  {
    if input == [] then Bad
    else ReadSymbols(BitsOf(input), 8 * |input|, 4, Pow2(LogOf(input[0])), [], maxSym)
  }

  // ---- what a distribution that has been read satisfies --------------------

  ghost predicate Below(w: seq<nat>, bound: nat)
  {
    forall i :: 0 <= i < |w| ==> w[i] <= bound
  }

  lemma {:induction false} LastValueTotal(acc: seq<nat>, v: nat, n: nat, total: nat)
    requires TotalSlots(acc) + Slots(v) == total && Below(acc, total + 1) && v <= total + 1
    ensures TotalSlots(acc + [v] + Ones(n)) == total && Below(acc + [v] + Ones(n), total + 1)
  {
    TotalSlotsAppend(acc, v);
    TotalSlotsOnes(acc + [v], n);
  }

  lemma {:induction false} ReadSymbolsTotal(bits: BitSource, avail: nat, pos: nat, left: Pos, acc: seq<nat>,
                                            maxSym: nat, total: nat, res: Distr)
    requires TotalSlots(acc) + left == total && Below(acc, total + 1)
    requires Bounded(bits) && res == ReadSymbols(bits, avail, pos, left, acc, maxSym)
    ensures match res
      case Bad => true
      case Stuck => false
      case Done(w, end) => |w| == maxSym && TotalSlots(w) == total && Below(w, total + 1) && pos <= end <= avail
    decreases maxSym - |acc|
  {
    if |acc| < maxSym && ReadTrunc(bits, avail, pos, left + 2).Got? {
      var Got(v, pos') := ReadTrunc(bits, avail, pos, left + 2);
      ReadTruncBounds(bits, avail, pos, left + 2);
      TotalSlotsAppend(acc, v);
      if v != 1 {
        ValueStep(bits, avail, pos, left, acc, maxSym, v, pos');
        if left == Slots(v) {
          LastValueTotal(acc, v, maxSym - |acc| - 1, total);
        } else {
          ReadSymbolsTotal(bits, avail, pos', left - Slots(v), acc + [v], maxSym, total, res);
        }
      } else if ReadZeros(bits, avail, pos', acc + [v], maxSym).Zeros? {
        var z := ReadZeros(bits, avail, pos', acc + [v], maxSym);
        ZerosKeep(bits, avail, pos', acc, maxSym, total + 1);
        RunStep(bits, avail, pos, left, acc, maxSym, pos', z.acc, z.end);
        ReadSymbolsTotal(bits, avail, z.end, left, z.acc, maxSym, total, res);
      }
    }
  }

  lemma {:induction false} ZerosKeep(bits: BitSource, avail: nat, pos: nat, acc: seq<nat>, maxSym: nat, bound: nat)
    requires ReadZeros(bits, avail, pos, acc + [1], maxSym).Zeros? && Below(acc, bound) && bound > 0
    ensures var z := ReadZeros(bits, avail, pos, acc + [1], maxSym);
            TotalSlots(z.acc) == TotalSlots(acc) && Below(z.acc, bound) && |z.acc| > |acc| && pos <= z.end <= avail
  {
    var z := ReadZeros(bits, avail, pos, acc + [1], maxSym);
    TotalSlotsAppend(acc, 1);
    ReadZerosGrows(bits, avail, pos, acc + [1], maxSym);
    ReadZerosWithin(bits, avail, pos, acc + [1], maxSym);
    assert forall i :: 0 <= i <= |acc| ==> z.acc[i] == (acc + [1])[i];
  }

  lemma {:induction false} ReadZerosWithin(bits: BitSource, avail: nat, pos: nat, acc: seq<nat>, maxSym: nat)
    requires ReadZeros(bits, avail, pos, acc, maxSym).Zeros?
    ensures pos <= ReadZeros(bits, avail, pos, acc, maxSym).end <= avail
    decreases avail - pos
  {
    if bits(pos, 2) == 3 {
      ReadZerosWithin(bits, avail, pos + 2, acc + Ones(3), maxSym);
    }
  }

  /**
   The remaining count never underflows, and a distribution that has been read gives out
   exactly the states of the table.
   */
  lemma {:induction false} ReadDistributionBuilds(input: seq<Byte>, maxSym: nat)
    ensures Distribution(input, maxSym) != Stuck
    ensures Distribution(input, maxSym).Done? && maxSym <= 64 ==>
      var w, log := Distribution(input, maxSym).weights, LogOf(input[0]);
      |w| == maxSym && GoodDistribution(w, log)
  {
    if input != [] {
      var log := LogOf(input[0]);
      ReadSymbolsTotal(BitsOf(input), 8 * |input|, 4, Pow2(log), [], maxSym, Pow2(log), Distribution(input, maxSym));
    }
  }

  /** Two bytes that give all 32 states to the first symbol. */
  lemma {:induction false} WholeTableInput(maxSym: Pos)
    ensures Distribution([0xf0, 0x03], maxSym) == Done([33] + Ones(maxSym - 1), 10)
    ensures OneTakesAll([33] + Ones(maxSym - 1), LogOf(0xf0))
  {
    var input: seq<Byte> := [0xf0, 0x03];
    assert Value(input) == 0x3f0 by {
      assert input[1..] == [0x03];
      ValueOne(0x03);
    }
    assert BitsOf(input)(4, 5) == 31 by { FieldIs(0x3f0, 4, 5, 16, 32, 31); }
    assert BitsOf(input)(9, 1) == 1 by { FieldIs(0x3f0, 9, 1, 512, 2, 1); }
    WholeTableFrom(BitsOf(input), 16, 32, maxSym);
    assert Pow2(5) == 32 && LogOf(0xf0) == 5 && ([33] + Ones(maxSym - 1))[0] == 33;
  }

  lemma {:induction false} WholeTableFrom(bits: BitSource, avail: nat, left: Pos, maxSym: Pos)
    requires avail == 16 && left == 32 && bits(4, 5) == 31 && bits(9, 1) == 1
    ensures ReadSymbols(bits, avail, 4, left, [], maxSym) == Done([33] + Ones(maxSym - 1), 10)
  {
    assert Pow2(5) == 32 && Log2(34) == 5 && Cutoff(34) == 30;
    ReadLong(bits, avail, 4, left + 2, 31, 1);
    assert [] + [33] == [33];
    ValueStep(bits, avail, 4, left, [], maxSym, 33, 10);
  }

  lemma {:induction false} FieldIs(x: nat, pos: nat, n: nat, p: Pos, q: Pos, v: nat)
    requires p == Pow2(pos) && q == Pow2(n) && x / p % q == v
    ensures Field(x, pos, n) == v
  {
    ShrIsDiv(x, pos);
    ShrIsDiv(Shr(x, pos), n);
  }

  // ---- runs of zeros that leave the array ----------------------------------

  /** In lines 61-73, one of the runs goes beyond an array of room elements. */
  ghost predicate ZerosSpill(bits: BitSource, avail: nat, pos: nat, acc: seq<nat>, maxSym: nat, room: nat)
    decreases avail - pos
  {
    pos + 2 <= avail &&
    var rep := bits(pos, 2);
    |acc| - 1 + rep <= maxSym && (|acc| + rep > room || (rep == 3 && ZerosSpill(bits, avail, pos + 2, acc + Ones(rep), maxSym, room)))
  }

  /** The same of a distribution: some symbol of probability zero is followed by such a run. */
  ghost predicate Spills(bits: BitSource, avail: nat, pos: nat, left: Pos, acc: seq<nat>, maxSym: nat, room: nat)
    decreases maxSym - |acc|
  {
    |acc| < maxSym &&
    match ReadTrunc(bits, avail, pos, left + 2)
    case NoValue => false
    case Got(v, pos') =>
      if v != 1 then Slots(v) < left && Spills(bits, avail, pos', left - Slots(v), acc + [v], maxSym, room)
      else
        var z := ReadZeros(bits, avail, pos', acc + [v], maxSym);
        || ZerosSpill(bits, avail, pos', acc + [v], maxSym, room)
        || (z.Zeros? && (ReadZerosGrows(bits, avail, pos', acc + [v], maxSym); Spills(bits, avail, z.end, left, z.acc, maxSym, room)))
  }

  ghost predicate DistributionSpills(input: seq<Byte>, maxSym: nat, room: nat)
  {
    input != [] && Spills(BitsOf(input), 8 * |input|, 4, Pow2(LogOf(input[0])), [], maxSym, room)
  }

  lemma {:induction false} ZerosSpillAtEnd(bits: BitSource, avail: nat, pos: nat, acc: seq<nat>, maxSym: nat, room: nat)
    requires ZerosSpill(bits, avail, pos, acc, maxSym, room) && maxSym <= room
    ensures room == maxSym
    ensures ReadZeros(bits, avail, pos, acc, maxSym).Zeros? ==> |ReadZeros(bits, avail, pos, acc, maxSym).acc| > maxSym
    decreases avail - pos
  {
    var rep := bits(pos, 2);
    if rep == 3 {
      if |acc| + rep > room {
        if ReadZeros(bits, avail, pos, acc, maxSym).Zeros? {
          ReadZerosGrows(bits, avail, pos + 2, acc + Ones(rep), maxSym);
        }
      } else {
        ZerosSpillAtEnd(bits, avail, pos + 2, acc + Ones(rep), maxSym, room);
      }
    }
  }

  /** Only the element after the last is ever written, and only by input that is rejected afterwards. */
  lemma {:induction false} SpillIsRejected(bits: BitSource, avail: nat, pos: nat, left: Pos, acc: seq<nat>, maxSym: nat,
                                           room: nat)
    requires Spills(bits, avail, pos, left, acc, maxSym, room) && maxSym <= room
    ensures room == maxSym && ReadSymbols(bits, avail, pos, left, acc, maxSym) == Bad
    decreases maxSym - |acc|
  {
    var t := ReadTrunc(bits, avail, pos, left + 2);
    if t.v != 1 {
      SpillIsRejected(bits, avail, t.end, left - Slots(t.v), acc + [t.v], maxSym, room);
    } else {
      var z := ReadZeros(bits, avail, t.end, acc + [t.v], maxSym);
      if ZerosSpill(bits, avail, t.end, acc + [t.v], maxSym, room) {
        ZerosSpillAtEnd(bits, avail, t.end, acc + [t.v], maxSym, room);
      } else {
        ReadZerosGrows(bits, avail, t.end, acc + [t.v], maxSym);
        SpillIsRejected(bits, avail, z.end, left, z.acc, maxSym, room);
      }
    }
  }

  /** One spare element is enough, and what would need it is rejected. */
  lemma {:induction false} SpareSuffices(input: seq<Byte>, maxSym: nat, room: nat)
    requires maxSym <= room
    ensures DistributionSpills(input, maxSym, room) ==> room == maxSym && Distribution(input, maxSym) == Bad
  {
    if DistributionSpills(input, maxSym, room) {
      SpillIsRejected(BitsOf(input), 8 * |input|, 4, Pow2(LogOf(input[0])), [], maxSym, room);
    }
  }

  lemma {:induction false} ZerosGoOn(bits: BitSource, avail: nat, pos: nat, acc: seq<nat>, maxSym: nat, room: nat)
    requires pos + 2 <= avail && bits(pos, 2) == 3 && |acc| + 3 <= room && |acc| + 2 <= maxSym
    requires ZerosSpill(bits, avail, pos + 2, acc + Ones(3), maxSym, room)
    ensures ZerosSpill(bits, avail, pos, acc, maxSym, room)
  {
  }

  lemma {:induction false} FourThrees(bits: BitSource, avail: nat, pos: nat, acc: seq<nat>, maxSym: nat, room: nat)
    requires pos + 8 <= avail && |acc| == 1 && room == maxSym == 12
    requires bits(pos, 2) == 3 && bits(pos + 2, 2) == 3 && bits(pos + 4, 2) == 3 && bits(pos + 6, 2) == 3
    ensures ZerosSpill(bits, avail, pos, acc, maxSym, room)
  {
    ZerosGoOver(bits, avail, pos + 6, acc + Ones(3) + Ones(3) + Ones(3), maxSym, room);
    ZerosGoOn(bits, avail, pos + 4, acc + Ones(3) + Ones(3), maxSym, room);
    ZerosGoOn(bits, avail, pos + 2, acc + Ones(3), maxSym, room);
    ZerosGoOn(bits, avail, pos, acc, maxSym, room);
  }

  lemma {:induction false} ZerosGoOver(bits: BitSource, avail: nat, pos: nat, acc: seq<nat>, maxSym: nat, room: nat)
    requires pos + 2 <= avail && bits(pos, 2) == 3 && |acc| + 2 <= maxSym && |acc| + 3 > room
    ensures ZerosSpill(bits, avail, pos, acc, maxSym, room)
  {
  }

  lemma {:induction false} FirstRunSpills(bits: BitSource, avail: nat, pos: nat, left: Pos, maxSym: nat, room: nat,
                                          end: nat)
    requires 0 < maxSym && ReadTrunc(bits, avail, pos, left + 2) == Got(1, end)
    requires ZerosSpill(bits, avail, end, [] + [1], maxSym, room)
    ensures Spills(bits, avail, pos, left, [], maxSym, room)
  {
  }

  /**
   Three bytes that go beyond the twelve weights of the Huffman table description
   (compression/zstd_literals.c lines 14-17).
   */
  lemma {:induction false} TwelveWeightsSpill()
    ensures DistributionSpills([0x10, 0xfe, 0x01], 12, 12)
  {
    var input: seq<Byte> := [0x10, 0xfe, 0x01];
    var bits := BitsOf(input);
    assert Value(input) == 0x1fe10 by {
      assert input[1..] == [0xfe, 0x01] && input[1..][1..] == [0x01];
      ValueOne(0x01);
    }
    assert bits(4, 5) == 1 by { FieldIs(0x1fe10, 4, 5, 16, 32, 1); }
    assert bits(9, 2) == 3 by { FieldIs(0x1fe10, 9, 2, 512, 4, 3); }
    assert bits(11, 2) == 3 by { FieldIs(0x1fe10, 11, 2, 2048, 4, 3); }
    assert bits(13, 2) == 3 by { FieldIs(0x1fe10, 13, 2, 8192, 4, 3); }
    assert bits(15, 2) == 3 by { FieldIs(0x1fe10, 15, 2, 32768, 4, 3); }
    SpillsFrom(bits, 24, 32);
    assert Pow2(5) == 32 && LogOf(0x10) == 5;
  }

  lemma {:induction false} SpillsFrom(bits: BitSource, avail: nat, left: Pos)
    requires avail == 24 && left == 32 && bits(4, 5) == 1 && bits(9, 2) == 3 && bits(11, 2) == 3 && bits(13, 2) == 3
    requires bits(15, 2) == 3
    ensures Spills(bits, avail, 4, left, [], 12, 12)
  {
    assert Log2(34) == 5 && Cutoff(34) == 30;
    ReadShort(bits, avail, 4, left + 2, 1);
    FourThrees(bits, avail, 9, [] + [1], 12, 12);
    FirstRunSpills(bits, avail, 4, left, 12, 12, 9);
  }

  // ---- writing a distribution ----------------------------------------------

  /** A run of zero probabilities: as many 3s as fit, then the rest. */
  function ZeroFields(run: nat, rest: Fields): Fields
    decreases run
  {
    if run < 3 then Then(run, 2, rest) else Then(3, 2, ZeroFields(run - 3, rest))
  }

  lemma {:induction false} ZerosRoundTrip(bits: BitSource, avail: nat, pos: nat, acc: seq<nat>, maxSym: nat, run: nat,
                                          rest: Fields)
    returns (end: nat)
    requires StartsWith(bits, pos, ZeroFields(run, rest)) && pos + Width(ZeroFields(run, rest)) <= avail
    requires |acc| - 1 + run <= maxSym
    ensures pos + Width(ZeroFields(run, rest)) == end + Width(rest) && StartsWith(bits, end, rest)
    ensures ReadZeros(bits, avail, pos, acc, maxSym) == Zeros(acc + Ones(run), end)
    decreases run
  {
    if run >= 3 {
      end := ZerosRoundTrip(bits, avail, pos + 2, acc + Ones(3), maxSym, run - 3, rest);
      assert acc + Ones(3) + Ones(run - 3) == acc + Ones(run);
    } else {
      end := pos + 2;
    }
  }

  /** How many symbols from i on have probability zero. */
  function RunOfOnes(w: seq<nat>, i: nat): (n: nat)
    requires i <= |w|
    ensures i + n <= |w| && forall j :: i <= j < i + n ==> w[j] == 1
    ensures i + n < |w| ==> w[i + n] != 1
    decreases |w| - i
  {
    if i < |w| && w[i] == 1 then 1 + RunOfOnes(w, i + 1) else 0
  }

  /** The states of the symbols from i on. */
  function RestSlots(w: seq<nat>, i: nat): nat
    requires i <= |w|
    decreases |w| - i
  {
    if i == |w| then 0 else Slots(w[i]) + RestSlots(w, i + 1)
  }

  lemma {:induction false} RestSlotsTotal(w: seq<nat>, i: nat)
    requires i <= |w|
    ensures TotalSlots(w[..i]) + RestSlots(w, i) == TotalSlots(w)
    decreases |w| - i
  {
    if i == |w| {
      assert w[..i] == w;
    } else {
      RestSlotsTotal(w, i + 1);
      assert w[..i + 1] == w[..i] + [w[i]];
      TotalSlotsAppend(w[..i], w[i]);
    }
  }

  lemma {:induction false} RestSlotsOnes(w: seq<nat>, i: nat, n: nat)
    requires i + n <= |w| && forall j :: i <= j < i + n ==> w[j] == 1
    ensures RestSlots(w, i) == RestSlots(w, i + n)
    decreases n
  {
    if n > 0 {
      RestSlotsOnes(w, i + 1, n - 1);
    }
  }

  lemma {:induction false} NoSlotsLeft(w: seq<nat>, i: nat)
    requires i <= |w| && RestSlots(w, i) == 0
    ensures w[i..] == Ones(|w| - i)
    decreases |w| - i
  {
    if i < |w| {
      NoSlotsLeft(w, i + 1);
      assert w[i..] == [w[i]] + w[i + 1..];
    }
  }

  /** How a distribution is written: values, and zero probabilities with the number of them that follow. */
  datatype Items = Last(v: nat) | Val(v: nat, more: Items) | Run(n: nat, more: Items)

  /** acc, and what the items stand for. */
  function Append(acc: seq<nat>, items: Items): (r: seq<nat>)
    ensures |acc| <= |r|
    decreases items
  {
    match items
    case Last(v) => acc + [v]
    case Val(v, more) => Append(acc + [v], more)
    case Run(n, more) => Append(acc + [1] + Ones(n), more)
  }

  /** The items give out exactly left states. */
  ghost predicate Fits(items: Items, left: Pos)
    decreases items
  {
    match items
    case Last(v) => v != 1 && Slots(v) == left
    case Val(v, more) => v != 1 && Slots(v) < left && Fits(more, left - Slots(v))
    case Run(_, more) => Fits(more, left)
  }

  function ItemFields(items: Items, left: Pos, rest: nat): Fields
    requires Fits(items, left)
    decreases items
  {
    match items
    case Last(v) => TruncFields(left + 2, v, Rest(rest))
    case Val(v, more) => TruncFields(left + 2, v, ItemFields(more, left - Slots(v), rest))
    case Run(n, more) => TruncFields(left + 2, 1, ZeroFields(n, ItemFields(more, left, rest)))
  }

  /** One step of ReadSymbols, for a value that is not zero probability. */
  lemma {:induction false} ValueStep(bits: BitSource, avail: nat, pos: nat, left: Pos, acc: seq<nat>, maxSym: nat,
                                     v: nat, pos': nat)
    requires |acc| < maxSym && ReadTrunc(bits, avail, pos, left + 2) == Got(v, pos') && v != 1 && Slots(v) <= left
    ensures ReadSymbols(bits, avail, pos, left, acc, maxSym)
         == if left == Slots(v) then Done(acc + [v] + Ones(maxSym - |acc| - 1), pos')
            else ReadSymbols(bits, avail, pos', left - Slots(v), acc + [v], maxSym)
  {
  }

  /** One step of ReadSymbols, for a run of zero probabilities. */
  lemma {:induction false} RunStep(bits: BitSource, avail: nat, pos: nat, left: Pos, acc: seq<nat>, maxSym: nat,
                                   pos': nat, acc': seq<nat>, pos'': nat)
    requires |acc| < maxSym && ReadTrunc(bits, avail, pos, left + 2) == Got(1, pos')
    requires ReadZeros(bits, avail, pos', acc + [1], maxSym) == Zeros(acc', pos'')
    ensures ReadSymbols(bits, avail, pos, left, acc, maxSym) == ReadSymbols(bits, avail, pos'', left, acc', maxSym)
  {
  }

  lemma {:induction false} RunCase(bits: BitSource, avail: nat, pos: nat, acc: seq<nat>, maxSym: nat, left: Pos,
                                   run: nat, rest: Fields)
    returns (end: nat)
    requires |acc| + 1 + run <= maxSym
    requires StartsWith(bits, pos, TruncFields(left + 2, 1, ZeroFields(run, rest)))
    requires pos + Width(TruncFields(left + 2, 1, ZeroFields(run, rest))) <= avail
    ensures pos + Width(TruncFields(left + 2, 1, ZeroFields(run, rest))) == end + Width(rest)
    ensures StartsWith(bits, end, rest)
    ensures ReadSymbols(bits, avail, pos, left, acc, maxSym) == ReadSymbols(bits, avail, end, left, acc + [1] + Ones(run), maxSym)
  {
    var mid := TruncRoundTrip(bits, avail, pos, left + 2, 1, ZeroFields(run, rest));
    end := ZerosRoundTrip(bits, avail, mid, acc + [1], maxSym, run, rest);
    RunStep(bits, avail, pos, left, acc, maxSym, mid, acc + [1] + Ones(run), end);
  }

  lemma {:induction false} ValueCase(bits: BitSource, avail: nat, pos: nat, acc: seq<nat>, maxSym: nat, left: Pos,
                                     v: nat, rest: Fields)
    returns (end: nat)
    requires |acc| < maxSym && v != 1 && Slots(v) <= left
    requires StartsWith(bits, pos, TruncFields(left + 2, v, rest))
    requires pos + Width(TruncFields(left + 2, v, rest)) <= avail
    ensures pos + Width(TruncFields(left + 2, v, rest)) == end + Width(rest) && StartsWith(bits, end, rest)
    ensures ReadSymbols(bits, avail, pos, left, acc, maxSym)
         == if left == Slots(v) then Done(acc + [v] + Ones(maxSym - |acc| - 1), end)
            else ReadSymbols(bits, avail, end, left - Slots(v), acc + [v], maxSym)
  {
    end := TruncRoundTrip(bits, avail, pos, left + 2, v, rest);
    ValueStep(bits, avail, pos, left, acc, maxSym, v, end);
  }

  /** Reading the items that are left gives back what was written. */
  lemma {:induction false} ItemsRoundTrip(bits: BitSource, avail: nat, pos: nat, items: Items, left: Pos, acc: seq<nat>,
                                          maxSym: nat, rest: nat)
    returns (end: nat)
    requires Fits(items, left) && |Append(acc, items)| <= maxSym
    requires StartsWith(bits, pos, ItemFields(items, left, rest)) && pos + Width(ItemFields(items, left, rest)) <= avail
    ensures end == pos + Width(ItemFields(items, left, rest))
    ensures ReadSymbols(bits, avail, pos, left, acc, maxSym) == Done(Append(acc, items) + Ones(maxSym - |Append(acc, items)|), end)
    decreases items
  {
    match items
    case Last(v) =>
      end := ValueCase(bits, avail, pos, acc, maxSym, left, v, Rest(rest));
    case Val(v, more) =>
      end := ValueCase(bits, avail, pos, acc, maxSym, left, v, ItemFields(more, left - Slots(v), rest));
      end := ItemsRoundTrip(bits, avail, end, more, left - Slots(v), acc + [v], maxSym, rest);
    case Run(run, more) =>
      end := RunCase(bits, avail, pos, acc, maxSym, left, run, ItemFields(more, left, rest));
      end := ItemsRoundTrip(bits, avail, end, more, left, acc + [1] + Ones(run), maxSym, rest);
  }

  /** The items of the symbols from i on, until the states have been given out. */
  function ItemsOf(w: seq<nat>, i: nat): Items
    requires i <= |w| && RestSlots(w, i) > 0
    decreases |w| - i
  {
    if w[i] == 1 then
      var run := RunOfOnes(w, i + 1);
      RestSlotsOnes(w, i + 1, run);
      Run(run, ItemsOf(w, i + 1 + run))
    else if RestSlots(w, i + 1) == 0 then Last(w[i])
    else Val(w[i], ItemsOf(w, i + 1))
  }

  lemma {:induction false} ItemsOfFit(w: seq<nat>, i: nat)
    requires i <= |w| && RestSlots(w, i) > 0
    ensures Fits(ItemsOf(w, i), RestSlots(w, i))
    decreases |w| - i
  {
    if w[i] == 1 {
      var run := RunOfOnes(w, i + 1);
      RestSlotsOnes(w, i + 1, run);
      ItemsOfFit(w, i + 1 + run);
    } else if RestSlots(w, i + 1) > 0 {
      ItemsOfFit(w, i + 1);
    }
  }

  lemma {:induction false} ItemsOfAppend(w: seq<nat>, i: nat)
    requires i <= |w| && RestSlots(w, i) > 0
    ensures |Append(w[..i], ItemsOf(w, i))| <= |w|
    ensures w == Append(w[..i], ItemsOf(w, i)) + Ones(|w| - |Append(w[..i], ItemsOf(w, i))|)
    decreases |w| - i
  {
    if w[i] == 1 {
      var run := RunOfOnes(w, i + 1);
      RestSlotsOnes(w, i + 1, run);
      assert w[..i] + [1] + Ones(run) == w[..i + 1 + run];
      ItemsOfAppend(w, i + 1 + run);
    } else {
      assert w[..i] + [w[i]] == w[..i + 1];
      if RestSlots(w, i + 1) > 0 {
        ItemsOfAppend(w, i + 1);
      } else {
        NoSlotsLeft(w, i + 1);
        assert w == w[..i + 1] + w[i + 1..];
      }
    }
  }

  /** The accuracy log, then the symbols, then whatever follows. */
  function DistributionFields(w: seq<nat>, log: nat, rest: nat): Fields
    requires 5 <= log <= 20 && TotalSlots(w) == Pow2(log)
  {
    RestSlotsTotal(w, 0);
    ItemsOfFit(w, 0);
    Then(log - 5, 4, ItemFields(ItemsOf(w, 0), Pow2(log), rest))
  }

  lemma {:induction false} SymbolsRoundTrip(bits: BitSource, avail: nat, pos: nat, w: seq<nat>, total: Pos, rest: nat)
    requires TotalSlots(w) == total && RestSlots(w, 0) == total && Fits(ItemsOf(w, 0), total)
    requires StartsWith(bits, pos, ItemFields(ItemsOf(w, 0), total, rest))
    requires pos + Width(ItemFields(ItemsOf(w, 0), total, rest)) <= avail
    ensures ReadSymbols(bits, avail, pos, total, [], |w|) == Done(w, pos + Width(ItemFields(ItemsOf(w, 0), total, rest)))
  {
    ItemsOfAppend(w, 0);
    var none := w[..0];
    var end := ItemsRoundTrip(bits, avail, pos, ItemsOf(w, 0), total, none, |w|, rest);
    assert none == [];
  }

  lemma {:induction false} FieldsRoundTrip(bits: BitSource, avail: nat, w: seq<nat>, log: nat, rest: nat)
    requires 5 <= log <= 20 && TotalSlots(w) == Pow2(log)
    requires StartsWith(bits, 0, DistributionFields(w, log, rest)) && Width(DistributionFields(w, log, rest)) <= avail
    ensures bits(0, 4) == log - 5 && 4 <= avail
    ensures ReadSymbols(bits, avail, 4, Pow2(log), [], |w|) == Done(w, Width(DistributionFields(w, log, rest)))
  {
    RestSlotsTotal(w, 0);
    ItemsOfFit(w, 0);
    SymbolsRoundTrip(bits, avail, 4, w, Pow2(log), rest);
  }

  /** Reading a distribution gives back the one that was written, whatever follows it in the input. */
  lemma {:induction false} DistributionRoundTrip(input: seq<Byte>, w: seq<nat>, log: nat, rest: nat)
    requires 5 <= log <= 20 && TotalSlots(w) == Pow2(log)
    requires StartsWith(BitsOf(input), 0, DistributionFields(w, log, rest))
    requires Width(DistributionFields(w, log, rest)) <= 8 * |input|
    ensures input != [] && LogOf(input[0]) == log
    ensures Distribution(input, |w|) == Done(w, Width(DistributionFields(w, log, rest)))
  {
    FieldsRoundTrip(BitsOf(input), 8 * |input|, w, log, rest);
    FirstNibble(input);
  }

  lemma {:induction false} FirstNibble(input: seq<Byte>)
    requires input != []
    ensures BitsOf(input)(0, 4) == input[0] % 16
  {
    ShrIsDiv(Value(input), 4);
    assert Pow2(4) == 16;
    assert Value(input) == input[0] + 256 * Value(input[1..]);
  }

  // ---- fse_decode_distribution ---------------------------------------------

  /** bits holds what has been fetched and not been used. */
  ghost predicate Reservoir(input: seq<Byte>, c: nat, bits: nat, numBits: nat, pos: nat)
  {
    c <= |input| && pos + numBits == 8 * c && bits == Held(input, c, pos)
  }

  /** lines 31-35, 40-44 and 62-67: have at least need bits; bits is a u32. */
  method Fetch(input: seq<Byte>, c0: nat, bits0: nat, numBits0: nat, need: nat, ghost pos: nat)
    returns (ok: bool, c: nat, bits: nat, numBits: nat)
    requires Reservoir(input, c0, bits0, numBits0, pos) && numBits0 < 8 && need <= 24
    ensures Reservoir(input, c, bits, numBits, pos) && bits < Pow2(32)
    ensures ok <==> pos + need <= 8 * |input|
    ensures ok ==> need <= numBits < need + 8
  {
    c, bits, numBits := c0, bits0, numBits0;
    HeldBound(input, c, pos);
    Pow2Monotone(numBits, 32);
    while numBits < need
      invariant Reservoir(input, c, bits, numBits, pos) && numBits < need + 8 && bits < Pow2(32)
    {
      if c == |input| {
        return false, c, bits, numBits;
      }
      HeldFetch(input, c, pos);
      bits := bits + Shl(input[c], numBits);
      c, numBits := c + 1, numBits + 8;
      HeldBound(input, c, pos);
      Pow2Monotone(numBits, 32);
    }
    ok := true;
  }

  /** val = bits & mask; bits >>= n; num_bits -= n */
  method TakeBits(input: seq<Byte>, c: nat, bits0: nat, numBits0: nat, n: nat, ghost pos: nat)
    returns (v: nat, bits: nat, numBits: nat)
    requires Reservoir(input, c, bits0, numBits0, pos) && n <= numBits0
    ensures v == Field(Value(input), pos, n) && numBits == numBits0 - n
    ensures Reservoir(input, c, bits, numBits, pos + n)
  {
    HeldPeek(input, c, pos, n);
    HeldUse(input, c, pos, n);
    v, bits, numBits := Low(bits0, n), Shr(bits0, n), numBits0 - n;
  }

  /** Fetch and TakeBits in one: the next n bits, if there are as many. */
  method NextBits(input: seq<Byte>, c0: nat, bits0: nat, numBits0: nat, n: nat, ghost pos: nat)
    returns (ok: bool, v: nat, c: nat, bits: nat, numBits: nat)
    requires Reservoir(input, c0, bits0, numBits0, pos) && numBits0 < 8 && n <= 24
    ensures ok <==> pos + n <= 8 * |input|
    ensures ok ==> v == Field(Value(input), pos, n) && Reservoir(input, c, bits, numBits, pos + n) && numBits < 8
  {
    v := 0;
    ok, c, bits, numBits := Fetch(input, c0, bits0, numBits0, n, pos);
    if ok {
      v, bits, numBits := TakeBits(input, c, bits, numBits, n, pos);
    }
  }

  lemma {:induction false} ReadMissing(bits: BitSource, avail: nat, pos: nat, range: Pos)
    requires pos + Log2(range) > avail || (bits(pos, Log2(range)) >= Cutoff(range) && pos + Log2(range) + 1 > avail)
    ensures ReadTrunc(bits, avail, pos, range).NoValue?
  {
  }

  lemma {:induction false} LengthBound(range: Pos)
    requires range < Pow2(22)
    ensures Log2(range) < 22
    ensures Pow2(Log2(range)) >= Cutoff(range)
  {
    Log2Bounds(range);
    if Log2(range) >= 22 { Pow2Monotone(22, Log2(range)); }
  }

  /** lines 39-48: the value, its low bits being lo. */
  method DecodeHighBit(input: seq<Byte>, c0: nat, bits0: nat, numBits0: nat, range: Pos, length: nat, lo: nat,
                       ghost src: BitSource, ghost pos: nat, ghost mid: nat)
    returns (ok: bool, v: nat, c: nat, bits: nat, numBits: nat, ghost end: nat)
    requires src == BitsOf(input) && length == Log2(range) && mid == pos + length <= 8 * |input|
    requires Reservoir(input, c0, bits0, numBits0, mid) && numBits0 < 8
    requires src(pos, length) == lo && Pow2(length) >= Cutoff(range)
    ensures ok <==> ReadTrunc(src, 8 * |input|, pos, range).Got?
    ensures ok ==> Reservoir(input, c, bits, numBits, end) && numBits < 8
    ensures ok ==> ReadTrunc(src, 8 * |input|, pos, range) == Got(v, end)
  {
    if lo < Cutoff(range) {
      ReadShort(src, 8 * |input|, pos, range, lo);
      return true, lo, c0, bits0, numBits0, mid;
    }
    var hi;
    ok, hi, c, bits, numBits := NextBits(input, c0, bits0, numBits0, 1, mid);
    if !ok {
      ReadMissing(src, 8 * |input|, pos, range);
      return false, 0, c, bits, numBits, mid;
    }
    assert src(mid, 1) == hi;
    ReadLong(src, 8 * |input|, pos, range, lo, hi);
    v, end := if hi == 1 then lo + Pow2(length) - Cutoff(range) else lo, mid + 1;
  }

  /** lines 27-48: one value. */
  method DecodeValue(input: seq<Byte>, c0: nat, bits0: nat, numBits0: nat, range: Pos, ghost src: BitSource,
                     ghost pos: nat)
    returns (ok: bool, v: nat, c: nat, bits: nat, numBits: nat, ghost end: nat)
    requires Reservoir(input, c0, bits0, numBits0, pos) && numBits0 < 8 && range < Pow2(22) && src == BitsOf(input)
    ensures ok <==> ReadTrunc(src, 8 * |input|, pos, range).Got?
    ensures ok ==> Reservoir(input, c, bits, numBits, end) && numBits < 8
    ensures ok ==> ReadTrunc(src, 8 * |input|, pos, range) == Got(v, end)
  {
    var length := Log2(range);
    LengthBound(range);
    var lo;
    ok, lo, c, bits, numBits := NextBits(input, c0, bits0, numBits0, length, pos);
    if !ok {
      ReadMissing(src, 8 * |input|, pos, range);
      return false, 0, c, bits, numBits, pos;
    }
    assert src(pos, length) == lo;
    ok, v, c, bits, numBits, end := DecodeHighBit(input, c, bits, numBits, range, length, lo, src, pos, pos + length);
  }

  /** One round of lines 61-73. */
  lemma {:induction false} ZerosStep(bits: BitSource, avail: nat, pos: nat, acc: seq<nat>, maxSym: nat, rep: nat)
    requires pos + 2 <= avail && bits(pos, 2) == rep && |acc| - 1 + rep <= maxSym
    ensures ReadZeros(bits, avail, pos, acc, maxSym) ==
            if rep == 3 then ReadZeros(bits, avail, pos + 2, acc + Ones(rep), maxSym) else Zeros(acc + Ones(rep), pos + 2)
  {
  }

  lemma {:induction false} ZerosEnd(bits: BitSource, avail: nat, pos: nat, acc: seq<nat>, maxSym: nat)
    requires pos + 2 > avail || |acc| - 1 + bits(pos, 2) > maxSym
    ensures ReadZeros(bits, avail, pos, acc, maxSym) == NoZeros
  {
  }

  /** for_range(i, from, to) {weights[i] = 1;} */
  method FillOnes(weights: array<nat>, from: nat, to: nat)
    requires from <= to <= weights.Length
    modifies weights
    ensures weights[..to] == old(weights[..from]) + Ones(to - from)
  {
    for i := from to to
      invariant weights[..i] == old(weights[..from]) + Ones(i - from)
    {
      weights[i] := 1;
      assert weights[..i + 1] == weights[..i] + [1];
      assert Ones(i + 1 - from) == Ones(i - from) + [1];
    }
  }

  /** Outside stands for a write beyond the array. */
  datatype Progress = Fine | Rejected | Outside

  lemma {:induction false} SpillStep(bits: BitSource, avail: nat, pos: nat, acc: seq<nat>, maxSym: nat, room: nat,
                                     rep: nat)
    requires pos + 2 <= avail && bits(pos, 2) == rep && |acc| - 1 + rep <= maxSym
    ensures ZerosSpill(bits, avail, pos, acc, maxSym, room) <==>
            |acc| + rep > room || (rep == 3 && ZerosSpill(bits, avail, pos + 2, acc + Ones(rep), maxSym, room))
  {
  }

  lemma {:induction false} SpillEnd(bits: BitSource, avail: nat, pos: nat, acc: seq<nat>, maxSym: nat, room: nat)
    requires pos + 2 > avail || |acc| - 1 + bits(pos, 2) > maxSym
    ensures !ZerosSpill(bits, avail, pos, acc, maxSym, room)
  {
  }

  /** lines 61-73; n symbols have got their count. */
  method DecodeZeros(input: seq<Byte>, c0: nat, bits0: nat, numBits0: nat, weights: array<nat>, n0: nat, maxSym: nat,
                     ghost src: BitSource, ghost pos: nat)
    returns (how: Progress, n: nat, c: nat, bits: nat, numBits: nat, ghost end: nat)
    requires Reservoir(input, c0, bits0, numBits0, pos) && numBits0 < 8 && src == BitsOf(input)
    requires 0 < n0 <= maxSym <= weights.Length
    modifies weights
    ensures how == Outside <==> ZerosSpill(src, 8 * |input|, pos, old(weights[..n0]), maxSym, weights.Length)
    ensures how == Rejected ==> ReadZeros(src, 8 * |input|, pos, old(weights[..n0]), maxSym) == NoZeros
    ensures how == Fine ==> n0 <= n <= maxSym + 1 && n <= weights.Length
    ensures how == Fine ==> ReadZeros(src, 8 * |input|, pos, old(weights[..n0]), maxSym) == Zeros(weights[..n], end)
    ensures how == Fine ==> Reservoir(input, c, bits, numBits, end) && numBits < 8
  {
    how, n, c, bits, numBits, end := Fine, n0, c0, bits0, numBits0, pos;
    ghost var avail, acc, room := 8 * |input|, weights[..n0], weights.Length;
    var rep, ok := 3, true;
    while rep == 3
      invariant how == Fine && n0 <= n <= maxSym + 1 && n <= room && Reservoir(input, c, bits, numBits, end)
      invariant numBits < 8
      invariant ReadZeros(src, avail, pos, acc, maxSym) ==
                if rep == 3 then ReadZeros(src, avail, end, weights[..n], maxSym) else Zeros(weights[..n], end)
      invariant ZerosSpill(src, avail, pos, acc, maxSym, room) <==>
        rep == 3 && ZerosSpill(src, avail, end, weights[..n], maxSym, room)
      decreases avail - end, rep
    {
      ok, rep, c, bits, numBits := NextBits(input, c, bits, numBits, 2, end);
      if !ok || n - 1 + rep > maxSym {
        ZerosEnd(src, avail, end, weights[..n], maxSym);
        SpillEnd(src, avail, end, weights[..n], maxSym, room);
        return Rejected, n, c, bits, numBits, end;
      }
      SpillStep(src, avail, end, weights[..n], maxSym, room, rep);
      if n + rep > weights.Length {
        return Outside, n, c, bits, numBits, end;
      }
      ZerosStep(src, avail, end, weights[..n], maxSym, rep);
      FillOnes(weights, n, n + rep);
      n, end := n + rep, end + 2;
    }
  }

  /**
   What is to come when the symbols of acc have been read: the distribution whole, and whether a
   run of zeros leaves the array.
   */
  ghost predicate Ahead(src: BitSource, avail: nat, pos: nat, left: Pos, acc: seq<nat>, maxSym: nat, room: nat,
                        whole: Distr, spill: bool)
  {
    whole == ReadSymbols(src, avail, pos, left, acc, maxSym) && (spill <==> Spills(src, avail, pos, left, acc, maxSym, room))
  }

  lemma {:induction false} NoValueRound(bits: BitSource, avail: nat, pos: nat, left: Pos, acc: seq<nat>, maxSym: nat,
                                        room: nat, whole: Distr, spill: bool)
    requires Ahead(bits, avail, pos, left, acc, maxSym, room, whole, spill)
    requires |acc| >= maxSym || ReadTrunc(bits, avail, pos, left + 2).NoValue?
    ensures whole == Bad && !spill
  {
  }

  lemma {:induction false} SpentValue(bits: BitSource, avail: nat, pos: nat, left: Pos)
    requires ReadTrunc(bits, avail, pos, left + 2).Got? && bits(pos, Log2(left + 2)) < Pow2(Log2(left + 2))
    ensures Slots(ReadTrunc(bits, avail, pos, left + 2).v) <= left || ReadTrunc(bits, avail, pos, left + 2).v == 1
  {
    ReadTruncBounds(bits, avail, pos, left + 2);
  }

  lemma {:induction false} ValueRound(bits: BitSource, avail: nat, pos: nat, left: Pos, acc: seq<nat>, maxSym: nat,
                                      room: nat, whole: Distr, spill: bool, v: nat, end: nat, acc': seq<nat>)
    requires Bounded(bits) && Ahead(bits, avail, pos, left, acc, maxSym, room, whole, spill)
    requires |acc| < maxSym && ReadTrunc(bits, avail, pos, left + 2) == Got(v, end) && v != 1 && acc' == acc + [v]
    ensures Slots(v) <= left
    ensures left == Slots(v) ==> whole == Done(acc' + Ones(maxSym - |acc'|), end) && !spill
    ensures left > Slots(v) ==> Ahead(bits, avail, end, left - Slots(v), acc', maxSym, room, whole, spill)
  {
    SpentValue(bits, avail, pos, left);
    ValueStep(bits, avail, pos, left, acc, maxSym, v, end);
  }

  lemma {:induction false} RunRound(bits: BitSource, avail: nat, pos: nat, left: Pos, acc: seq<nat>, maxSym: nat,
                                    room: nat, whole: Distr, spill: bool, mid: nat, acc': seq<nat>, z: Zeros)
    requires Ahead(bits, avail, pos, left, acc, maxSym, room, whole, spill) && |acc| < maxSym && acc' == acc + [1]
    requires ReadTrunc(bits, avail, pos, left + 2) == Got(1, mid) && z == ReadZeros(bits, avail, mid, acc', maxSym)
    ensures ZerosSpill(bits, avail, mid, acc', maxSym, room) ==> spill
    ensures !ZerosSpill(bits, avail, mid, acc', maxSym, room) && z.NoZeros? ==> whole == Bad && !spill
    ensures !ZerosSpill(bits, avail, mid, acc', maxSym, room) && z.Zeros? ==>
      Ahead(bits, avail, z.end, left, z.acc, maxSym, room, whole, spill)
  {
    if z.Zeros? {
      ReadZerosGrows(bits, avail, mid, acc', maxSym);
    }
  }

  /** Where reading has got to. */
  datatype Point = Point(pos: nat, left: nat, acc: seq<nat>)

  type Future = Point -> bool

  ghost predicate At(p: Point)
  {
    true
  }

  /** future holds of the points from which all that is to come is whole and spill. */
  ghost predicate Leads(future: Future, src: BitSource, avail: nat, maxSym: nat, room: nat, whole: Distr, spill: bool)
  {
    forall p {:trigger At(p)} :: future(p) <==> p.left > 0 && Ahead(src, avail, p.pos, p.left, p.acc, maxSym, room, whole, spill)
  }

  ghost function FutureOf(src: BitSource, avail: nat, maxSym: nat, room: nat, whole: Distr, spill: bool): (future: Future)
    ensures Leads(future, src, avail, maxSym, room, whole, spill)
  {
    (p: Point) => p.left > 0 && Ahead(src, avail, p.pos, p.left, p.acc, maxSym, room, whole, spill)
  }

  lemma {:induction false} NoValueLeads(future: Future, bits: BitSource, avail: nat, maxSym: nat, room: nat,
                                        whole: Distr, spill: bool, p: Point)
    requires Leads(future, bits, avail, maxSym, room, whole, spill) && future(p)
    requires |p.acc| >= maxSym || ReadTrunc(bits, avail, p.pos, p.left + 2).NoValue?
    ensures whole == Bad && !spill
  {
    assert At(p);
    NoValueRound(bits, avail, p.pos, p.left, p.acc, maxSym, room, whole, spill);
  }

  lemma {:induction false} ValueLeads(future: Future, bits: BitSource, avail: nat, maxSym: nat, room: nat, whole: Distr,
                                      spill: bool, p: Point, v: nat, end: nat, acc': seq<nat>)
    requires Leads(future, bits, avail, maxSym, room, whole, spill) && future(p) && Bounded(bits)
    requires |p.acc| < maxSym && ReadTrunc(bits, avail, p.pos, p.left + 2) == Got(v, end) && v != 1
    requires acc' == p.acc + [v]
    ensures Slots(v) <= p.left
    ensures p.left == Slots(v) ==> whole == Done(acc' + Ones(maxSym - |acc'|), end) && !spill
    ensures p.left > Slots(v) ==> future(Point(end, p.left - Slots(v), acc'))
  {
    assert At(p);
    ValueRound(bits, avail, p.pos, p.left, p.acc, maxSym, room, whole, spill, v, end, acc');
    if p.left > Slots(v) {
      assert At(Point(end, p.left - Slots(v), acc'));
    }
  }

  lemma {:induction false} RunLeads(future: Future, bits: BitSource, avail: nat, maxSym: nat, room: nat, whole: Distr,
                                    spill: bool, p: Point, mid: nat, acc': seq<nat>, z: Zeros)
    requires Leads(future, bits, avail, maxSym, room, whole, spill) && future(p) && |p.acc| < maxSym
    requires acc' == p.acc + [1]
    requires ReadTrunc(bits, avail, p.pos, p.left + 2) == Got(1, mid) && z == ReadZeros(bits, avail, mid, acc', maxSym)
    ensures ZerosSpill(bits, avail, mid, acc', maxSym, room) ==> spill
    ensures !ZerosSpill(bits, avail, mid, acc', maxSym, room) && z.NoZeros? ==> whole == Bad && !spill
    ensures !ZerosSpill(bits, avail, mid, acc', maxSym, room) && z.Zeros? ==> future(Point(z.end, p.left, z.acc))
  {
    assert At(p);
    RunRound(bits, avail, p.pos, p.left, p.acc, maxSym, room, whole, spill, mid, acc', z);
    if z.Zeros? {
      assert At(Point(z.end, p.left, z.acc));
    }
  }

  /** lines 50-59: a value that is not zero probability. */
  method PutValue(weights: array<nat>, n: nat, left0: Pos, maxSym: nat, v: nat, ghost src: BitSource, ghost avail: nat,
                  ghost p: Point, ghost end: nat, ghost whole: Distr, ghost spill: bool, ghost future: Future)
    returns (left: nat)
    requires n < maxSym <= weights.Length && v != 1 && Bounded(src) && p.left == left0 && p.acc == weights[..n]
    requires Leads(future, src, avail, maxSym, weights.Length, whole, spill) && future(p)
    requires ReadTrunc(src, avail, p.pos, p.left + 2) == Got(v, end)
    modifies weights
    ensures left <= left0
    ensures left == 0 ==> whole == Done(weights[..n + 1] + Ones(maxSym - n - 1), end) && !spill
    ensures left > 0 ==> future(Point(end, left, weights[..n + 1]))
  {
    weights[n] := v;
    assert weights[..n + 1] == p.acc + [v];
    ValueLeads(future, src, avail, maxSym, weights.Length, whole, spill, p, v, end, weights[..n + 1]);
    assert v == 0 || v - 1 <= left0;
    left := left0 - Slots(v);
  }

  /** lines 50 and 61-73: zero probability and the zeros that follow. */
  method PutZeros(input: seq<Byte>, c0: nat, bits0: nat, numBits0: nat, weights: array<nat>, n0: nat, left: Pos,
                  maxSym: nat, ghost src: BitSource, ghost p: Point, ghost mid: nat, ghost whole: Distr,
                  ghost spill: bool, ghost future: Future)
    returns (how: Progress, n: nat, c: nat, bits: nat, numBits: nat, ghost end: nat)
    requires Reservoir(input, c0, bits0, numBits0, mid) && numBits0 < 8 && src == BitsOf(input)
    requires n0 < maxSym <= weights.Length && p.left == left && p.acc == weights[..n0]
    requires Leads(future, src, 8 * |input|, maxSym, weights.Length, whole, spill) && future(p)
    requires ReadTrunc(src, 8 * |input|, p.pos, p.left + 2) == Got(1, mid)
    modifies weights
    ensures how == Fine ==> n0 < n <= maxSym + 1 && n <= weights.Length && Reservoir(input, c, bits, numBits, end)
    ensures how == Fine ==> numBits < 8
    ensures how == Rejected ==> whole == Bad && !spill
    ensures how == Outside ==> spill
    ensures how == Fine ==> future(Point(end, left, weights[..n]))
  {
    ghost var avail := 8 * |input|;
    weights[n0] := 1;
    assert weights[..n0 + 1] == p.acc + [1];
    RunLeads(future, src, avail, maxSym, weights.Length, whole, spill, p, mid, weights[..n0 + 1], ReadZeros(src, avail, mid, weights[..n0 + 1], maxSym));
    how, n, c, bits, numBits, end := DecodeZeros(input, c0, bits0, numBits0, weights, n0 + 1, maxSym, src, mid);
  }

  /** lines 27-74: one value and, after a zero probability, the zeros that follow it. */
  method DecodeSymbol(input: seq<Byte>, c0: nat, bits0: nat, numBits0: nat, weights: array<nat>, n0: nat, left0: Pos,
                      maxSym: nat, ghost src: BitSource, ghost pos: nat, ghost whole: Distr, ghost spill: bool,
                      ghost future: Future)
    returns (how: Progress, n: nat, left: nat, c: nat, bits: nat, numBits: nat, ghost end: nat)
    requires Reservoir(input, c0, bits0, numBits0, pos) && numBits0 < 8 && src == BitsOf(input)
    requires n0 < maxSym <= weights.Length && left0 <= Pow2(20)
    requires Leads(future, src, 8 * |input|, maxSym, weights.Length, whole, spill)
    requires future(Point(pos, left0, weights[..n0]))
    modifies weights
    ensures how == Fine ==> n0 < n <= maxSym + 1 && n <= weights.Length && left <= left0
    ensures how == Fine ==> Reservoir(input, c, bits, numBits, end) && numBits < 8
    ensures how == Rejected ==> whole == Bad && !spill
    ensures how == Outside ==> spill
    ensures how == Fine && left == 0 ==> n <= maxSym && whole == Done(weights[..n] + Ones(maxSym - n), end) && !spill
    ensures how == Fine && left > 0 ==> future(Point(end, left, weights[..n]))
  {
    ghost var p, avail := Point(pos, left0, weights[..n0]), 8 * |input|;
    var got, v;
    how, n, left := Rejected, n0, left0;
    got, v, c, bits, numBits, end := DecodeValue(input, c0, bits0, numBits0, left0 + 2, src, pos);
    if !got {
      NoValueLeads(future, src, avail, maxSym, weights.Length, whole, spill, p);
    } else if v != 1 {
      left := PutValue(weights, n0, left0, maxSym, v, src, avail, p, end, whole, spill, future);
      how, n := Fine, n0 + 1;
    } else {
      how, n, c, bits, numBits, end := PutZeros(input, c, bits, numBits, weights, n0, left0, maxSym, src, p, end, whole, spill, future);
    }
  }

  datatype Read = Read(log: nat, used: nat) | NotRead | Overrun

  /** fse_decode_distribution; Overrun stands for a write beyond the array, which line 71 does not always prevent. */
  method DecodeDistribution(input: seq<Byte>, weights: array<nat>, maxSym: nat) returns (res: Read)
    requires maxSym <= weights.Length
    modifies weights
    ensures res == Overrun <==> DistributionSpills(input, maxSym, weights.Length)
    ensures res.Read? <==> Distribution(input, maxSym).Done?
    ensures res.Read? ==> res.log == LogOf(input[0]) && res.used <= |input|
    ensures res.Read? ==> weights[..maxSym] == Distribution(input, maxSym).weights
    ensures res.Read? ==> 8 * res.used - 8 < Distribution(input, maxSym).pos <= 8 * res.used
  {
    SpareSuffices(input, maxSym, weights.Length);
    if input == [] {
      return NotRead;
    }
    ghost var src, pos, whole, spill := BitsOf(input), 4, Distribution(input, maxSym), DistributionSpills(input, maxSym, weights.Length);
    var log := LogOf(input[0]);
    var c: nat, bits: nat, numBits: nat := 1, input[0] / 16, 4;
    FirstReservoir(input);
    var left: nat, n := Pow2(log), 0;
    Pow2Monotone(log, 20);
    ghost var future := FutureOf(src, 8 * |input|, maxSym, weights.Length, whole, spill);
    assert At(Point(4, left, weights[..0]));
    while n < maxSym
      invariant n <= maxSym + 1 && n <= weights.Length && Reservoir(input, c, bits, numBits, pos) && numBits < 8
      invariant 0 < left <= Pow2(20)
      invariant future(Point(pos, left, weights[..n]))
    {
      var how;
      how, n, left, c, bits, numBits, pos := DecodeSymbol(input, c, bits, numBits, weights, n, left, maxSym, src, pos, whole, spill, future);
      if how != Fine {
        return if how == Outside then Overrun else NotRead;
      }
      if left == 0 {
        FillOnes(weights, n, maxSym);
        return Read(log, c);
      }
    }
    NoValueLeads(future, src, 8 * |input|, maxSym, weights.Length, whole, spill, Point(pos, left, weights[..n]));
    res := NotRead;
  }

  /** line 23: the first byte without its low half. */
  lemma {:induction false} FirstReservoir(input: seq<Byte>)
    requires input != []
    ensures Reservoir(input, 1, input[0] / 16, 4, 4)
  {
    assert input[..1] == [input[0]];
    ValueOne(input[0]);
    ShrIsDiv(input[0], 4);
    assert Pow2(4) == 16;
  }
}
