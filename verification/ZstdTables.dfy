/**
 compression/zstd.c: the three decoding tables of the sequences section (section 3.1.1.3.2.1 of RFC 8878).
 */
module ZstdTables {
  import opened Basics
  import opened Bits
  import opened Fse
  import opened FseDist

  const NOT_AVAILABLE := 255

  datatype Mode = Predefined | Rle | FseCompressed | Repeat

  /** struct table_settings */
  datatype Settings = Settings(log: nat, maxLog: nat, sym: nat, predef: seq<nat>)

  function Run(n: nat, v: nat): (r: seq<nat>)
    ensures |r| == n && forall i :: 0 <= i < n ==> r[i] == v
  {
    seq(n, _ => v)
  }

  function LengthSettings(): Settings
  {
    Settings(6, 9, 53, [1] + [4] + [3] + Run(6, 2) + Run(37, 1) + Run(7, 0))
  }

  function CopySettings(): Settings
  {
    Settings(6, 9, 36, [4] + [3] + Run(11, 2) + Run(3, 1) + Run(9, 2) + [3] + [2] + Run(5, 1) + Run(4, 0))
  }

  function DistSettings(): Settings
  {
    Settings(5, 8, 29, [1] + Run(5, 1) + Run(3, 2) + Run(15, 1) + Run(5, 0))
  }

  /** lines 56-59: weights[i] = w ? w + 1 : 0 */
  function Weights(predef: seq<nat>): (w: seq<nat>)
    ensures |w| == |predef| && forall i :: 0 <= i < |w| ==> w[i] == if predef[i] == 0 then 0 else predef[i] + 1
  {
    seq(|predef|, i requires 0 <= i < |predef| => if predef[i] == 0 then 0 else predef[i] + 1)
  }

  ghost predicate GoodSettings(s: Settings)
  {
    && 0 < s.sym < 64 && |s.predef| == s.sym && s.log <= s.maxLog <= 20
    && GoodDistribution(Weights(s.predef), s.log) && !OneTakesAll(Weights(s.predef), s.log)
  }

  // ---- the predefined distributions fill their tables ----------------------

  function States(predef: seq<nat>): nat
  {
    TotalSlots(Weights(predef))
  }

  lemma {:induction false} StatesConcat(a: seq<nat>, b: seq<nat>)
    ensures States(a + b) == States(a) + States(b)
  {
    if b == [] {
      assert a + b == a;
    } else {
      var n := |b| - 1;
      StatesConcat(a, b[..n]);
      assert Weights(a + b)[..|a| + n] == Weights(a + b[..n]);
      assert Weights(b)[..n] == Weights(b[..n]);
    }
  }

  lemma {:induction false} StatesRun(n: nat, v: nat)
    ensures States(Run(n, v)) == n * if v == 0 then 1 else v
  {
    if n > 0 {
      StatesRun(n - 1, v);
      assert Weights(Run(n, v))[..n - 1] == Weights(Run(n - 1, v));
      var s := if v == 0 then 1 else v;
      assert n * s == (n - 1) * s + s;
    }
  }

  /** The beginning of a list of predefined probabilities, and the states it takes. */
  ghost predicate Part(s: seq<nat>, states: nat)
  {
    States(s) == states && forall i :: 0 <= i < |s| ==> s[i] <= 4
  }

  lemma {:induction false} AppendRun(s: seq<nat>, states: nat, n: nat, v: nat)
    requires Part(s, states) && v <= 4
    ensures Part(s + Run(n, v), states + n * if v == 0 then 1 else v)
  {
    StatesConcat(s, Run(n, v));
    StatesRun(n, v);
  }

  lemma {:induction false} AppendOne(s: seq<nat>, states: nat, v: Pos)
    requires Part(s, states) && v <= 4
    ensures Part(s + [v], states + v)
  {
    assert [v] == Run(1, v);
    AppendRun(s, states, 1, v);
  }

  lemma {:induction false} PredefinedGood(s: Settings, p: seq<nat>)
    requires p == s.predef && 0 < s.sym < 64 && |p| == s.sym && 5 <= s.log <= s.maxLog <= 20 && Part(p, Pow2(s.log))
    ensures GoodSettings(s)
  {
    Pow2Monotone(5, s.log);
    assert Pow2(5) == 32;
  }

  lemma {:induction false} LengthSettingsGood()
    ensures GoodSettings(LengthSettings())
  {
    var a := [1] + [4] + [3];
    var b := a + Run(6, 2);
    var c := b + Run(37, 1);
    assert [] + [1] == [1] && Pow2(6) == 64;
    AppendOne([], 0, 1);
    AppendOne([1], 1, 4);
    AppendOne([1] + [4], 5, 3);
    AppendRun(a, 8, 6, 2);
    AppendRun(b, 20, 37, 1);
    AppendRun(c, 57, 7, 0);
    PredefinedGood(LengthSettings(), c + Run(7, 0));
  }

  lemma {:induction false} CopySettingsGood()
    ensures GoodSettings(CopySettings())
  {
    var a := [4] + [3] + Run(11, 2);
    var b := a + Run(3, 1);
    var c := b + Run(9, 2);
    var d := c + [3] + [2];
    var e := d + Run(5, 1);
    assert [] + [4] == [4] && Pow2(6) == 64;
    AppendOne([], 0, 4);
    AppendOne([4], 4, 3);
    AppendRun([4] + [3], 7, 11, 2);
    AppendRun(a, 29, 3, 1);
    AppendRun(b, 32, 9, 2);
    AppendOne(c, 50, 3);
    AppendOne(c + [3], 53, 2);
    AppendRun(d, 55, 5, 1);
    AppendRun(e, 60, 4, 0);
    PredefinedGood(CopySettings(), e + Run(4, 0));
  }

  lemma {:induction false} DistSettingsGood()
    ensures GoodSettings(DistSettings())
  {
    var a := [1] + Run(5, 1) + Run(3, 2);
    var b := a + Run(15, 1);
    assert [] + [1] == [1] && Pow2(5) == 32;
    AppendOne([], 0, 1);
    AppendRun([1], 1, 5, 1);
    AppendRun([1] + Run(5, 1), 6, 3, 2);
    AppendRun(a, 12, 15, 1);
    AppendRun(b, 27, 5, 0);
    PredefinedGood(DistSettings(), b + Run(5, 0));
  }

  // ---- tables --------------------------------------------------------------

  /** An entry that leads to a state of the table, whatever bits are read. */
  ghost predicate GoodEntry(e: int, log: nat, sym: nat)
  {
    && 0 <= EntryBits(e) <= log && 0 <= EntryBase(e) && 0 <= EntrySym(e) < sym
    && EntryBase(e) + Pow2(EntryBits(e)) <= Pow2(log)
  }

  ghost predicate GoodTable(entries: seq<int>, log: nat, sym: nat)
  {
    |entries| == Pow2(log) && forall x :: 0 <= x < |entries| ==> GoodEntry(entries[x], log, sym)
  }

  lemma {:induction false} BuiltIsGood(table: seq<int>, dist: seq<nat>, log: nat, spread: seq<int>)
    requires GoodDistribution(dist, log) && Built(table, dist, log, spread)
    ensures GoodTable(table, log, |dist|)
  {
    forall x | 0 <= x < |table| ensures GoodEntry(table[x], log, |dist|) {
      StateStaysInside(table, dist, log, spread, x, Pow2(EntryBits(table[x])) - 1);
    }
  }

  /** line 68 */
  function RleEntry(sym: int): int
  {
    32 * sym
  }

  lemma {:induction false} RleIsGood(sym: nat, numSym: nat)
    requires sym < numSym <= 64
    ensures GoodTable([RleEntry(sym)], 0, numSym) && EntrySym(RleEntry(sym)) == sym
  {
    EntryFields(0, sym, 0);
  }

  /** Why a table was not set up; AssertionFails stands for the one of compression/zstd_fse.c line 137. */
  datatype Outcome = Ready(used: nat) | Corrupt | AssertionFails

  /** The distribution that mode calls for, and its accuracy. */
  ghost predicate Calls(mode: Mode, input: seq<Byte>, s: Settings, w: seq<nat>, log: nat, used: nat)
  {
    match mode
    case Predefined => w == Weights(s.predef) && log == s.log && used == 0
    case FseCompressed =>
      && Distribution(input, s.sym).Done? && w == Distribution(input, s.sym).weights && log == LogOf(input[0])
      && 8 * used - 8 < Distribution(input, s.sym).pos <= 8 * used
    case _ => false
  }

  /** What the input holds in FSE mode is a distribution of an accuracy that is allowed. */
  ghost predicate Allowed(input: seq<Byte>, s: Settings)
  {
    Distribution(input, s.sym).Done? && LogOf(input[0]) <= s.maxLog
  }

  /** The input is rejected; lines 62-69, 70-75 and 82, and 76-79. */
  ghost predicate Rejects(mode: Mode, input: seq<Byte>, s: Settings, log: nat)
  {
    match mode
    case Predefined => false
    case Rle => input == [] || input[0] >= s.sym
    case FseCompressed => !Allowed(input, s)
    case Repeat => log == NOT_AVAILABLE
  }

  /** The assertion of fse_build_table fails. */
  ghost predicate Asserts(mode: Mode, input: seq<Byte>, s: Settings)
  {
    mode.FseCompressed? && Allowed(input, s) && OneTakesAll(Distribution(input, s.sym).weights, LogOf(input[0]))
  }

  /**
   The table that mode calls for: the one before, one entry, or that of a distribution, which
   there is only one of.
   */
  ghost predicate TableFor(mode: Mode, input: seq<Byte>, s: Settings, log0: nat, entries0: seq<int>, log: nat,
                           entries: seq<int>, used: nat)
  {
    match mode
    case Repeat => log == log0 && log != NOT_AVAILABLE && entries == entries0 && used == 0
    case Rle => input != [] && input[0] < s.sym && log == 0 && entries == [RleEntry(input[0])] && used == 1
    case _ => exists w, spread :: GoodDistribution(w, log) && Calls(mode, input, s, w, log, used) && Built(entries, w, log, spread)
  }

  lemma {:induction false} TableForUnique(mode: Mode, input: seq<Byte>, s: Settings, log0: nat, entries0: seq<int>,
                                          log: nat, entries: seq<int>, used: nat, log': nat, entries': seq<int>,
                                          used': nat)
    requires TableFor(mode, input, s, log0, entries0, log, entries, used)
    requires TableFor(mode, input, s, log0, entries0, log', entries', used')
    ensures log == log' && entries == entries' && used == used'
  {
    if mode.Predefined? || mode.FseCompressed? {
      var w, spread :| GoodDistribution(w, log) && Calls(mode, input, s, w, log, used) && Built(entries, w, log, spread);
      var w', spread' :| GoodDistribution(w', log') && Calls(mode, input, s, w', log', used') && Built(entries', w', log', spread');
      BuiltUnique(entries, entries', w, log, spread, spread');
    }
  }

  /** A decoding table that is kept from block to block. */
  class DecodingTable {
    var log: nat
    const entries: array<int>
    const settings: Settings

    ghost predicate Valid()
      reads this, entries
    {
      && GoodSettings(settings) && entries.Length == Pow2(settings.maxLog)
      && (log != NOT_AVAILABLE ==> log <= settings.maxLog && Pow2(log) <= entries.Length && GoodTable(entries[..Pow2(log)], log, settings.sym))
    }

    /** The entries in use. */
    ghost function Content(): seq<int>
      reads this, entries
    {
      if Pow2(log) <= entries.Length then entries[..Pow2(log)] else []
    }

    constructor (s: Settings)
      requires GoodSettings(s)
      ensures Valid() && log == NOT_AVAILABLE && settings == s && fresh(entries)
    {
      log, settings := NOT_AVAILABLE, s;
      entries := new int[Pow2(s.maxLog)](_ => 0);
    }

    /** lines 82-83, for an accuracy and weights that mode has brought up. */
    method Build(mode: Mode, input: seq<Byte>, newLog: nat, w: seq<nat>, used: nat)
      returns (res: Outcome, ghost spread: seq<int>)
      requires Valid() && Calls(mode, input, settings, w, newLog, used) && |w| == settings.sym
      requires GoodDistribution(w, newLog)
      modifies this`log, entries
      ensures res.Corrupt? <==> newLog > settings.maxLog
      ensures res.AssertionFails? <==> newLog <= settings.maxLog && OneTakesAll(w, newLog)
      ensures res.Ready? ==> Valid() && res.used == used && log == newLog <= settings.maxLog
      ensures res.Ready? ==> Built(entries[..Pow2(log)], w, log, spread)
    {
      spread := [];
      log := newLog;
      if newLog > settings.maxLog {
        return Corrupt, spread;
      }
      Pow2Monotone(newLog, settings.maxLog);
      var ok;
      ok, spread := BuildTable(newLog, w, entries);
      if !ok {
        return AssertionFails, spread;
      }
      BuiltIsGood(entries[..Pow2(newLog)], w, newLog, spread);
      res := Ready(used);
    }

    /** lines 70-75; the array of 64 weights has an element to spare. */
    method HandleFse(input: seq<Byte>) returns (res: Outcome, ghost w: seq<nat>, ghost spread: seq<int>)
      requires Valid()
      modifies this`log, entries
      ensures res.Corrupt? <==> !Allowed(input, settings)
      ensures res.AssertionFails? <==>
        Allowed(input, settings) && OneTakesAll(Distribution(input, settings.sym).weights, LogOf(input[0]))
      ensures res.Ready? ==> Valid() && log != NOT_AVAILABLE && res.used <= |input| && GoodDistribution(w, log)
      ensures res.Ready? ==> Calls(FseCompressed, input, settings, w, log, res.used)
      ensures res.Ready? ==> Built(entries[..Pow2(log)], w, log, spread)
    {
      w, spread := [], [];
      var weights := new nat[64];
      SpareSuffices(input, settings.sym, 64);
      var r := DecodeDistribution(input, weights, settings.sym);
      if !r.Read? {
        return Corrupt, w, spread;
      }
      ReadDistributionBuilds(input, settings.sym);
      w := weights[..settings.sym];
      res, spread := Build(FseCompressed, input, r.log, weights[..settings.sym], r.used);
    }

    /** lines 62-69 */
    method HandleRle(input: seq<Byte>) returns (res: Outcome)
      requires Valid()
      modifies this`log, entries
      ensures res.Corrupt? <==> input == [] || input[0] >= settings.sym
      ensures !res.Corrupt? ==> res == Ready(1) && Valid() && log == 0 && entries[0] == RleEntry(input[0])
    {
      if input == [] || input[0] >= settings.sym {
        return Corrupt;
      }
      var sym: nat := input[0];
      RleIsGood(sym, settings.sym);
      entries[0] := RleEntry(sym);
      log := 0;
      assert entries[..Pow2(log)] == [RleEntry(sym)];
      res := Ready(1);
    }

    /** handle_decoding_table */
    method Handle(input: seq<Byte>, mode: Mode) returns (res: Outcome, ghost w: seq<nat>, ghost spread: seq<int>)
      requires Valid()
      modifies this`log, entries
      ensures res.Corrupt? <==> Rejects(mode, input, settings, old(log))
      ensures res.AssertionFails? <==> Asserts(mode, input, settings)
      ensures res.Ready? ==> Valid() && log != NOT_AVAILABLE && res.used <= |input|
      ensures res.Ready? && mode.Repeat? ==> log == old(log) && entries[..] == old(entries[..]) && res.used == 0
      ensures res.Ready? && mode.Rle? ==> log == 0 && res.used == 1 && entries[0] == RleEntry(input[0])
      ensures res.Ready? && (mode.Predefined? || mode.FseCompressed?) ==>
        GoodDistribution(w, log) && Calls(mode, input, settings, w, log, res.used) && Built(entries[..Pow2(log)], w, log, spread)
    {
      w, spread := [], [];
      match mode
      case Predefined =>
        w := Weights(settings.predef);
        res, spread := Build(mode, input, settings.log, Weights(settings.predef), 0);
      case Rle =>
        res := HandleRle(input);
      case FseCompressed =>
        res, w, spread := HandleFse(input);
      case Repeat =>
        res := if log == NOT_AVAILABLE then Corrupt else Ready(0);
    }
  }
}
