/**
 Some states of the tables of appendix A of RFC 8878, which compression/zstd.c builds from the
 predefined distributions.
 */
module ZstdDefaults {
  import opened Basics
  import opened Fse
  import opened ZstdTables

  // ---- the distributions ---------------------------------------------------

  /** Section 3.1.1.3.2.2: how many states each symbol has, -1 for "less than one". */
  function CopyCount(s: nat): int
  {
    if s == 0 then 4
    else if s == 1 || s == 25 then 3
    else if s < 13 || 16 <= s <= 26 then 2
    else if s < 32 then 1 else -1
  }

  function LengthCount(s: nat): int
  {
    if s == 1 then 4 else if s == 2 then 3 else if 3 <= s <= 8 then 2 else if s < 46 then 1 else -1
  }

  function DistCount(s: nat): int
  {
    if 6 <= s <= 8 then 2 else if s < 24 then 1 else -1
  }

  /** The values that compression/zstd_fse.c has for them are one more. */
  lemma {:induction false} Distributions(s: nat)
    ensures s < 36 ==> Weights(CopySettings().predef)[s] == CopyCount(s) + 1
    ensures s < 53 ==> Weights(LengthSettings().predef)[s] == LengthCount(s) + 1
    ensures s < 29 ==> Weights(DistSettings().predef)[s] == DistCount(s) + 1
  {
  }

  // ---- whose turn it is ----------------------------------------------------

  /** How many of the first t steps come to a state below m. */
  function Given(step: nat, n: Pos, m: nat, t: nat): nat
  {
    if t == 0 then 0 else Given(step, n, m, t - 1) + if Orbit(step, n, t - 1) < m then 1 else 0
  }

  lemma {:induction false} GivenVisited(step: nat, log: nat, m: nat, t: nat)
    requires step % 2 == 1 && t <= Pow2(log)
    ensures |Visited(step, Pow2(log), m, t)| == Given(step, Pow2(log), m, t)
  {
    if t > 0 {
      GivenVisited(step, log, m, t - 1);
      OrbitFresh(step, log, m, t - 1);
    }
  }

  /** The size of a table, how many of its states are given out in turn, and the step between them. */
  datatype Frame = Frame(n: Pos, m: nat, step: nat)

  ghost function FrameOf(table: seq<int>, w: seq<nat>, log: nat, spread: seq<int>): Option<Frame>
  {
    if GoodDistribution(w, log) && Built(table, w, log, spread) then Some(Frame(Pow2(log), SpreadSlots(w), Step(log)))
    else None
  }

  lemma {:induction false} SymbolAt(table: seq<int>, w: seq<nat>, log: nat, spread: seq<int>, f: Frame, u: nat, x: nat,
                                    j: nat, s: nat)
    requires FrameOf(table, w, log, spread) == Some(f) && u < f.n && x < f.m
    requires Walked(f, u, x, j) && Turn(s, w, j)
    ensures x < |spread| && spread[x] == s
  {
    StepOdd(log);
    GivenVisited(f.step, log, f.m, u);
    assert Turn(spread[Orbit(f.step, f.n, u)], w, |Visited(f.step, f.n, f.m, u)|);
    TurnUnique(spread[x], s, w, j);
  }

  lemma {:induction false} EntryAt(table: seq<int>, w: seq<nat>, log: nat, spread: seq<int>, f: Frame, x: nat, s: nat,
                                   c: Pos, r: nat)
    requires FrameOf(table, w, log, spread) == Some(f) && x < f.m && x < |spread| && spread[x] == s < |w|
    requires w[s] == c + 1 && Count(spread, s, x) == r
    ensures x < |table| && r < c && Log2(c) <= log && (r >= 2 * Pow2(Log2(c)) - c ==> Log2(c) < log)
    ensures table[x] == Entry(StateBits(log, c, r), s, StateBase(log, c, r))
  {
    CountMonotone(spread, s, x, f.m);
    StateWithin(log, c, r);
    assert table[x] == SpreadEntry(spread, w, log, f.m, x);
  }

  /** The first k symbols have j states together. */
  ghost predicate Share(w: seq<nat>, k: nat, j: nat)
  {
    k <= |w| && SpreadSlots(w[..k]) == j
  }

  lemma {:induction false} ShareOn(w: seq<nat>, k: nat, j: nat)
    requires Share(w, k, j) && k < |w| && w[k] > 1
    ensures Share(w, k + 1, j + w[k] - 1)
  {
    assert w[..k + 1][..k] == w[..k];
  }

  // ---- the symbols "less than one" -----------------------------------------

  /** They are at the end of the list, and of the table, in the opposite order. */
  lemma {:induction false} LowRun(p: seq<nat>, k: nat)
    requires forall i :: 0 <= i < |p| ==> p[i] > 0
    ensures var low := LowSyms(Weights(p + Run(k, 0)));
            |low| == k && forall i :: 0 <= i < k ==> low[i] == |p| + i
  {
    var l := p + Run(k, 0);
    if k > 0 {
      assert Weights(l)[..|l| - 1] == Weights(p + Run(k - 1, 0));
      LowRun(p, k - 1);
    } else if p != [] {
      var q := p[..|p| - 1];
      assert Weights(l)[..|p| - 1] == Weights(q + Run(0, 0));
      LowRun(q, 0);
    }
  }

  lemma {:induction false} LowEntries(table: seq<int>, p: seq<nat>, k: nat, log: nat, spread: seq<int>, n: Pos)
    requires forall i :: 0 <= i < |p| ==> p[i] > 0
    requires GoodDistribution(Weights(p + Run(k, 0)), log) && n == Pow2(log)
    requires Built(table, Weights(p + Run(k, 0)), log, spread)
    ensures SpreadSlots(Weights(p + Run(k, 0))) == n - k && |table| == n
    ensures forall x :: n - k <= x < n ==> table[x] == Entry(log, |p| + (n - 1 - x), 0)
  {
    var w := Weights(p + Run(k, 0));
    LowRun(p, k);
    forall x | n - k <= x < n ensures table[x] == Entry(log, |p| + (n - 1 - x), 0) {
      assert table[n - 1 - (n - 1 - x)] == Entry(log, LowSyms(w)[n - 1 - x], 0);
    }
  }

  // ---- the tables ----------------------------------------------------------

  /** Step u comes to state x, and j states have been given out before. */
  ghost predicate Walked(f: Frame, u: nat, x: nat, j: nat)
  {
    Orbit(f.step, f.n, u) == x && Given(f.step, f.n, f.m, u) == j
  }

  lemma {:induction false} WalkOn(f: Frame, u: nat, x: nat, j: nat)
    requires Walked(f, u, x, j)
    ensures Walked(f, u + 1, (x + f.step) % f.n, j + if x < f.m then 1 else 0)
  {
  }

  /** The first steps through a table of 64 states. */
  lemma {:induction false} Walk64(f: Frame)
    requires f.step == 43 && f.n == 64 && 57 <= f.m
    ensures Walked(f, 0, 0, 0) && Walked(f, 3, 1, 3) && Walked(f, 6, 2, 6) && Walked(f, 9, 3, 9)
  {
    WalkOn(f, 0, 0, 0);
    WalkOn(f, 1, 43, 1);
    WalkOn(f, 2, 22, 2);
    WalkOn(f, 3, 1, 3);
    WalkOn(f, 4, 44, 4);
    WalkOn(f, 5, 23, 5);
    WalkOn(f, 6, 2, 6);
    WalkOn(f, 7, 45, 7);
    WalkOn(f, 8, 24, 8);
  }

  /** The first steps through a table of 32 states, of which the last five are not given out in turn. */
  lemma {:induction false} Walk32(f: Frame)
    requires f.step == 23 && f.n == 32 && f.m == 27
    ensures Walked(f, 0, 0, 0) && Walked(f, 7, 1, 6)
  {
    WalkOn(f, 0, 0, 0);
    WalkOn(f, 1, 23, 1);
    WalkOn(f, 2, 14, 2);
    WalkOn(f, 3, 5, 3);
    WalkOn(f, 4, 28, 4);
    WalkOn(f, 5, 19, 4);
    WalkOn(f, 6, 10, 5);
  }

  /** Whose the first states of a table of 64 are. */
  lemma {:induction false} FirstFour(table: seq<int>, w: seq<nat>, log: nat, spread: seq<int>, f: Frame, s0: nat,
                                     s1: nat, s2: nat, s3: nat)
    requires FrameOf(table, w, log, spread) == Some(f) && f.step == 43 && f.n == 64 && 57 <= f.m
    requires Turn(s0, w, 0) && Turn(s1, w, 3) && Turn(s2, w, 6) && Turn(s3, w, 9)
    ensures |spread| > 3 && spread[0] == s0 && spread[1] == s1 && spread[2] == s2 && spread[3] == s3
  {
    Walk64(f);
    SymbolAt(table, w, log, spread, f, 0, 0, 0, s0);
    SymbolAt(table, w, log, spread, f, 3, 1, 3, s1);
    SymbolAt(table, w, log, spread, f, 6, 2, 6, s2);
    SymbolAt(table, w, log, spread, f, 9, 3, 9, s3);
  }

  lemma {:induction false} Ranks(spread: seq<int>, x: nat, s: int)
    requires x <= |spread| && x <= 3
    ensures Count(spread, s, x) ==
            (if x > 0 && spread[0] == s then 1 else 0) + (if x > 1 && spread[1] == s then 1 else 0) +
            (if x > 2 && spread[2] == s then 1 else 0)
  {
    if x > 0 {
      Ranks(spread, x - 1, s);
    }
  }

  /** How states are counted among those of their symbol. */
  lemma {:induction false} Entries(log: nat)
    requires 5 <= log
    ensures Log2(1) == 0 && Log2(2) == 1 && Log2(3) == 1 && Log2(4) == 2
    ensures StateBits(log, 1, 0) == log && StateBase(log, 1, 0) == 0
    ensures StateBits(log, 2, 0) == log - 1 && StateBase(log, 2, 0) == 0
    ensures StateBits(log, 3, 0) == log - 1 && StateBase(log, 3, 0) == Pow2(log - 1)
    ensures StateBits(log, 4, 0) == log - 2 && StateBase(log, 4, 0) == 0
    ensures StateBits(log, 4, 1) == log - 2 && StateBase(log, 4, 1) == Pow2(log - 2)
  {
    assert Pow2(1) == 2 && Pow2(2) == 4;
  }

  /** Literal lengths: states 0 to 3, and the last four. */
  lemma {:induction false} CopyTable(table: seq<int>, w: seq<nat>, spread: seq<int>, log: nat)
    requires w == Weights(CopySettings().predef) && log == CopySettings().log
    requires GoodDistribution(w, log) && Built(table, w, log, spread)
    ensures |table| == 64 && table[0] == Entry(4, 0, 0) && table[1] == Entry(4, 0, 16)
    ensures table[2] == Entry(5, 1, 32) && table[3] == Entry(5, 3, 0)
    ensures table[60] == Entry(6, 35, 0) && table[61] == Entry(6, 34, 0)
    ensures table[62] == Entry(6, 33, 0) && table[63] == Entry(6, 32, 0)
  {
    var p := [4] + [3] + Run(11, 2) + Run(3, 1) + Run(9, 2) + [3] + [2] + Run(5, 1);
    assert Pow2(6) == 64;
    LowEntries(table, p, 4, log, spread, 64);
    CopyFirst(table, w, spread, log, Frame(64, 60, 43));
  }

  lemma {:induction false} CopyTurns(w: seq<nat>)
    requires |w| > 4 && w[0] == 5 && w[1] == 4 && w[2] == 3 && w[3] == 3
    ensures Turn(0, w, 0) && Turn(0, w, 3) && Turn(1, w, 6) && Turn(3, w, 9)
  {
    assert w[..0] == [];
    ShareOn(w, 0, 0);
    ShareOn(w, 1, 4);
    ShareOn(w, 2, 7);
    ShareOn(w, 3, 9);
  }

  lemma {:induction false} CopyFirst(table: seq<int>, w: seq<nat>, spread: seq<int>, log: nat, f: Frame)
    requires FrameOf(table, w, log, spread) == Some(f) && f == Frame(64, 60, 43) && log == 6
    requires |w| > 4 && w[0] == 5 && w[1] == 4 && w[2] == 3 && w[3] == 3
    ensures |table| > 3 && table[0] == Entry(4, 0, 0) && table[1] == Entry(4, 0, 16)
    ensures table[2] == Entry(5, 1, 32) && table[3] == Entry(5, 3, 0)
  {
    CopyTurns(w);
    FirstFour(table, w, log, spread, f, 0, 0, 1, 3);
    Ranks(spread, 0, 0);
    Ranks(spread, 1, 0);
    Ranks(spread, 2, 1);
    Ranks(spread, 3, 3);
    Entries(log);
    EntryAt(table, w, log, spread, f, 0, 0, 4, 0);
    EntryAt(table, w, log, spread, f, 1, 0, 4, 1);
    EntryAt(table, w, log, spread, f, 2, 1, 3, 0);
    EntryAt(table, w, log, spread, f, 3, 3, 2, 0);
  }

  /** Match lengths: states 0 to 3, and the last seven. */
  lemma {:induction false} LengthTable(table: seq<int>, w: seq<nat>, spread: seq<int>, log: nat)
    requires w == Weights(LengthSettings().predef) && log == LengthSettings().log
    requires GoodDistribution(w, log) && Built(table, w, log, spread)
    ensures |table| == 64 && table[0] == Entry(6, 0, 0) && table[1] == Entry(4, 1, 0)
    ensures table[2] == Entry(5, 2, 32) && table[3] == Entry(5, 3, 0)
    ensures forall x :: 57 <= x < 64 ==> table[x] == Entry(6, 46 + (63 - x), 0)
  {
    var p := [1] + [4] + [3] + Run(6, 2) + Run(37, 1);
    assert Pow2(6) == 64;
    LowEntries(table, p, 7, log, spread, 64);
    LengthFirst(table, w, spread, log, Frame(64, 57, 43));
  }

  lemma {:induction false} LengthTurns(w: seq<nat>)
    requires |w| > 4 && w[0] == 2 && w[1] == 5 && w[2] == 4 && w[3] == 3
    ensures Turn(0, w, 0) && Turn(1, w, 3) && Turn(2, w, 6) && Turn(3, w, 9)
  {
    assert w[..0] == [];
    ShareOn(w, 0, 0);
    ShareOn(w, 1, 1);
    ShareOn(w, 2, 5);
    ShareOn(w, 3, 8);
  }

  lemma {:induction false} LengthFirst(table: seq<int>, w: seq<nat>, spread: seq<int>, log: nat, f: Frame)
    requires FrameOf(table, w, log, spread) == Some(f) && f == Frame(64, 57, 43) && log == 6
    requires |w| > 4 && w[0] == 2 && w[1] == 5 && w[2] == 4 && w[3] == 3
    ensures |table| > 3 && table[0] == Entry(6, 0, 0) && table[1] == Entry(4, 1, 0)
    ensures table[2] == Entry(5, 2, 32) && table[3] == Entry(5, 3, 0)
  {
    LengthTurns(w);
    FirstFour(table, w, log, spread, f, 0, 1, 2, 3);
    Ranks(spread, 0, 0);
    Ranks(spread, 1, 1);
    Ranks(spread, 2, 2);
    Ranks(spread, 3, 3);
    Entries(log);
    EntryAt(table, w, log, spread, f, 0, 0, 1, 0);
    EntryAt(table, w, log, spread, f, 1, 1, 4, 0);
    EntryAt(table, w, log, spread, f, 2, 2, 3, 0);
    EntryAt(table, w, log, spread, f, 3, 3, 2, 0);
  }

  /** Offsets: states 0 and 1, and the last five. */
  lemma {:induction false} DistTable(table: seq<int>, w: seq<nat>, spread: seq<int>, log: nat)
    requires w == Weights(DistSettings().predef) && log == DistSettings().log
    requires GoodDistribution(w, log) && Built(table, w, log, spread)
    ensures |table| == 32 && table[0] == Entry(5, 0, 0) && table[1] == Entry(4, 6, 0)
    ensures forall x :: 27 <= x < 32 ==> table[x] == Entry(5, 24 + (31 - x), 0)
  {
    var p := [1] + Run(5, 1) + Run(3, 2) + Run(15, 1);
    assert Pow2(5) == 32;
    LowEntries(table, p, 5, log, spread, 32);
    DistFirst(table, w, spread, log, Frame(32, 27, 23));
  }

  lemma {:induction false} DistTurns(w: seq<nat>)
    requires |w| > 7 && w[0] == w[1] == w[2] == w[3] == w[4] == w[5] == 2 && w[6] == 3
    ensures Turn(0, w, 0) && Turn(6, w, 6)
  {
    assert w[..0] == [];
    ShareOn(w, 0, 0);
    ShareOn(w, 1, 1);
    ShareOn(w, 2, 2);
    ShareOn(w, 3, 3);
    ShareOn(w, 4, 4);
    ShareOn(w, 5, 5);
    ShareOn(w, 6, 6);
  }

  lemma {:induction false} DistFirst(table: seq<int>, w: seq<nat>, spread: seq<int>, log: nat, f: Frame)
    requires FrameOf(table, w, log, spread) == Some(f) && f == Frame(32, 27, 23) && log == 5
    requires |w| > 7 && w[0] == w[1] == w[2] == w[3] == w[4] == w[5] == 2 && w[6] == 3
    ensures |table| > 1 && table[0] == Entry(5, 0, 0) && table[1] == Entry(4, 6, 0)
  {
    DistTurns(w);
    Walk32(f);
    SymbolAt(table, w, log, spread, f, 0, 0, 0, 0);
    SymbolAt(table, w, log, spread, f, 7, 1, 6, 6);
    Ranks(spread, 0, 0);
    Ranks(spread, 1, 6);
    Entries(log);
    EntryAt(table, w, log, spread, f, 0, 0, 1, 0);
    EntryAt(table, w, log, spread, f, 1, 6, 2, 0);
  }
}
