/**
 compression/zstd_fse.c: building an FSE decoding table (section 4.1 of RFC 8878).

 A distribution gives one value per symbol: 0 for a probability "less than one",
 which takes a single state at the end of the table, and v > 0 for v - 1 states.
 */
module Fse {
  import opened Basics

  // ---- distributions -------------------------------------------------------

  /** How many states a symbol of this value gets. */
  function Slots(v: nat): nat
  {
    if v == 0 then 1 else v - 1
  }

  function TotalSlots(dist: seq<nat>): nat
  {
    if dist == [] then 0 else TotalSlots(dist[..|dist| - 1]) + Slots(dist[|dist| - 1])
  }

  /** The symbols of probability "less than one", in order. */
  function LowSyms(dist: seq<nat>): seq<nat>
  {
    if dist == [] then []
    else
      var n := |dist| - 1;
      LowSyms(dist[..n]) + if dist[n] == 0 then [n] else []
  }

  /** States of the symbols that are not "less than one". */
  function SpreadSlots(dist: seq<nat>): nat
  {
    if dist == [] then 0
    else SpreadSlots(dist[..|dist| - 1]) + if dist[|dist| - 1] <= 1 then 0 else dist[|dist| - 1] - 1
  }

  lemma {:induction false} SlotsSplit(dist: seq<nat>)
    ensures TotalSlots(dist) == SpreadSlots(dist) + |LowSyms(dist)|
  {
    if dist != [] {
      SlotsSplit(dist[..|dist| - 1]);
    }
  }

  // ---- the step through the table ------------------------------------------

  /** line 88: 5 << (log - 3) | 3 */
  function Step(log: nat): nat
    requires log >= 5
  {
    5 * Pow2(log - 3) + 3
  }

  lemma {:induction false} StepOdd(log: nat)
    requires log >= 5
    ensures Step(log) % 2 == 1
  {
    assert Pow2(log - 3) == 2 * Pow2(log - 4);
  }

  /** The position after t single steps from 0: pos += step; pos &= mask */
  function Orbit(step: nat, n: Pos, t: nat): (pos: nat)
    ensures pos < n
  {
    if t == 0 then 0 else (Orbit(step, n, t - 1) + step) % n
  }

  lemma {:induction false} OrbitMultiple(step: nat, n: Pos, t: nat) returns (q: int)
    ensures t * step == q * n + Orbit(step, n, t)
  {
    if t == 0 {
      q := 0;
    } else {
      q := OrbitMultiple(step, n, t - 1);
      var x := Orbit(step, n, t - 1) + step;
      assert x == x / n * n + x % n;
      assert t * step == (t - 1) * step + step;
      assert (q + x / n) * n == q * n + x / n * n;
      q := q + x / n;
    }
  }

  /** An odd factor does not help to divide by a power of two. */
  lemma {:induction false} OddDivides(k: nat, d: int, s: int, q: int) returns (q2: int)
    requires s % 2 == 1 && d * s == q * Pow2(k)
    ensures d == q2 * Pow2(k)
  {
    if k == 0 {
      q2 := d;
    } else {
      var h, p := s / 2, Pow2(k - 1);
      assert s == 2 * h + 1;
      assert d * s == 2 * (d * h) + d by { assert d * (2 * h + 1) == d * (2 * h) + d; }
      assert q * (2 * p) == 2 * (q * p);
      var e := q * p - d * h;
      assert d == 2 * e;
      assert 2 * (e * s) == d * s by { assert (2 * e) * s == 2 * (e * s); }
      q2 := OddDivides(k - 1, e, s, q);
      assert q2 * (2 * p) == 2 * (q2 * p);
    }
  }

  lemma {:induction false} SmallMultiple(d: int, q: int, n: Pos)
    requires d == q * n && 0 <= d < n
    ensures d == 0
  {
    assert q >= 1 ==> q * n >= n;
    assert q <= -1 ==> q * n <= -1;
  }

  /** An odd step does not come to the same position twice within a round. */
  lemma {:induction false} OrbitInjective(step: nat, log: nat, u: nat, v: nat)
    requires step % 2 == 1 && u <= v < Pow2(log)
    requires Orbit(step, Pow2(log), u) == Orbit(step, Pow2(log), v)
    ensures u == v
  {
    var n := Pow2(log);
    var qu := OrbitMultiple(step, n, u);
    var qv := OrbitMultiple(step, n, v);
    assert (v - u) * step == v * step - u * step;
    assert (qv - qu) * n == qv * n - qu * n;
    var q2 := OddDivides(log, v - u, step, qv - qu);
    SmallMultiple(v - u, q2, n);
  }

  /** A round has N steps. */
  lemma {:induction false} OrbitReturns(step: nat, n: Pos)
    ensures Orbit(step, n, n) == 0
  {
    var q := OrbitMultiple(step, n, n);
    DivModUnique(n * step, q, Orbit(step, n, n), n);
    DivModUnique(n * step, step, 0, n);
  }

  /** The positions below m among the first t. */
  function Visited(step: nat, n: Pos, m: nat, t: nat): set<nat>
  {
    if t == 0 then {}
    else Visited(step, n, m, t - 1) + if Orbit(step, n, t - 1) < m then {Orbit(step, n, t - 1)} else {}
  }

  lemma {:induction false} VisitedHas(step: nat, n: Pos, m: nat, t: nat, u: nat)
    requires u < t && Orbit(step, n, u) < m
    ensures Orbit(step, n, u) in Visited(step, n, m, t)
  {
    if u < t - 1 {
      VisitedHas(step, n, m, t - 1, u);
    }
  }

  lemma {:induction false} VisitedWhen(step: nat, n: Pos, m: nat, t: nat, x: nat) returns (u: nat)
    requires x in Visited(step, n, m, t)
    ensures u < t && Orbit(step, n, u) == x && x < m
  {
    if x in Visited(step, n, m, t - 1) {
      u := VisitedWhen(step, n, m, t - 1, x);
    } else {
      u := t - 1;
    }
  }

  function Range(m: nat): (s: set<nat>)
    ensures |s| == m && forall x :: x in s <==> 0 <= x < m
  {
    if m == 0 then {} else Range(m - 1) + {m - 1}
  }

  /** The next position of a round is a new one. */
  lemma {:induction false} OrbitFresh(step: nat, log: nat, m: nat, t: nat)
    requires step % 2 == 1 && t < Pow2(log)
    ensures Orbit(step, Pow2(log), t) !in Visited(step, Pow2(log), m, t)
  {
    var n := Pow2(log);
    var x := Orbit(step, n, t);
    if x in Visited(step, n, m, t) {
      var u := VisitedWhen(step, n, m, t, x);
      OrbitInjective(step, log, u, t);
    }
  }

  lemma {:induction false} VisitedSize(step: nat, log: nat, t: nat)
    requires step % 2 == 1 && t <= Pow2(log)
    ensures |Visited(step, Pow2(log), Pow2(log), t)| == t
  {
    if t > 0 {
      VisitedSize(step, log, t - 1);
      OrbitFresh(step, log, Pow2(log), t - 1);
    }
  }

  lemma {:induction false} SubsetFull(s: set<nat>, m: nat)
    requires |s| == m && forall x :: x in s ==> x < m
    ensures s == Range(m)
  {
    var r := Range(m);
    assert s <= r;
    assert r == s + (r - s);
    assert |r - s| == 0;
  }

  /** An odd step visits every position in one round. */
  lemma {:induction false} FullCycle(step: nat, log: nat, m: nat)
    requires step % 2 == 1 && m <= Pow2(log)
    ensures Visited(step, Pow2(log), m, Pow2(log)) == Range(m)
  {
    var n := Pow2(log);
    VisitedSize(step, log, n);
    forall x | x in Visited(step, n, n, n)
      ensures x < n
    {
      var u := VisitedWhen(step, n, n, n, x);
    }
    SubsetFull(Visited(step, n, n, n), n);
    forall x: nat
      ensures x in Visited(step, n, m, n) <==> x < m
    {
      if x in Visited(step, n, m, n) {
        var u := VisitedWhen(step, n, m, n, x);
      }
      if x < m {
        assert x in Visited(step, n, n, n);
        var u := VisitedWhen(step, n, n, n, x);
        VisitedHas(step, n, m, n, u);
      }
    }
  }

  // ---- what the states of one symbol cover ---------------------------------

  /** How many of the bits that follow a state reads, for the counter-th state of a symbol with c states. */
  function StateBits(log: nat, c: Pos, counter: nat): int
  {
    if counter < 2 * Pow2(Log2(c)) - c then log - Log2(c) else log - Log2(c) - 1
  }

  /** What is added to them to get the next state. */
  function StateBase(log: nat, c: Pos, counter: nat): int
    requires Log2(c) <= log
    requires counter >= 2 * Pow2(Log2(c)) - c ==> Log2(c) < log
  {
    var cutoff := 2 * Pow2(Log2(c)) - c;
    if counter < cutoff then (counter + Pow2(Log2(c)) - cutoff) * Pow2(log - Log2(c))
    else (counter - cutoff) * Pow2(log - Log2(c) - 1)
  }

  /** The numbers of one symbol: c lies between P = 2^len and 2P, and P * Q is the table size. */
  lemma {:induction false} Widths(log: nat, c: Pos)
    requires c <= Pow2(log)
    ensures Log2(c) <= log && Pow2(Log2(c)) <= c < 2 * Pow2(Log2(c))
    ensures Pow2(Log2(c)) * Pow2(log - Log2(c)) == Pow2(log)
    ensures Log2(c) == log ==> c == Pow2(log)
    ensures Log2(c) < log ==> Pow2(log - Log2(c)) == 2 * Pow2(log - Log2(c) - 1)
    ensures c > Pow2(Log2(c)) ==> Log2(c) < log
  {
    Log2Bounds(c);
    if Log2(c) > log {
      Pow2Monotone(log + 1, Log2(c));
    }
    Pow2Sum(Log2(c), log - Log2(c));
  }

  /** The interval of states that the counter-th state can lead to, from P, Q and half of Q. */
  ghost predicate Inside(p: int, q: int, h: int, c: int, counter: int, y: int)
  {
    if counter < 2 * p - c then (counter + c - p) * q <= y < (counter + c - p) * q + q
    else (counter - (2 * p - c)) * h <= y < (counter - (2 * p - c)) * h + h
  }

  ghost predicate Numbers(p: int, q: int, h: int, c: int)
  {
    1 <= p <= c < 2 * p && 1 <= q && (c > p ==> 1 <= h && q == 2 * h)
  }

  /** The counter of the state that leads to y. */
  function OwnerOf(p: int, q: int, h: int, c: int, y: int): int
    requires 1 <= q && 1 <= h
  {
    if (c - p) * q <= y then y / q - (c - p) else 2 * p - c + y / h
  }

  lemma {:induction false} OwnerInside(p: int, q: int, h: int, c: int, y: int)
    requires Numbers(p, q, h, c) && 1 <= h && 0 <= y < p * q
    ensures 0 <= OwnerOf(p, q, h, c, y) < c && Inside(p, q, h, c, OwnerOf(p, q, h, c, y), y)
  {
    if (c - p) * q <= y {
      DivBounds(y, q);
      DivLess(y, q, p);
      DivAtLeast(y, q, c - p);
    } else {
      assert c > p;
      DivBounds(y, h);
      assert (c - p) * q == (2 * (c - p)) * h;
      DivLess(y, h, 2 * (c - p));
      DivAtLeast(y, h, 0);
    }
  }

  lemma {:induction false} InsideOwner(p: int, q: int, h: int, c: int, counter: int, y: int)
    requires Numbers(p, q, h, c) && 1 <= h && 0 <= y < p * q && 0 <= counter < c && Inside(p, q, h, c, counter, y)
    ensures counter == OwnerOf(p, q, h, c, y)
  {
    if counter < 2 * p - c {
      var k := counter + c - p;
      DivModUnique(y, k, y - k * q, q);
      MulMonotone(c - p, k, q);
    } else {
      var j := counter - (2 * p - c);
      DivModUnique(y, j, y - j * h, h);
      MulMonotone(j + 1, 2 * (c - p), h);
      assert (2 * (c - p)) * h == (c - p) * q;
      assert (j + 1) * h == j * h + h;
    }
  }

  lemma {:induction false} InsideWithin(p: int, q: int, h: int, c: int, counter: int)
    requires Numbers(p, q, h, c) && 0 <= counter < c
    ensures if counter < 2 * p - c then 0 <= (counter + c - p) * q <= p * q - q
            else 0 <= (counter - (2 * p - c)) * h && (counter - (2 * p - c)) * h + h <= p * q - q
  {
    if counter < 2 * p - c {
      MulMonotone(0, counter + c - p, q);
      MulMonotone(counter + c - p, p - 1, q);
      assert (p - 1) * q == p * q - q;
    } else {
      var j := counter - (2 * p - c);
      MulMonotone(0, j, h);
      MulMonotone(j + 1, 2 * (c - p), h);
      assert (2 * (c - p)) * h == (c - p) * q;
      assert (j + 1) * h == j * h + h;
      MulMonotone(c - p, p - 1, q);
      assert (p - 1) * q == p * q - q;
    }
  }

  /** Half of Q; it is used only when the symbol has states of both widths. */
  function HalfWidth(log: nat, c: Pos): Pos
  {
    if Log2(c) < log then Pow2(log - Log2(c) - 1) else 1
  }

  ghost predicate Covers(log: nat, c: Pos, counter: nat, y: nat)
    requires c <= Pow2(log) && counter < c
  {
    StateWithin(log, c, counter);
    StateBase(log, c, counter) <= y < StateBase(log, c, counter) + Pow2(StateBits(log, c, counter))
  }

  /** Every interval lies within the state space. */
  lemma {:induction false} StateWithin(log: nat, c: Pos, counter: nat)
    requires c <= Pow2(log) && counter < c
    ensures Log2(c) <= log && (counter >= 2 * Pow2(Log2(c)) - c ==> Log2(c) < log)
    ensures 0 <= StateBits(log, c, counter) <= log
    ensures 0 <= StateBase(log, c, counter)
    ensures StateBase(log, c, counter) + Pow2(StateBits(log, c, counter)) <= Pow2(log)
    ensures c < Pow2(log) ==> StateBase(log, c, counter) < Pow2(log) - 1
  {
    Widths(log, c);
    InsideWithin(Pow2(Log2(c)), Pow2(log - Log2(c)), HalfWidth(log, c), c, counter);
  }

  /** The counter of the state of the symbol that leads to y. */
  function Owner(log: nat, c: Pos, y: nat): (counter: nat)
    requires c <= Pow2(log) && y < Pow2(log)
    ensures counter < c && Covers(log, c, counter, y)
  {
    Widths(log, c);
    OwnerInside(Pow2(Log2(c)), Pow2(log - Log2(c)), HalfWidth(log, c), c, y);
    OwnerOf(Pow2(Log2(c)), Pow2(log - Log2(c)), HalfWidth(log, c), c, y)
  }

  /** The intervals of a symbol's states do not overlap. */
  lemma {:induction false} CoversOwner(log: nat, c: Pos, counter: nat, y: nat)
    requires c <= Pow2(log) && y < Pow2(log) && counter < c && Covers(log, c, counter, y)
    ensures counter == Owner(log, c, y)
  {
    Widths(log, c);
    InsideOwner(Pow2(Log2(c)), Pow2(log - Log2(c)), HalfWidth(log, c), c, counter, y);
  }

  lemma {:induction false} WholeTable(log: nat)
    ensures Log2(Pow2(log)) == log
  {
    Log2Unique(Pow2(log), log);
  }

  /** line 137: the assertion fails for the last state of a symbol that has the whole table, and for no other. */
  lemma {:induction false} BaseAssertion(log: nat, c: Pos, counter: nat)
    requires c <= Pow2(log) && counter < c
    ensures Log2(c) <= log && (counter >= 2 * Pow2(Log2(c)) - c ==> Log2(c) < log)
    ensures StateBase(log, c, counter) < Pow2(log) - 1 <==> !(c == Pow2(log) && counter == c - 1)
  {
    StateWithin(log, c, counter);
    WholeTable(log);
  }

  // ---- the table -----------------------------------------------------------

  /** bits | sym << 5 | base << 11 */
  function Entry(bits: int, sym: int, base: int): int
  {
    bits + 32 * sym + 2048 * base
  }

  function EntryBits(e: int): int { e % 32 }
  function EntrySym(e: int): int { e / 32 % 64 }
  function EntryBase(e: int): int { e / 2048 }

  lemma {:induction false} EntryFields(bits: int, sym: int, base: int)
    requires 0 <= bits < 32 && 0 <= sym < 64
    ensures EntryBits(Entry(bits, sym, base)) == bits
    ensures EntrySym(Entry(bits, sym, base)) == sym
    ensures EntryBase(Entry(bits, sym, base)) == base
  {
  }

  /** How many of the first n elements are s. */
  function Count(tab: seq<int>, s: int, n: nat): nat
    requires n <= |tab|
  {
    if n == 0 then 0 else Count(tab, s, n - 1) + if tab[n - 1] == s then 1 else 0
  }

  lemma {:induction false} CountIsSize(tab: seq<int>, s: int, n: nat, at: set<nat>)
    requires n <= |tab| && forall x :: x in at <==> 0 <= x < n && tab[x] == s
    ensures Count(tab, s, n) == |at|
  {
    if n == 0 {
      assert at == {};
    } else {
      var before := at - {n - 1};
      CountIsSize(tab, s, n - 1, before);
      assert at == before + if tab[n - 1] == s then {n - 1} else {};
    }
  }

  lemma {:induction false} CountMonotone(tab: seq<int>, s: int, m: nat, n: nat)
    requires m <= n <= |tab|
    ensures Count(tab, s, m) <= Count(tab, s, n)
    ensures m < n && tab[m] == s ==> Count(tab, s, m) < Count(tab, s, n)
  {
    if m < n {
      CountMonotone(tab, s, m, n - 1);
    }
  }

  /** Every rank below the number of occurrences is the rank of one of them. */
  lemma {:induction false} CountReaches(tab: seq<int>, s: int, n: nat, r: nat) returns (x: nat)
    requires n <= |tab| && r < Count(tab, s, n)
    ensures x < n && tab[x] == s && Count(tab, s, x) == r
  {
    if r < Count(tab, s, n - 1) {
      x := CountReaches(tab, s, n - 1, r);
    } else {
      x := n - 1;
    }
  }

  /** What the first two loops leave: every state below m has a symbol, and every symbol its number of states. */
  ghost predicate Spread(tab: seq<int>, dist: seq<nat>, m: nat)
  {
    && m <= |tab|
    && (forall x :: 0 <= x < m ==> 0 <= tab[x] < |dist| && dist[tab[x]] > 1)
    && (forall s :: 0 <= s < |dist| && dist[s] > 1 ==> Count(tab, s, m) == dist[s] - 1)
  }

  /** It is the turn of symbol s after j states have been given out, in the order of the symbols. */
  ghost predicate Turn(s: int, dist: seq<nat>, j: nat)
  {
    0 <= s < |dist| && SpreadSlots(dist[..s]) <= j < SpreadSlots(dist[..s + 1])
  }

  /** The states that the first t steps come to have been given out in turn. */
  ghost predicate InTurn(tab: seq<int>, dist: seq<nat>, step: nat, n: Pos, m: nat, t: nat)
  {
    m <= |tab| && forall u: nat :: u < t && Orbit(step, n, u) < m ==> Turn(tab[Orbit(step, n, u)], dist, |Visited(step, n, m, u)|)
  }

  ghost predicate GoodDistribution(dist: seq<nat>, log: nat)
  {
    && 5 <= log <= 20 && |dist| <= 64 && TotalSlots(dist) == Pow2(log)
    && (forall s :: 0 <= s < |dist| ==> dist[s] <= Pow2(log) + 1)
  }

  /** One symbol has all the states. */
  predicate OneTakesAll(dist: seq<nat>, log: nat)
  {
    exists s :: 0 <= s < |dist| && dist[s] == Pow2(log) + 1
  }

  /** A finished table: the states below m by the rank of their symbol, the rest for the symbols "less than one". */
  ghost predicate Built(table: seq<int>, dist: seq<nat>, log: nat, spread: seq<int>)
    requires GoodDistribution(dist, log)
  {
    var n, m := Pow2(log), SpreadSlots(dist);
    && |table| == n && m + |LowSyms(dist)| == n && Spread(spread, dist, m) && InTurn(spread, dist, Step(log), n, m, n)
    && (forall x :: 0 <= x < m ==> table[x] == SpreadEntry(spread, dist, log, m, x))
    && (forall k :: 0 <= k < |LowSyms(dist)| ==> table[n - 1 - k] == Entry(log, LowSyms(dist)[k], 0))
  }

  ghost function SpreadEntry(spread: seq<int>, dist: seq<nat>, log: nat, m: nat, x: nat): int
    requires GoodDistribution(dist, log) && Spread(spread, dist, m) && x < m
  {
    var s := spread[x];
    var c, r := dist[s] - 1, Count(spread, s, x);
    CountMonotone(spread, s, x, m);
    StateWithin(log, c, r);
    Entry(StateBits(log, c, r), s, StateBase(log, c, r))
  }

  lemma {:induction false} LowSymsAre(dist: seq<nat>, s: nat)
    requires s < |dist| && dist[s] == 0
    ensures exists k :: 0 <= k < |LowSyms(dist)| && LowSyms(dist)[k] == s
  {
    var n := |dist| - 1;
    if s == n {
      assert LowSyms(dist)[|LowSyms(dist)| - 1] == s;
    } else {
      LowSymsAre(dist[..n], s);
      var k :| 0 <= k < |LowSyms(dist[..n])| && LowSyms(dist[..n])[k] == s;
      assert LowSyms(dist)[k] == s;
    }
  }

  lemma {:induction false} LowSymsOnly(dist: seq<nat>)
    ensures forall k :: 0 <= k < |LowSyms(dist)| ==> 0 <= LowSyms(dist)[k] < |dist| && dist[LowSyms(dist)[k]] == 0
    ensures forall j, k :: 0 <= j < k < |LowSyms(dist)| ==> LowSyms(dist)[j] < LowSyms(dist)[k]
  {
    if dist != [] {
      LowSymsOnly(dist[..|dist| - 1]);
    }
  }

  /** State x of the table belongs to symbol s and can lead to state y. */
  ghost predicate LeadsTo(table: seq<int>, x: nat, s: nat, y: nat)
    requires x < |table|
  {
    && EntrySym(table[x]) == s && 0 <= EntryBits(table[x])
    && EntryBase(table[x]) <= y < EntryBase(table[x]) + Pow2(EntryBits(table[x]))
  }

  /** The entry of a state, taken apart. */
  lemma {:induction false} SpreadFields(table: seq<int>, dist: seq<nat>, log: nat, spread: seq<int>, x: nat)
    requires GoodDistribution(dist, log) && Built(table, dist, log, spread) && x < SpreadSlots(dist)
    ensures var s := spread[x];
      && 0 <= s < |dist| && dist[s] > 1 && Count(spread, s, x) < dist[s] - 1 <= Pow2(log)
      && Log2(dist[s] - 1) <= log
      && (Count(spread, s, x) >= 2 * Pow2(Log2(dist[s] - 1)) - (dist[s] - 1) ==> Log2(dist[s] - 1) < log)
      && EntrySym(table[x]) == s
      && EntryBits(table[x]) == StateBits(log, dist[s] - 1, Count(spread, s, x))
      && EntryBase(table[x]) == StateBase(log, dist[s] - 1, Count(spread, s, x))
  {
    var s := spread[x];
    var m := SpreadSlots(dist);
    CountMonotone(spread, s, x, m);
    var c, r := dist[s] - 1, Count(spread, s, x);
    StateWithin(log, c, r);
    EntryFields(StateBits(log, c, r), s, StateBase(log, c, r));
    assert table[x] == SpreadEntry(spread, dist, log, m, x);
  }

  lemma {:induction false} SpreadState(table: seq<int>, dist: seq<nat>, log: nat, spread: seq<int>, x: nat)
    requires GoodDistribution(dist, log) && Built(table, dist, log, spread) && x < SpreadSlots(dist)
    ensures var s := spread[x];
      && 0 <= s < |dist| && dist[s] > 1 && Count(spread, s, x) < dist[s] - 1 <= Pow2(log)
      && EntrySym(table[x]) == s
      && forall y: nat :: y < Pow2(log) ==> (LeadsTo(table, x, s, y) <==> Covers(log, dist[s] - 1, Count(spread, s, x), y))
  {
    SpreadFields(table, dist, log, spread, x);
    StateWithin(log, dist[spread[x]] - 1, Count(spread, spread[x], x));
  }

  lemma {:induction false} LowState(table: seq<int>, dist: seq<nat>, log: nat, spread: seq<int>, k: nat)
    requires GoodDistribution(dist, log) && Built(table, dist, log, spread) && k < |LowSyms(dist)|
    ensures k < Pow2(log) && 0 <= LowSyms(dist)[k] < |dist| && dist[LowSyms(dist)[k]] == 0
    ensures EntrySym(table[Pow2(log) - 1 - k]) == LowSyms(dist)[k]
    ensures EntryBits(table[Pow2(log) - 1 - k]) == log && EntryBase(table[Pow2(log) - 1 - k]) == 0
  {
    LowSymsOnly(dist);
    EntryFields(log, LowSyms(dist)[k], 0);
  }

  lemma {:induction false} TileReachesSpread(table: seq<int>, dist: seq<nat>, log: nat, spread: seq<int>, s: nat,
                                             y: nat) returns (x: nat)
    requires GoodDistribution(dist, log) && Built(table, dist, log, spread)
    requires s < |dist| && dist[s] > 1 && y < Pow2(log)
    ensures x < SpreadSlots(dist) <= Pow2(log) && LeadsTo(table, x, s, y)
  {
    var counter := Owner(log, dist[s] - 1, y);
    x := CountReaches(spread, s, SpreadSlots(dist), counter);
    SpreadState(table, dist, log, spread, x);
    assert Covers(log, dist[s] - 1, counter, y);
  }

  /** For every symbol and every state y there is a state of the symbol that leads to y. */
  lemma {:induction false} TileReaches(table: seq<int>, dist: seq<nat>, log: nat, spread: seq<int>, s: nat, y: nat) returns (x: nat)
    requires GoodDistribution(dist, log) && Built(table, dist, log, spread)
    requires s < |dist| && dist[s] != 1 && y < Pow2(log)
    ensures x < Pow2(log) && LeadsTo(table, x, s, y)
  {
    if dist[s] == 0 {
      LowSymsAre(dist, s);
      var k :| 0 <= k < |LowSyms(dist)| && LowSyms(dist)[k] == s;
      LowState(table, dist, log, spread, k);
      x := Pow2(log) - 1 - k;
    } else {
      x := TileReachesSpread(table, dist, log, spread, s, y);
    }
  }

  /** Whose state x is. */
  lemma {:induction false} StateOf(table: seq<int>, dist: seq<nat>, log: nat, spread: seq<int>, x: nat, s: nat)
    requires GoodDistribution(dist, log) && Built(table, dist, log, spread)
    requires x < Pow2(log) && s < |dist| && EntrySym(table[x]) == s
    ensures dist[s] > 1 ==> x < SpreadSlots(dist) && spread[x] == s
    ensures dist[s] <= 1 ==> dist[s] == 0 && Pow2(log) - 1 - x < |LowSyms(dist)|
    ensures dist[s] <= 1 ==> LowSyms(dist)[Pow2(log) - 1 - x] == s
  {
    if x < SpreadSlots(dist) {
      SpreadState(table, dist, log, spread, x);
    } else {
      LowState(table, dist, log, spread, Pow2(log) - 1 - x);
    }
  }

  lemma {:induction false} TileUniqueSpread(table: seq<int>, dist: seq<nat>, log: nat, spread: seq<int>, s: nat, y: nat,
                                            x1: nat, x2: nat)
    requires GoodDistribution(dist, log) && Built(table, dist, log, spread)
    requires s < |dist| && dist[s] > 1 && y < Pow2(log) && x1 <= x2 < SpreadSlots(dist) && spread[x1] == spread[x2] == s
    requires LeadsTo(table, x1, s, y) && LeadsTo(table, x2, s, y)
    ensures x1 == x2
  {
    SpreadState(table, dist, log, spread, x1);
    SpreadState(table, dist, log, spread, x2);
    CoversOwner(log, dist[s] - 1, Count(spread, s, x1), y);
    CoversOwner(log, dist[s] - 1, Count(spread, s, x2), y);
    CountMonotone(spread, s, x1, x2);
  }

  /** ... and there is only one: the intervals of a symbol's states tile the state space. */
  lemma {:induction false} TileUnique(table: seq<int>, dist: seq<nat>, log: nat, spread: seq<int>, s: nat, y: nat,
                                      x1: nat, x2: nat)
    requires GoodDistribution(dist, log) && Built(table, dist, log, spread)
    requires s < |dist| && y < Pow2(log) && x1 <= x2 < Pow2(log)
    requires LeadsTo(table, x1, s, y) && LeadsTo(table, x2, s, y)
    ensures x1 == x2
  {
    StateOf(table, dist, log, spread, x1, s);
    StateOf(table, dist, log, spread, x2, s);
    if dist[s] > 1 {
      TileUniqueSpread(table, dist, log, spread, s, y, x1, x2);
    } else {
      LowSymsOnly(dist);
    }
  }

  /** No step leaves the table, whatever bits are read. */
  lemma {:induction false} StateStaysInside(table: seq<int>, dist: seq<nat>, log: nat, spread: seq<int>, x: nat,
                                            read: nat)
    requires GoodDistribution(dist, log) && Built(table, dist, log, spread) && x < Pow2(log)
    ensures 0 <= EntryBits(table[x]) <= log && 0 <= EntryBase(table[x]) && 0 <= EntrySym(table[x]) < |dist|
    ensures read < Pow2(EntryBits(table[x])) ==> EntryBase(table[x]) + read < Pow2(log)
  {
    var m := SpreadSlots(dist);
    if x < m {
      SpreadFields(table, dist, log, spread, x);
      StateWithin(log, dist[spread[x]] - 1, Count(spread, spread[x], x));
    } else {
      LowState(table, dist, log, spread, Pow2(log) - 1 - x);
    }
  }

  // ---- fse_build_table -----------------------------------------------------

  /** lines 89-95 */
  method PlaceLow(log: nat, dist: seq<nat>, table: array<int>) returns (numLow: nat)
    requires GoodDistribution(dist, log) && Pow2(log) <= table.Length
    modifies table
    ensures numLow == |LowSyms(dist)| <= Pow2(log)
    ensures forall k :: 0 <= k < numLow ==> table[Pow2(log) - 1 - k] == Entry(log, LowSyms(dist)[k], 0)
  {
    SlotsSplit(dist);
    numLow := 0;
    for sym := 0 to |dist|
      invariant numLow == |LowSyms(dist[..sym])| && LowSyms(dist[..sym]) <= LowSyms(dist)
      invariant forall k :: 0 <= k < numLow ==> table[Pow2(log) - 1 - k] == Entry(log, LowSyms(dist)[k], 0)
    {
      assert dist[..sym + 1][..sym] == dist[..sym];
      LowSymsPrefix(dist, sym + 1);
      if dist[sym] == 0 {
        table[Pow2(log) - 1 - numLow] := log + 32 * sym;
        numLow := numLow + 1;
      }
    }
    assert dist[..|dist|] == dist;
  }

  lemma {:induction false} LowSymsPrefix(dist: seq<nat>, n: nat)
    requires n <= |dist|
    ensures LowSyms(dist[..n]) <= LowSyms(dist)
    decreases |dist|
  {
    if n == |dist| {
      assert dist[..n] == dist;
    } else {
      var d := dist[..|dist| - 1];
      assert d[..n] == dist[..n];
      LowSymsPrefix(d, n);
    }
  }

  /** Each filled position is known to the set of its symbol, and each set holds filled positions. */
  ghost predicate Filled(tab: seq<int>, filled: set<nat>, sets: seq<set<nat>>, m: nat)
  {
    && m <= |tab|
    && (forall x :: x in filled ==> x < m && 0 <= tab[x] < |sets| && x in sets[tab[x]])
    && (forall s, x :: 0 <= s < |sets| && x in sets[s] ==> x in filled && tab[x] == s)
  }

  lemma {:induction false} FilledStep(tab: seq<int>, tab': seq<int>, filled: set<nat>, sets: seq<set<nat>>, m: nat,
                                      pos: nat, sym: nat)
    requires Filled(tab, filled, sets, m) && |sets| == sym + 1 && pos < m && pos !in filled
    requires |tab'| == |tab| && tab' == tab[pos := sym]
    ensures Filled(tab', filled + {pos}, sets[sym := sets[sym] + {pos}], m)
    ensures pos !in sets[sym]
  {
    var sets' := sets[sym := sets[sym] + {pos}];
    assert pos !in sets[sym];
    forall x | x in filled + {pos}
      ensures x < m && 0 <= tab'[x] < |sets'| && x in sets'[tab'[x]]
    {
      if x != pos {
        assert x in filled && tab'[x] == tab[x] && x in sets[tab[x]];
      }
    }
    forall s, x | 0 <= s < |sets'| && x in sets'[s]
      ensures x in filled + {pos} && tab'[x] == s
    {
      if !(s == sym && x == pos) {
        assert x in sets[s];
      }
    }
  }

  /** A symbol's set is where the symbol is. */
  lemma {:induction false} FilledMember(tab: seq<int>, sets: seq<set<nat>>, m: nat, s: nat, x: nat)
    requires Filled(tab, Range(m), sets, m) && s < |sets|
    ensures x in sets[s] <==> x < m && tab[x] == s
  {
    if x in sets[s] {
      assert x in Range(m);
    }
    if x < m && tab[x] == s {
      assert x in Range(m);
    }
  }

  /** lines 113-117: the next free position that is not reserved. */
  method NextPosition(pos: nat, ghost t: nat, step: nat, n: Pos, m: nat) returns (pos': nat, ghost t': nat)
    requires 0 < m <= n && t < n && pos == Orbit(step, n, t) < m
    ensures t < t' <= n && pos' == Orbit(step, n, t') < m
    ensures Visited(step, n, m, t') == Visited(step, n, m, t) + {pos}
    ensures forall u :: t < u < t' ==> Orbit(step, n, u) >= m
  {
    OrbitReturns(step, n);
    pos', t' := (pos + step) % n, t + 1;
    while pos' >= m
      invariant t < t' <= n && pos' == Orbit(step, n, t')
      invariant Visited(step, n, m, t') == Visited(step, n, m, t) + {pos}
      invariant forall u :: t < u < t' ==> Orbit(step, n, u) >= m
      decreases n - t'
    {
      pos', t' := (pos' + step) % n, t' + 1;
    }
  }

  /** Where the spreading of symbols has got to after t steps. */
  ghost predicate Spreading(tab: seq<int>, sets: seq<set<nat>>, step: nat, log: nat, m: nat, t: nat, pos: nat)
  {
    && step % 2 == 1 && m <= Pow2(log) && t <= Pow2(log) && m <= |tab|
    && pos == Orbit(step, Pow2(log), t) && (if m > 0 then pos < m else t == 0)
    && Filled(tab, Visited(step, Pow2(log), m, t), sets, m)
  }

  /** While states are left to fill, the round is not over. */
  lemma {:induction false} RoundNotOver(step: nat, log: nat, m: nat, t: nat)
    requires step % 2 == 1 && m <= Pow2(log) && t <= Pow2(log)
    requires |Visited(step, Pow2(log), m, t)| < m
    ensures t < Pow2(log)
  {
    FullCycle(step, log, m);
  }

  /** When all states are filled the round is over, and the position is 0 again (line 120). */
  lemma {:induction false} RoundOver(step: nat, log: nat, m: nat, t: nat)
    requires step % 2 == 1 && m <= Pow2(log) && t <= Pow2(log)
    requires |Visited(step, Pow2(log), m, t)| == m
    ensures Visited(step, Pow2(log), m, t) == Range(m)
    ensures m > 0 && Orbit(step, Pow2(log), t) < m ==> Orbit(step, Pow2(log), t) == 0
  {
    var n := Pow2(log);
    var v := Visited(step, n, m, t);
    forall x | x in v
      ensures x < m
    {
      var u := VisitedWhen(step, n, m, t, x);
    }
    SubsetFull(v, m);
    OrbitReturns(step, n);
    if t < n {
      OrbitFresh(step, log, m, t);
      assert Orbit(step, n, t) !in Range(m);
    }
  }

  lemma {:induction false} VisitedGrows(step: nat, n: Pos, m: nat, t: nat, t': nat)
    requires t <= t'
    ensures Visited(step, n, m, t) <= Visited(step, n, m, t')
    decreases t' - t
  {
    if t < t' {
      VisitedGrows(step, n, m, t, t' - 1);
    }
  }

  /** One state more has been given out in turn. */
  lemma {:induction false} TurnStep(tab: seq<int>, tab': seq<int>, dist: seq<nat>, step: nat, log: nat, m: nat, t: nat,
                                    t': nat, pos: nat, sym: nat)
    requires InTurn(tab, dist, step, Pow2(log), m, t) && step % 2 == 1 && t < t' && t < Pow2(log)
    requires pos == Orbit(step, Pow2(log), t) < m && tab' == tab[pos := sym]
    requires Turn(sym, dist, |Visited(step, Pow2(log), m, t)|)
    requires forall u :: t < u < t' ==> Orbit(step, Pow2(log), u) >= m
    ensures InTurn(tab', dist, step, Pow2(log), m, t')
  {
    OrbitFresh(step, log, m, t);
    forall u: nat | u < t' && Orbit(step, Pow2(log), u) < m
      ensures Turn(tab'[Orbit(step, Pow2(log), u)], dist, |Visited(step, Pow2(log), m, u)|)
    {
      TurnKept(tab, tab', dist, step, Pow2(log), m, t, pos, sym, u);
    }
  }

  lemma {:induction false} TurnKept(tab: seq<int>, tab': seq<int>, dist: seq<nat>, step: nat, n: Pos, m: nat, t: nat,
                                    pos: nat, sym: nat, u: nat)
    requires InTurn(tab, dist, step, n, m, t) && pos == Orbit(step, n, t) < m && pos !in Visited(step, n, m, t)
    requires tab' == tab[pos := sym] && Turn(sym, dist, |Visited(step, n, m, t)|) && u <= t && Orbit(step, n, u) < m
    ensures Turn(tab'[Orbit(step, n, u)], dist, |Visited(step, n, m, u)|)
  {
    if u < t {
      VisitedHas(step, n, m, t, u);
    }
  }

  /** After the last state the rest of the round comes to none. */
  lemma {:induction false} TurnsOver(tab: seq<int>, dist: seq<nat>, step: nat, log: nat, m: nat, t: nat)
    requires InTurn(tab, dist, step, Pow2(log), m, t) && step % 2 == 1 && t <= Pow2(log)
    requires Visited(step, Pow2(log), m, t) == Range(m)
    ensures InTurn(tab, dist, step, Pow2(log), m, Pow2(log))
  {
    forall u: nat | t <= u < Pow2(log) ensures Orbit(step, Pow2(log), u) >= m {
      OrbitFresh(step, log, m, u);
      VisitedGrows(step, Pow2(log), m, t, u);
    }
  }

  lemma {:induction false} SpreadSlotsGrow(dist: seq<nat>, a: nat, b: nat)
    requires a <= b <= |dist|
    ensures SpreadSlots(dist[..a]) <= SpreadSlots(dist[..b])
  {
    assert dist[..b][..a] == dist[..a];
    SpreadSlotsPrefix(dist[..b], a);
  }

  lemma {:induction false} TurnUnique(s: int, s': int, dist: seq<nat>, j: nat)
    requires Turn(s, dist, j) && Turn(s', dist, j)
    ensures s == s'
  {
    if s < s' {
      SpreadSlotsGrow(dist, s + 1, s');
    } else if s' < s {
      SpreadSlotsGrow(dist, s' + 1, s);
    }
  }

  /** There is one table that a distribution can be built into. */
  lemma {:induction false} BuiltUnique(table: seq<int>, table': seq<int>, dist: seq<nat>, log: nat, spread: seq<int>,
                                       spread': seq<int>)
    requires GoodDistribution(dist, log) && Built(table, dist, log, spread) && Built(table', dist, log, spread')
    ensures table == table'
  {
    var n, m := Pow2(log), SpreadSlots(dist);
    SpreadUnique(dist, log, m, spread, spread');
    forall x | 0 <= x < n ensures table[x] == table'[x] {
      if x < m {
        SameEntry(dist, log, m, spread, spread', x);
      } else {
        var k := n - 1 - x;
        assert k < |LowSyms(dist)| && table[n - 1 - k] == Entry(log, LowSyms(dist)[k], 0);
      }
    }
  }

  lemma {:induction false} SpreadUnique(dist: seq<nat>, log: nat, m: nat, spread: seq<int>, spread': seq<int>)
    requires log >= 5 && m <= Pow2(log) && InTurn(spread, dist, Step(log), Pow2(log), m, Pow2(log))
    requires InTurn(spread', dist, Step(log), Pow2(log), m, Pow2(log))
    ensures spread[..m] == spread'[..m]
  {
    StepOdd(log);
    FullCycle(Step(log), log, m);
    forall x | 0 <= x < m ensures spread[x] == spread'[x] {
      assert x in Range(m);
      var u := VisitedWhen(Step(log), Pow2(log), m, Pow2(log), x);
      TurnUnique(spread[x], spread'[x], dist, |Visited(Step(log), Pow2(log), m, u)|);
    }
  }

  lemma {:induction false} CountSame(tab: seq<int>, tab': seq<int>, s: int, n: nat)
    requires n <= |tab| && n <= |tab'| && tab[..n] == tab'[..n]
    ensures Count(tab, s, n) == Count(tab', s, n)
  {
    if n > 0 {
      assert tab[..n][..n - 1] == tab[..n - 1] && tab'[..n][..n - 1] == tab'[..n - 1];
      assert tab[n - 1] == tab[..n][n - 1] && tab'[n - 1] == tab'[..n][n - 1];
      CountSame(tab, tab', s, n - 1);
    }
  }

  lemma {:induction false} SameEntry(dist: seq<nat>, log: nat, m: nat, spread: seq<int>, spread': seq<int>, x: nat)
    requires GoodDistribution(dist, log) && Spread(spread, dist, m) && Spread(spread', dist, m) && x < m
    requires spread[..m] == spread'[..m]
    ensures SpreadEntry(spread, dist, log, m, x) == SpreadEntry(spread', dist, log, m, x)
  {
    assert spread[x] == spread[..m][x] && spread'[x] == spread'[..m][x];
    assert spread[..m][..x] == spread[..x] && spread'[..m][..x] == spread'[..x];
    CountSame(spread, spread', spread[x], x);
  }

  /** The step is that of section 4.1.1 of RFC 8878. */
  lemma {:induction false} StepIsStandard(log: nat)
    requires log >= 5
    ensures Step(log) == Pow2(log) / 2 + Pow2(log) / 8 + 3
  {
    assert Pow2(log) == 2 * Pow2(log - 1) && Pow2(log - 1) == 2 * Pow2(log - 2) && Pow2(log - 2) == 2 * Pow2(log - 3);
  }

  /** lines 113-117: one state of a symbol. */
  method PlaceOne(log: nat, step: nat, m: nat, sym: nat, table: array<int>, pos: nat, ghost t: nat,
                  ghost sets: seq<set<nat>>, ghost dist: seq<nat>)
    returns (pos': nat, ghost t': nat, ghost sets': seq<set<nat>>)
    requires m <= table.Length && |sets| == sym + 1 && Spreading(table[..], sets, step, log, m, t, pos)
    requires InTurn(table[..], dist, step, Pow2(log), m, t)
    requires |Visited(step, Pow2(log), m, t)| < m && Turn(sym, dist, |Visited(step, Pow2(log), m, t)|)
    modifies table
    ensures |sets'| == sym + 1 && |sets'[sym]| == |sets[sym]| + 1 && sets'[..sym] == sets[..sym]
    ensures Spreading(table[..], sets', step, log, m, t', pos') && InTurn(table[..], dist, step, Pow2(log), m, t')
    ensures |Visited(step, Pow2(log), m, t')| == |Visited(step, Pow2(log), m, t)| + 1
    ensures forall x :: m <= x < table.Length ==> table[x] == old(table[x])
  {
    RoundNotOver(step, log, m, t);
    OrbitFresh(step, log, m, t);
    ghost var before := table[..];
    table[pos] := sym;
    FilledStep(before, table[..], Visited(step, Pow2(log), m, t), sets, m, pos, sym);
    sets' := sets[sym := sets[sym] + {pos}];
    pos', t' := NextPosition(pos, t, step, Pow2(log), m);
    TurnStep(before, table[..], dist, step, log, m, t, t', pos, sym);
  }

  /** lines 112-118: the states of one symbol. */
  method PlaceSymbol(log: nat, step: nat, m: nat, sym: nat, count: nat, table: array<int>, pos: nat,
                     ghost t: nat, ghost sets: seq<set<nat>>, ghost dist: seq<nat>)
    returns (pos': nat, ghost t': nat, ghost sets': seq<set<nat>>)
    requires m <= table.Length && |sets| == sym + 1 && sets[sym] == {}
    requires Spreading(table[..], sets, step, log, m, t, pos) && InTurn(table[..], dist, step, Pow2(log), m, t)
    requires |Visited(step, Pow2(log), m, t)| + count <= m && sym < |dist|
    requires SpreadSlots(dist[..sym]) == |Visited(step, Pow2(log), m, t)|
    requires SpreadSlots(dist[..sym + 1]) == |Visited(step, Pow2(log), m, t)| + count
    modifies table
    ensures InTurn(table[..], dist, step, Pow2(log), m, t')
    ensures |sets'| == sym + 1 && |sets'[sym]| == count && sets'[..sym] == sets[..sym]
    ensures Spreading(table[..], sets', step, log, m, t', pos')
    ensures |Visited(step, Pow2(log), m, t')| == |Visited(step, Pow2(log), m, t)| + count
    ensures forall x :: m <= x < table.Length ==> table[x] == old(table[x])
  {
    pos', t', sets' := pos, t, sets;
    for i := 0 to count
      invariant |sets'| == sym + 1 && |sets'[sym]| == i && sets'[..sym] == sets[..sym]
      invariant Spreading(table[..], sets', step, log, m, t', pos') && InTurn(table[..], dist, step, Pow2(log), m, t')
      invariant |Visited(step, Pow2(log), m, t')| == |Visited(step, Pow2(log), m, t)| + i
      invariant forall x :: m <= x < table.Length ==> table[x] == old(table[x])
    {
      pos', t', sets' := PlaceOne(log, step, m, sym, table, pos', t', sets', dist);
    }
  }

  lemma {:induction false} SpreadSlotsPrefix(dist: seq<nat>, n: nat)
    requires n <= |dist|
    ensures SpreadSlots(dist[..n]) <= SpreadSlots(dist)
    decreases |dist|
  {
    if n == |dist| {
      assert dist[..n] == dist;
    } else {
      assert dist[..|dist| - 1][..n] == dist[..n];
      SpreadSlotsPrefix(dist[..|dist| - 1], n);
    }
  }

  /** Every symbol so far has its number of states. */
  ghost predicate Sizes(sets: seq<set<nat>>, dist: seq<nat>)
  {
    |sets| <= |dist| && forall s :: 0 <= s < |sets| ==> |sets[s]| == if dist[s] <= 1 then 0 else dist[s] - 1
  }

  lemma {:induction false} SpreadDone(tab: seq<int>, dist: seq<nat>, sets: seq<set<nat>>, step: nat, log: nat, m: nat,
                                      t: nat, pos: nat)
    requires Spreading(tab, sets, step, log, m, t, pos) && |sets| == |dist| && Sizes(sets, dist)
    requires |Visited(step, Pow2(log), m, t)| == m
    ensures Spread(tab, dist, m) && pos == 0
  {
    RoundOver(step, log, m, t);
    assert Filled(tab, Range(m), sets, m);
    forall s | 0 <= s < |dist| && dist[s] > 1
      ensures Count(tab, s, m) == dist[s] - 1
    {
      forall x: nat
        ensures x in sets[s] <==> 0 <= x < m && tab[x] == s
      {
        FilledMember(tab, sets, m, s, x);
      }
      CountIsSize(tab, s, m, sets[s]);
    }
    forall x | 0 <= x < m
      ensures 0 <= tab[x] < |dist| && dist[tab[x]] > 1
    {
      assert x in Range(m);
      assert x in sets[tab[x]];
    }
  }

  lemma {:induction false} SizesStep(earlier: seq<set<nat>>, sets: seq<set<nat>>, dist: seq<nat>)
    requires Sizes(earlier, dist) && |earlier| < |dist| && |sets| == |earlier| + 1 && sets[..|earlier|] == earlier
    requires |sets[|earlier|]| == if dist[|earlier|] <= 1 then 0 else dist[|earlier|] - 1
    ensures Sizes(sets, dist)
  {
    forall s | 0 <= s < |sets|
      ensures |sets[s]| == if dist[s] <= 1 then 0 else dist[s] - 1
    {
      if s < |earlier| {
        assert sets[s] == sets[..|earlier|][s];
      }
    }
  }

  lemma {:induction false} FilledExtend(tab: seq<int>, filled: set<nat>, sets: seq<set<nat>>, m: nat)
    requires Filled(tab, filled, sets, m)
    ensures Filled(tab, filled, sets + [{}], m)
  {
  }

  /** lines 100-119, for one symbol. */
  method SpreadOne(log: nat, step: nat, dist: seq<nat>, sym: nat, m: nat, table: array<int>, pos: nat,
                   ghost t: nat, ghost sets: seq<set<nat>>)
    returns (pos': nat, ghost t': nat, ghost sets': seq<set<nat>>)
    requires sym < |dist| && m == SpreadSlots(dist) <= table.Length
    requires |sets| == sym && Sizes(sets, dist) && Spreading(table[..], sets, step, log, m, t, pos)
    requires InTurn(table[..], dist, step, Pow2(log), m, t)
    requires |Visited(step, Pow2(log), m, t)| == SpreadSlots(dist[..sym])
    modifies table
    ensures |sets'| == sym + 1 && Sizes(sets', dist) && Spreading(table[..], sets', step, log, m, t', pos')
    ensures InTurn(table[..], dist, step, Pow2(log), m, t')
    ensures |Visited(step, Pow2(log), m, t')| == SpreadSlots(dist[..sym + 1])
    ensures forall x :: m <= x < table.Length ==> table[x] == old(table[x])
  {
    assert dist[..sym + 1][..sym] == dist[..sym];
    SpreadSlotsPrefix(dist, sym + 1);
    FilledExtend(table[..], Visited(step, Pow2(log), m, t), sets, m);
    pos', t', sets' := pos, t, sets + [{}];
    if dist[sym] > 1 {
      pos', t', sets' := PlaceSymbol(log, step, m, sym, dist[sym] - 1, table, pos, t, sets', dist);
    }
    SizesStep(sets, sets', dist);
  }

  /** lines 96-120 */
  method SpreadSymbols(log: nat, dist: seq<nat>, table: array<int>, numLow: nat)
    requires GoodDistribution(dist, log) && Pow2(log) <= table.Length && numLow == |LowSyms(dist)|
    modifies table
    ensures SpreadSlots(dist) <= Pow2(log) && Spread(table[..], dist, SpreadSlots(dist))
    ensures InTurn(table[..], dist, Step(log), Pow2(log), SpreadSlots(dist), Pow2(log))
    ensures forall x :: SpreadSlots(dist) <= x < table.Length ==> table[x] == old(table[x])
  {
    var step := Step(log);
    SlotsSplit(dist);
    StepOdd(log);
    var m := Pow2(log) - numLow;
    var pos: nat := 0;
    ghost var t: nat, sets: seq<set<nat>> := 0, [];
    for sym := 0 to |dist|
      invariant |sets| == sym && Spreading(table[..], sets, step, log, m, t, pos)
      invariant |Visited(step, Pow2(log), m, t)| == SpreadSlots(dist[..sym])
      invariant Sizes(sets, dist) && InTurn(table[..], dist, step, Pow2(log), m, t)
      invariant forall x :: m <= x < table.Length ==> table[x] == old(table[x])
    {
      pos, t, sets := SpreadOne(log, step, dist, sym, m, table, pos, t, sets);
    }
    assert dist[..|dist|] == dist;
    SpreadDone(table[..], dist, sets, step, log, m, t, pos);
    RoundOver(step, log, m, t);
    TurnsOver(table[..], dist, step, log, m, t);
    assert pos == 0;
  }

  /** lines 101-111: the two widths and the cutoff between them, for every symbol. */
  method CacheWidths(log: nat, dist: seq<nat>) returns (numBits: array<int>, cutoff: array<int>)
    requires GoodDistribution(dist, log)
    ensures fresh(numBits) && fresh(cutoff) && numBits.Length == |dist| == cutoff.Length
    ensures WidthsCached(log, dist, numBits, cutoff)
  {
    numBits, cutoff := new int[|dist|], new int[|dist|];
    for sym := 0 to |dist|
      invariant forall s :: 0 <= s < sym && dist[s] > 1 ==>
                  && numBits[s] == log - Log2(dist[s] - 1)
                  && cutoff[s] == 2 * Pow2(Log2(dist[s] - 1)) - (dist[s] - 1)
    {
      if dist[sym] <= 1 {
        numBits[sym], cutoff[sym] := log, Pow2(log);
      } else {
        var len := Log2(dist[sym] - 1);
        numBits[sym], cutoff[sym] := log - len, 2 * Pow2(len) - (dist[sym] - 1);
      }
    }
  }

  /**
   lines 125-138: one state, from its symbol's numbers and the symbol's states before it. ok is
   the assertion of line 137.
   */
  method StateEntry(log: nat, sym: nat, c: Pos, numBits: int, cutoff: int, counter: nat) returns (ok: bool, e: int)
    requires c <= Pow2(log) && counter < c && sym < 64
    requires numBits == log - Log2(c) && cutoff == 2 * Pow2(Log2(c)) - c
    ensures Log2(c) <= log && (counter >= 2 * Pow2(Log2(c)) - c ==> Log2(c) < log)
    ensures ok <==> !(c == Pow2(log) && counter == c - 1)
    ensures e == Entry(StateBits(log, c, counter), sym, StateBase(log, c, counter))
  {
    StateWithin(log, c, counter);
    BaseAssertion(log, c, counter);
    var base, readBits;
    if counter < cutoff {
      readBits := numBits;
      base := counter + Pow2(log - numBits) - cutoff;
    } else {
      readBits := numBits - 1;
      base := counter - cutoff;
    }
    base := base * Pow2(readBits);
    ok := base < Pow2(log) - 1;
    e := readBits + 32 * sym + 2048 * base;
  }

  /** What the symbols' numbers are while the third loop runs. */
  ghost predicate WidthsCached(log: nat, dist: seq<nat>, numBits: array<int>, cutoff: array<int>)
    requires numBits.Length == |dist| == cutoff.Length
    reads numBits, cutoff
  {
    forall s :: 0 <= s < |dist| && dist[s] > 1 ==>
      && numBits[s] == log - Log2(dist[s] - 1)
      && cutoff[s] == 2 * Pow2(Log2(dist[s] - 1)) - (dist[s] - 1)
  }

  /** State i is not the last one of a symbol that has them all. */
  ghost predicate AssertionHolds(spread: seq<int>, dist: seq<nat>, log: nat, i: nat)
    requires i < |spread| && 0 <= spread[i] < |dist|
  {
    !(dist[spread[i]] == Pow2(log) + 1 && Count(spread, spread[i], i) == Pow2(log) - 1)
  }

  ghost predicate HoldsBelow(spread: seq<int>, dist: seq<nat>, log: nat, m: nat, i: nat)
    requires Spread(spread, dist, m) && i <= m
  {
    forall x :: 0 <= x < i ==> AssertionHolds(spread, dist, log, x)
  }

  lemma {:induction false} OneHolds(spread: seq<int>, dist: seq<nat>, log: nat, m: nat, i: nat)
    requires Spread(spread, dist, m) && i < m && HoldsBelow(spread, dist, log, m, i)
    ensures AssertionHolds(spread, dist, log, i) ==> HoldsBelow(spread, dist, log, m, i + 1)
    ensures !AssertionHolds(spread, dist, log, i) ==> OneTakesAll(dist, log)
  {
  }

  /** If the assertion holds for every state, no symbol has all of them. */
  lemma {:induction false} AllHold(spread: seq<int>, dist: seq<nat>, log: nat, m: nat)
    requires Spread(spread, dist, m) && HoldsBelow(spread, dist, log, m, m)
    ensures !OneTakesAll(dist, log)
  {
    forall s | 0 <= s < |dist| ensures dist[s] != Pow2(log) + 1 {
      if dist[s] == Pow2(log) + 1 {
        var x := CountReaches(spread, s, m, Pow2(log) - 1);
        assert AssertionHolds(spread, dist, log, x);
      }
    }
  }

  /** lines 122-138: the entry of state i. */
  method FillState(log: nat, dist: seq<nat>, numBits: array<int>, cutoff: array<int>, counter: array<nat>, i: nat,
                   sym: int, ghost m: nat, ghost spread: seq<int>)
    returns (ok: bool, e: int)
    requires GoodDistribution(dist, log) && Spread(spread, dist, m) && i < m && sym == spread[i]
    requires numBits.Length == |dist| == cutoff.Length == counter.Length && WidthsCached(log, dist, numBits, cutoff)
    requires counter[..] == Counts(spread, |dist|, i)
    modifies counter
    ensures ok <==> AssertionHolds(spread, dist, log, i)
    ensures e == SpreadEntry(spread, dist, log, m, i)
    ensures counter[..] == Counts(spread, |dist|, i + 1)
  {
    assert 0 <= sym < |dist| && dist[sym] > 1;
    var thisCounter := counter[sym];
    assert thisCounter == counter[..][sym] == Count(spread, sym, i);
    CountMonotone(spread, sym, i, m);
    counter[sym] := thisCounter + 1;
    ok, e := StateEntry(log, sym, dist[sym] - 1, numBits[sym], cutoff[sym], thisCounter);
  }

  /** How many of the first i states each symbol has. */
  ghost function Counts(spread: seq<int>, numSym: nat, i: nat): seq<nat>
    requires i <= |spread|
  {
    seq(numSym, s => Count(spread, s, i))
  }

  ghost predicate EntriesDone(done: seq<int>, spread: seq<int>, dist: seq<nat>, log: nat, m: nat)
    requires GoodDistribution(dist, log) && Spread(spread, dist, m)
  {
    |done| <= m && forall x :: 0 <= x < |done| ==> done[x] == SpreadEntry(spread, dist, log, m, x)
  }

  lemma {:induction false} EntriesStep(done: seq<int>, e: int, spread: seq<int>, dist: seq<nat>, log: nat, m: nat)
    requires GoodDistribution(dist, log) && Spread(spread, dist, m) && EntriesDone(done, spread, dist, log, m)
    requires |done| < m && e == SpreadEntry(spread, dist, log, m, |done|)
    ensures EntriesDone(done + [e], spread, dist, log, m)
  {
  }

  /** Store the entry of the next state over its symbol. */
  method StoreState(table: array<int>, i: nat, e: int, ghost done: seq<int>, ghost spread: seq<int>)
    requires i < table.Length == |spread| && |done| == i && table[..] == done + spread[i..]
    modifies table
    ensures table[..] == done + [e] + spread[i + 1..]
  {
    table[i] := e;
  }

  /** lines 121-139, for state i. */
  method FillOne(log: nat, dist: seq<nat>, table: array<int>, numBits: array<int>, cutoff: array<int>,
                 counter: array<nat>, i: nat, ghost m: nat, ghost spread: seq<int>, ghost done: seq<int>)
    returns (ok: bool, ghost done': seq<int>)
    requires GoodDistribution(dist, log) && Spread(spread, dist, m) && i < m <= table.Length == |spread|
    requires numBits.Length == |dist| == cutoff.Length == counter.Length && WidthsCached(log, dist, numBits, cutoff)
    requires table != numBits && table != cutoff
    requires |done| == i && EntriesDone(done, spread, dist, log, m) && table[..] == done + spread[i..]
    requires counter[..] == Counts(spread, |dist|, i)
    modifies table, counter
    ensures ok <==> AssertionHolds(spread, dist, log, i)
    ensures |done'| == i + 1 && EntriesDone(done', spread, dist, log, m) && table[..] == done' + spread[i + 1..]
    ensures counter[..] == Counts(spread, |dist|, i + 1)
  {
    var sym := table[i];
    assert sym == table[..][i] == spread[i];
    var e;
    ok, e := FillState(log, dist, numBits, cutoff, counter, i, sym, m, spread);
    EntriesStep(done, e, spread, dist, log, m);
    StoreState(table, i, e, done, spread);
    done' := done + [e];
  }

  /** lines 121-139, as far as the assertion of line 137 holds. */
  method FillStates(log: nat, dist: seq<nat>, table: array<int>, m: nat, ghost spread: seq<int>)
    returns (ok: bool, ghost done: seq<int>)
    requires GoodDistribution(dist, log) && m <= table.Length && spread == table[..] && Spread(spread, dist, m)
    modifies table
    ensures ok <==> !OneTakesAll(dist, log)
    ensures ok ==> |done| == m && EntriesDone(done, spread, dist, log, m) && table[..] == done + spread[m..]
  {
    var numBits, cutoff := CacheWidths(log, dist);
    var counter := new nat[|dist|](_ => 0);
    ok, done := true, [];
    for i := 0 to m
      invariant ok && |done| == i && EntriesDone(done, spread, dist, log, m)
      invariant HoldsBelow(spread, dist, log, m, i)
      invariant table[..] == done + spread[i..]
      invariant counter[..] == Counts(spread, |dist|, i)
      invariant WidthsCached(log, dist, numBits, cutoff)
    {
      OneHolds(spread, dist, log, m, i);
      ok, done := FillOne(log, dist, table, numBits, cutoff, counter, i, m, spread, done);
      if !ok {
        return;
      }
    }
    AllHold(spread, dist, log, m);
  }

  /** lines 85-141: ok is that no assertion fails. */
  method BuildTable(log: nat, dist: seq<nat>, table: array<int>) returns (ok: bool, ghost spread: seq<int>)
    requires GoodDistribution(dist, log) && Pow2(log) <= table.Length
    modifies table
    ensures ok <==> !OneTakesAll(dist, log)
    ensures ok ==> Built(table[..Pow2(log)], dist, log, spread)
  {
    SlotsSplit(dist);
    var numLow := PlaceLow(log, dist, table);
    SpreadSymbols(log, dist, table, numLow);
    spread := table[..];
    ghost var done;
    ok, done := FillStates(log, dist, table, Pow2(log) - numLow, spread);
  }
}
