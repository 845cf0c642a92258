/**
 compression/zstd_literals.c: from the weights of the symbols to the Huffman table (section
 4.2.1 of RFC 8878). Widths are parameters: the source's table is indexed by depth = 11 bits.
 */
module ZstdHuff {
  import opened Basics
  import opened Bits

  // ---- sorting by weight ---------------------------------------------------

  ghost predicate Before(w: seq<nat>, a: nat, b: nat)
    requires a < |w| && b < |w|
  {
    w[a] < w[b] || (w[a] == w[b] && a < b)
  }

  ghost predicate InRange(order: seq<nat>, n: nat)
  {
    forall k :: 0 <= k < |order| ==> order[k] < n
  }

  ghost predicate Sorted(w: seq<nat>, order: seq<nat>)
    requires InRange(order, |w|)
  {
    forall i, j :: 0 <= i < j < |order| ==> Before(w, order[i], order[j])
  }

  ghost predicate Covers(order: seq<nat>, n: nat)
  {
    |order| == n && forall s :: 0 <= s < n ==> s in order
  }

  /** What a symbol of weight w counts: 1 << w >> 1 */
  function Share(w: nat): nat
  {
    if w == 0 then 0 else Pow2(w - 1)
  }

  function ShareSum(w: seq<nat>, n: nat): nat
    requires n <= |w|
  {
    if n == 0 then 0 else ShareSum(w, n - 1) + Share(w[n - 1])
  }

  function ShareOf(w: seq<nat>, order: seq<nat>): nat
    requires InRange(order, |w|)
  {
    if order == [] then 0 else ShareOf(w, order[..|order| - 1]) + Share(w[order[|order| - 1]])
  }

  lemma {:induction false} ShareInsert(w: seq<nat>, a: seq<nat>, x: nat, b: seq<nat>)
    requires InRange(a, |w|) && InRange(b, |w|) && x < |w|
    ensures InRange(a + [x] + b, |w|) && InRange(a + b, |w|)
    ensures ShareOf(w, a + [x] + b) == ShareOf(w, a + b) + Share(w[x])
  {
    if b == [] {
      assert (a + [x] + b)[..|a|] == a && a + b == a;
    } else {
      var n := |b| - 1;
      ShareInsert(w, a, x, b[..n]);
      assert (a + [x] + b)[..|a| + 1 + n] == a + [x] + b[..n];
      assert (a + b)[..|a| + n] == a + b[..n];
    }
  }

  /** Sorted weights belong to the symbols in order. */
  ghost predicate Paired(w: seq<nat>, weights: seq<nat>, order: seq<nat>)
    requires InRange(order, |w|) && |weights| == |order|
  {
    forall k :: 0 <= k < |order| ==> weights[k] == w[order[k]]
  }

  /** The state of the sort when i symbols have been sorted in. */
  ghost predicate SortedUpTo(w: seq<nat>, weights: seq<nat>, order: seq<nat>, i: nat)
  {
    && i <= |w| == |weights| == |order|
    && InRange(order[..i], i) && Covers(order[..i], i) && InRange(order[..i], |w|) && Sorted(w, order[..i])
    && Paired(w, weights[..i], order[..i]) && ShareOf(w, order[..i]) == ShareSum(w, i)
    && weights[i..] == w[i..]
  }

  lemma {:induction false} SortedInsert(w: seq<nat>, order: seq<nat>, i: nat, j: nat)
    requires i < |w| && InRange(order, i) && InRange(order, |w|) && Sorted(w, order) && j <= |order|
    requires forall k :: 0 <= k < j ==> w[order[k]] <= w[i]
    requires forall k :: j <= k < |order| ==> w[order[k]] > w[i]
    ensures InRange(order[..j] + [i] + order[j..], |w|) && Sorted(w, order[..j] + [i] + order[j..])
  {
    var r := order[..j] + [i] + order[j..];
    forall a, b | 0 <= a < b < |r| ensures Before(w, r[a], r[b]) {
      if a < j && b < j {
        assert Before(w, order[a], order[b]);
      } else if a < j && b > j {
        assert Before(w, order[a], order[b - 1]);
      } else if a > j {
        assert Before(w, order[a - 1], order[b - 1]);
      }
    }
  }

  lemma {:induction false} CoversInsert(order: seq<nat>, i: nat, j: nat)
    requires Covers(order, i) && InRange(order, i) && j <= i
    ensures Covers(order[..j] + [i] + order[j..], i + 1) && InRange(order[..j] + [i] + order[j..], i + 1)
  {
    var r := order[..j] + [i] + order[j..];
    forall s | 0 <= s < i + 1 ensures s in r {
      if s < i {
        assert s in order;
        var k :| 0 <= k < |order| && order[k] == s;
        assert r[if k < j then k else k + 1] == s;
      } else {
        assert r[j] == i;
      }
    }
  }

  /** The elements j to i - 1 of s have moved up by one. */
  ghost predicate Shifted(s: seq<nat>, s': seq<nat>, i: nat, j: nat)
  {
    && j <= i < |s| == |s'| && (forall k :: 0 <= k < j ==> s'[k] == s[k])
    && (forall k :: j <= k < i ==> s'[k + 1] == s[k]) && (forall k :: i < k < |s| ==> s'[k] == s[k])
  }

  lemma {:induction false} ShiftedInsert(s: seq<nat>, s': seq<nat>, i: nat, j: nat, x: nat)
    requires Shifted(s, s', i, j)
    ensures s'[j := x][..i + 1] == s[..j] + [x] + s[j..i] && s'[j := x][i + 1..] == s[i + 1..]
  {
  }

  /** The shifting of lines 112-118: everything heavier than w moves up by one. */
  method MakeRoom(weights: array<nat>, order: array<nat>, i: nat, w: nat) returns (j: nat)
    requires i < weights.Length == order.Length && weights != order
    requires forall a, b :: 0 <= a <= b < i ==> weights[a] <= weights[b]
    modifies weights, order
    ensures j <= i && (forall k :: 0 <= k < j ==> old(weights[k]) <= w)
    ensures forall k :: j <= k < i ==> old(weights[k]) > w
    ensures Shifted(old(weights[..]), weights[..], i, j) && Shifted(old(order[..]), order[..], i, j)
  {
    j := i;
    while j > 0 && weights[j - 1] > w
      invariant j <= i && (forall k :: j <= k < i ==> old(weights[k]) > w)
      invariant Shifted(old(weights[..]), weights[..], i, j) && Shifted(old(order[..]), order[..], i, j)
    {
      weights[j] := weights[j - 1];
      order[j] := order[j - 1];
      j := j - 1;
    }
  }

  lemma {:induction false} SortedWeights(w: seq<nat>, weights: seq<nat>, order: seq<nat>, i: nat)
    requires SortedUpTo(w, weights, order, i)
    ensures forall a, b :: 0 <= a <= b < i ==> weights[a] <= weights[b]
  {
    forall a, b | 0 <= a <= b < i ensures weights[a] <= weights[b] {
      assert weights[..i][a] == w[order[..i][a]] && weights[..i][b] == w[order[..i][b]];
      if a < b {
        assert Before(w, order[..i][a], order[..i][b]);
      }
    }
  }

  /** One symbol more has been sorted in at j. */
  lemma {:induction false} SortedNext(w: seq<nat>, weights: seq<nat>, order: seq<nat>, i: nat, j: nat,
                                      weights': seq<nat>, order': seq<nat>)
    requires SortedUpTo(w, weights, order, i) && i < |w| && j <= i && |weights'| == |order'| == |w|
    requires (forall k :: 0 <= k < j ==> weights[k] <= w[i]) && (forall k :: j <= k < i ==> weights[k] > w[i])
    requires order'[..i + 1] == order[..j] + [i] + order[j..i]
    requires weights'[..i + 1] == weights[..j] + [w[i]] + weights[j..i] && weights'[i + 1..] == weights[i + 1..]
    ensures SortedUpTo(w, weights', order', i + 1)
  {
    var o := order[..i];
    WeightsOf(w, weights, o, i, j);
    assert o[..j] == order[..j] && o[j..] == order[j..i] && o[..j] + o[j..] == o;
    SortedInsert(w, o, i, j);
    CoversInsert(o, i, j);
    ShareInsert(w, o[..j], i, o[j..]);
    PairedInsert(w, weights, order, i, j, weights', order');
    assert weights[i..][1..] == weights[i + 1..] && w[i..][1..] == w[i + 1..];
  }

  lemma {:induction false} WeightsOf(w: seq<nat>, weights: seq<nat>, o: seq<nat>, i: nat, j: nat)
    requires i < |w| == |weights| && |o| == i && j <= i && InRange(o, |w|) && Paired(w, weights[..i], o)
    requires (forall k :: 0 <= k < j ==> weights[k] <= w[i]) && (forall k :: j <= k < i ==> weights[k] > w[i])
    ensures (forall k :: 0 <= k < j ==> w[o[k]] <= w[i]) && (forall k :: j <= k < |o| ==> w[o[k]] > w[i])
  {
    assert forall k :: 0 <= k < i ==> weights[..i][k] == w[o[k]];
  }

  lemma {:induction false} PairedInsert(w: seq<nat>, weights: seq<nat>, order: seq<nat>, i: nat, j: nat,
                                        weights': seq<nat>, order': seq<nat>)
    requires i < |w| == |weights| == |order| == |weights'| == |order'| && j <= i
    requires InRange(order[..i], |w|) && Paired(w, weights[..i], order[..i])
    requires order'[..i + 1] == order[..j] + [i] + order[j..i]
    requires weights'[..i + 1] == weights[..j] + [w[i]] + weights[j..i]
    ensures InRange(order'[..i + 1], |w|) && Paired(w, weights'[..i + 1], order'[..i + 1])
  {
    var o, x := order'[..i + 1], weights'[..i + 1];
    forall k | 0 <= k < |o| ensures o[k] < |w| && x[k] == w[o[k]] {
      if k < j {
        assert weights[..i][k] == w[order[..i][k]];
      } else if k > j {
        assert weights[..i][k - 1] == w[order[..i][k - 1]];
      }
    }
  }

  /** lines 109-121: put symbol i where it belongs among the first i. */
  method InsertSymbol(weights: array<nat>, order: array<nat>, i: nat) returns (ghost j: nat)
    requires i < weights.Length == order.Length && weights != order
    requires forall a, b :: 0 <= a <= b < i ==> weights[a] <= weights[b]
    modifies weights, order
    ensures j <= i && (forall k :: 0 <= k < j ==> old(weights[k]) <= old(weights[i]))
    ensures forall k :: j <= k < i ==> old(weights[k]) > old(weights[i])
    ensures order[..i + 1] == old(order[..j]) + [i] + old(order[j..i])
    ensures weights[..i + 1] == old(weights[..j]) + [old(weights[i])] + old(weights[j..i])
    ensures weights[i + 1..] == old(weights[i + 1..])
  {
    var w := weights[i];
    var at := MakeRoom(weights, order, i, w);
    ShiftedInsert(old(weights[..]), weights[..], i, at, w);
    ShiftedInsert(old(order[..]), order[..], i, at, i);
    weights[at], order[at] := w, i;
    j := at;
  }

  /** lines 109-121 for one symbol. */
  method SortOne(weights: array<nat>, order: array<nat>, i: nat, ghost w: seq<nat>)
    requires i < weights.Length == order.Length && weights != order && SortedUpTo(w, weights[..], order[..], i)
    modifies weights, order
    ensures SortedUpTo(w, weights[..], order[..], i + 1)
  {
    ghost var ws, os := weights[..], order[..];
    SortedWeights(w, ws, os, i);
    assert weights[i] == ws[i..][0] == w[i..][0];
    ghost var j := InsertSymbol(weights, order, i);
    assert os[..j] == old(order[..j]) && os[j..i] == old(order[j..i]) && ws[..j] == old(weights[..j]) && ws[j..i] == old(weights[j..i]);
    SortedNext(w, ws, os, i, j, weights[..], order[..]);
  }

  /** lines 108-122: by weight, and by symbol among equal ones. */
  method SortWeights(weights: array<nat>, order: array<nat>, ghost w: seq<nat>)
    requires weights.Length == order.Length && weights != order && weights[..] == w
    modifies weights, order
    ensures SortedUpTo(w, weights[..], order[..], |w|)
  {
    for i := 0 to weights.Length
      invariant SortedUpTo(w, weights[..], order[..], i)
    {
      SortOne(weights, order, i, w);
    }
  }

  // ---- the last weight ----------------------------------------------------

  /** What the checks before the sort have established. */
  ghost predicate GoodWeights(w: seq<nat>, maxBits: nat, depth: nat)
  {
    && maxBits <= depth && ShareSum(w, |w|) == Pow2(maxBits)
    && forall s :: 0 <= s < |w| ==> w[s] <= maxBits
  }

  /** __builtin_ctz */
  function Ctz(n: Pos): nat
  {
    if n % 2 == 1 then 0 else 1 + Ctz(n / 2)
  }

  /** The weight that is not written is the one that makes the sum a power of two: there is no other. */
  lemma {:induction false} LastWeightUnique(sum: Pos, j: nat, m: nat)
    requires sum + Pow2(j) == Pow2(m)
    ensures j == Ctz(sum) && j < m
  {
    if j >= m {
      Pow2Monotone(m, j);
    }
    if j > 0 {
      LastWeightUnique(sum / 2, j - 1, m - 1);
    }
  }

  lemma {:induction false} ShareSumSame(w: seq<nat>, w': seq<nat>, n: nat)
    requires n <= |w| && n <= |w'| && w[..n] == w'[..n]
    ensures ShareSum(w, n) == ShareSum(w', n)
  {
    if n > 0 {
      assert w[..n][n - 1] == w'[..n][n - 1] && w[..n][..n - 1] == w[..n - 1] && w'[..n][..n - 1] == w'[..n - 1];
      ShareSumSame(w, w', n - 1);
    }
  }

  lemma {:induction false} ShareSumZeros(w: seq<nat>, n: nat, m: nat)
    requires n <= m <= |w| && forall i :: n <= i < m ==> w[i] == 0
    ensures ShareSum(w, m) == ShareSum(w, n)
  {
    if n < m {
      ShareSumZeros(w, n, m - 1);
    }
  }

  lemma {:induction false} ShareWithin(w: seq<nat>, n: nat, s: nat)
    requires s < n <= |w|
    ensures Share(w[s]) <= ShareSum(w, n)
  {
    if s < n - 1 {
      ShareWithin(w, n - 1, s);
    }
  }

  lemma {:induction false} ShareBound(x: nat, maxBits: nat)
    requires Share(x) < Pow2(maxBits)
    ensures x <= maxBits
  {
    if x > maxBits {
      Pow2Monotone(maxBits, x - 1);
    }
  }

  /** The weights with the last one added, and nothing behind it. */
  lemma {:induction false} CompletedGood(w: seq<nat>, num: nat, sum: Pos, last: Pos, maxBits: nat, depth: nat)
    requires num < |w| && ShareSum(w, num) == sum && w[num] == last && (forall i :: num < i < |w| ==> w[i] == 0)
    requires sum + Share(last) == Pow2(maxBits) && maxBits <= depth
    ensures GoodWeights(w, maxBits, depth)
  {
    ShareSumZeros(w, num + 1, |w|);
    forall s | 0 <= s < |w| ensures w[s] <= maxBits {
      if s < num {
        ShareWithin(w, num, s);
      }
      ShareBound(w[s], maxBits);
    }
  }

  /** lines 96-106, for the weights of the first num symbols, whose shares add up to sum. */
  method CompleteWeights(weights: array<nat>, num: nat, sum: nat, depth: nat) returns (ok: bool, maxBits: nat)
    requires num < weights.Length && ShareSum(weights[..], num) == sum
    modifies weights
    ensures ok <==> sum > 0 && exists j: nat, m: nat :: sum + Pow2(j) == Pow2(m) && m <= depth
    ensures ok ==> weights[..num] == old(weights[..num]) && GoodWeights(weights[..], maxBits, depth)
  {
    maxBits := 0;
    if sum == 0 {
      return false, maxBits;
    }
    ghost var w0 := weights[..];
    var last := Ctz(sum) + 1;
    var total := sum + Pow2(last - 1);
    weights[num] := last;
    for i := num + 1 to weights.Length
      invariant weights[..num] == w0[..num] && weights[num] == last && forall k :: num < k < i ==> weights[k] == 0
    {
      weights[i] := 0;
    }
    maxBits := last;
    maxBits := RoundUp(total, last);
    ok := total == Pow2(maxBits) && maxBits <= depth;
    if ok {
      ShareSumSame(w0, weights[..], num);
      CompletedGood(weights[..], num, sum, last, maxBits, depth);
      assert sum + Pow2(last - 1) == Pow2(maxBits);
    } else {
      forall j: nat, m: nat | sum + Pow2(j) == Pow2(m) && m <= depth ensures false {
        LastWeightUnique(sum, j, m);
        SamePower(total, m, maxBits, last);
      }
    }
  }

  /** lines 102-103: while (sum > (1u << maxbits)) {maxbits += 1;} */
  method RoundUp(total: Pos, from: nat) returns (m: nat)
    ensures total <= Pow2(m) && from <= m && (m == from || total > Pow2(m - 1))
  {
    m := from;
    ghost var g := Log2(total) + 1;
    Log2Bounds(total);
    while total > Pow2(m)
      invariant from <= m && (m == from || total > Pow2(m - 1))
      decreases if m <= g then g + 1 - m else 0
    {
      if m >= g {
        Pow2Monotone(g, m);
      }
      m := m + 1;
    }
  }

  lemma {:induction false} SamePower(total: nat, m: nat, n: nat, from: nat)
    requires total == Pow2(m) <= Pow2(n) && from <= m && (n == from || (n > 0 && total > Pow2(n - 1)))
    ensures m == n
  {
    if m < n {
      Pow2Monotone(m, n - 1);
    } else if n < m {
      Pow2Monotone(n + 1, m);
    }
  }

  // ---- the runs of the table -----------------------------------------------

  datatype Entry = Entry(sym: nat, len: nat)

  /** The number of bits that are left over in an index beside the codeword of a symbol of weight w. */
  function Spare(w: Pos, maxBits: nat, depth: nat): nat
    requires w <= maxBits <= depth
  {
    w - 1 + (depth - maxBits)
  }

  function RunLength(w: nat, maxBits: nat, depth: nat): nat
    requires w <= maxBits <= depth
  {
    if w == 0 then 0 else Pow2(Spare(w, maxBits, depth))
  }

  lemma {:induction false} RunIsShare(w: nat, maxBits: nat, depth: nat)
    requires w <= maxBits <= depth
    ensures RunLength(w, maxBits, depth) == Shl(Share(w), depth - maxBits)
  {
    if w == 0 {
      ShrZero(depth - maxBits);
    } else {
      ShlPow2(w - 1, depth - maxBits);
    }
  }

  /** Where the run of the k-th symbol in order begins. */
  function RunStart(w: seq<nat>, order: seq<nat>, maxBits: nat, depth: nat, k: nat): nat
    requires k <= |order| && InRange(order, |w|) && maxBits <= depth && forall s :: 0 <= s < |w| ==> w[s] <= maxBits
  {
    if k == 0 then 0 else RunStart(w, order, maxBits, depth, k - 1) + RunLength(w[order[k - 1]], maxBits, depth)
  }

  lemma {:induction false} RunStartIsShare(w: seq<nat>, order: seq<nat>, maxBits: nat, depth: nat, k: nat)
    requires GoodWeights(w, maxBits, depth) && k <= |order| && InRange(order, |w|)
    ensures InRange(order[..k], |w|)
    ensures RunStart(w, order, maxBits, depth, k) == Shl(ShareOf(w, order[..k]), depth - maxBits)
  {
    if k == 0 {
      ShrZero(depth - maxBits);
    } else {
      RunStartIsShare(w, order, maxBits, depth, k - 1);
      assert order[..k][..k - 1] == order[..k - 1];
      RunIsShare(w[order[k - 1]], maxBits, depth);
      ShlAdd(ShareOf(w, order[..k - 1]), Share(w[order[k - 1]]), depth - maxBits);
    }
  }

  /** The runs fill the table: line 139. */
  lemma {:induction false} RunsFill(w: seq<nat>, order: seq<nat>, maxBits: nat, depth: nat)
    requires GoodWeights(w, maxBits, depth) && InRange(order, |w|) && ShareOf(w, order) == ShareSum(w, |w|)
    ensures RunStart(w, order, maxBits, depth, |order|) == Pow2(depth)
  {
    RunStartIsShare(w, order, maxBits, depth, |order|);
    assert order[..|order|] == order;
    ShlPow2(maxBits, depth - maxBits);
  }

  /** From a symbol on all runs are multiples of its own, as it is the lightest of them. */
  lemma {:induction false} RestIsMultiple(w: seq<nat>, order: seq<nat>, maxBits: nat, depth: nat, k: nat, j: nat,
                                          e: nat) returns (q: nat)
    requires GoodWeights(w, maxBits, depth) && InRange(order, |w|) && k <= j <= |order|
    requires forall i :: k <= i < |order| ==> w[order[i]] > 0 && Spare(w[order[i]], maxBits, depth) >= e
    ensures RunStart(w, order, maxBits, depth, j) == RunStart(w, order, maxBits, depth, k) + Shl(q, e)
    decreases j
  {
    if j == k {
      q := 0;
      ShrZero(e);
    } else {
      q := RestIsMultiple(w, order, maxBits, depth, k, j - 1, e);
      var f := Spare(w[order[j - 1]], maxBits, depth);
      ShlPow2(f - e, e);
      ShlAdd(q, Pow2(f - e), e);
      q := q + Pow2(f - e);
    }
  }

  /** Every run begins at a multiple of its own length: line 132. */
  lemma {:induction false} RunAligned(w: seq<nat>, order: seq<nat>, maxBits: nat, depth: nat, k: nat) returns (q: nat)
    requires GoodWeights(w, maxBits, depth) && InRange(order, |w|) && k < |order| && w[order[k]] > 0
    requires forall i :: k <= i < |order| ==> w[order[i]] >= w[order[k]]
    requires RunStart(w, order, maxBits, depth, |order|) == Pow2(depth)
    ensures RunStart(w, order, maxBits, depth, k) == Shl(q, Spare(w[order[k]], maxBits, depth))
  {
    var e := Spare(w[order[k]], maxBits, depth);
    var r := RestIsMultiple(w, order, maxBits, depth, k, |order|, e);
    ShlPow2(depth - e, e);
    assert RunStart(w, order, maxBits, depth, k) + Shl(r, e) == Shl(Pow2(depth - e), e);
    if r > Pow2(depth - e) {
      ShlMonotone(Pow2(depth - e) + 1, r, e);
      ShlAdd(Pow2(depth - e), 1, e);
      ShlPow2(0, e);
    }
    q := Pow2(depth - e) - r;
    ShlAdd(q, r, e);
  }

  lemma {:induction false} RunStartGrows(w: seq<nat>, order: seq<nat>, maxBits: nat, depth: nat, j: nat, k: nat)
    requires GoodWeights(w, maxBits, depth) && InRange(order, |w|) && j <= k <= |order|
    ensures RunStart(w, order, maxBits, depth, j) <= RunStart(w, order, maxBits, depth, k)
    decreases k - j
  {
    if j < k {
      RunStartGrows(w, order, maxBits, depth, j, k - 1);
    }
  }

  /** line 129: the length of the codeword. */
  function CodeLength(w: Pos, maxBits: nat): nat
    requires w <= maxBits
  {
    maxBits + 1 - w
  }

  /** The runs of the first n symbols have been entered. */
  ghost predicate Filled(w: seq<nat>, order: seq<nat>, maxBits: nat, depth: nat, table: seq<Entry>, n: nat)
    requires GoodWeights(w, maxBits, depth) && InRange(order, |w|) && n <= |order|
  {
    forall k: nat, idx: nat :: k < n && w[order[k]] > 0 && InRun(w, order, maxBits, depth, k, idx) && idx < |table| ==>
      table[idx] == Entry(order[k], CodeLength(w[order[k]], maxBits))
  }

  ghost predicate InRun(w: seq<nat>, order: seq<nat>, maxBits: nat, depth: nat, k: nat, idx: nat)
    requires GoodWeights(w, maxBits, depth) && InRange(order, |w|) && k < |order|
  {
    RunStart(w, order, maxBits, depth, k) <= idx < RunStart(w, order, maxBits, depth, k + 1)
  }

  /** lines 133-137 */
  method FillRun(table: array<Entry>, code: nat, entries: nat, e: Entry)
    requires code + entries <= table.Length
    modifies table
    ensures forall idx :: 0 <= idx < table.Length ==> table[idx] == if code <= idx < code + entries then e else old(table[idx])
  {
    for j := 0 to entries
      invariant forall idx :: 0 <= idx < table.Length ==> table[idx] == if code <= idx < code + j then e else old(table[idx])
    {
      table[code + j] := e;
    }
  }

  lemma {:induction false} FilledNext(w: seq<nat>, order: seq<nat>, maxBits: nat, depth: nat, table: seq<Entry>,
                                      table': seq<Entry>, n: nat)
    requires GoodWeights(w, maxBits, depth) && InRange(order, |w|) && n < |order|
    requires Filled(w, order, maxBits, depth, table, n)
    requires |table'| == |table| && w[order[n]] > 0
    requires forall idx :: 0 <= idx < |table| ==>
      table'[idx] == if InRun(w, order, maxBits, depth, n, idx) then Entry(order[n], CodeLength(w[order[n]], maxBits)) else table[idx]
    ensures Filled(w, order, maxBits, depth, table', n + 1)
  {
    forall k: nat, idx: nat | k < n + 1 && w[order[k]] > 0 && InRun(w, order, maxBits, depth, k, idx) && idx < |table|
      ensures table'[idx] == Entry(order[k], CodeLength(w[order[k]], maxBits))
    {
      if k < n {
        RunStartGrows(w, order, maxBits, depth, k + 1, n);
      }
    }
  }

  /** lines 126-137 for a symbol that has a codeword; the assertion of line 132 holds. */
  method FillOne(w: seq<nat>, order: seq<nat>, maxBits: nat, depth: nat, table: array<Entry>, i: nat, code: nat)
    returns (next: nat)
    requires GoodWeights(w, maxBits, depth) && InRange(order, |w|) && Sorted(w, order) && i < |order| && w[order[i]] > 0
    requires RunStart(w, order, maxBits, depth, |order|) == Pow2(depth) == table.Length
    requires code == RunStart(w, order, maxBits, depth, i) && Filled(w, order, maxBits, depth, table[..], i)
    modifies table
    ensures next == RunStart(w, order, maxBits, depth, i + 1) && Filled(w, order, maxBits, depth, table[..], i + 1)
  {
    HeavierBehind(w, order, i);
    ghost var q := RunAligned(w, order, maxBits, depth, i);
    var len := maxBits + 1 - w[order[i]];
    var entries: nat := Pow2(depth - len);
    AlignedModulo(q, depth - len);
    assert code % entries == 0;
    RunStartGrows(w, order, maxBits, depth, i + 1, |order|);
    ghost var before := table[..];
    FillRun(table, code, entries, Entry(order[i], len));
    FilledNext(w, order, maxBits, depth, before, table[..], i);
    next := code + entries;
  }

  /** lines 125-139; the assertion of line 139 holds. */
  method FillTable(w: seq<nat>, weights: seq<nat>, order: seq<nat>, maxBits: nat, depth: nat, table: array<Entry>)
    requires GoodWeights(w, maxBits, depth) && SortedUpTo(w, weights, order, |w|) && table.Length == Pow2(depth)
    modifies table
    ensures InRange(order, |w|) && Filled(w, order, maxBits, depth, table[..], |order|)
    ensures RunStart(w, order, maxBits, depth, |order|) == table.Length
  {
    assert order[..|w|] == order && weights[..|w|] == weights;
    RunsFill(w, order, maxBits, depth);
    var code: nat := 0;
    for i := 0 to |order|
      invariant code == RunStart(w, order, maxBits, depth, i) && Filled(w, order, maxBits, depth, table[..], i)
    {
      if weights[i] > 0 {
        code := FillOne(w, order, maxBits, depth, table, i, code);
      }
    }
    assert code == table.Length;
  }

  lemma {:induction false} HeavierBehind(w: seq<nat>, order: seq<nat>, k: nat)
    requires InRange(order, |w|) && Sorted(w, order) && k < |order|
    ensures forall i :: k <= i < |order| ==> w[order[i]] >= w[order[k]]
  {
    forall i | k <= i < |order| ensures w[order[i]] >= w[order[k]] {
      if k < i {
        assert Before(w, order[k], order[i]);
      }
    }
  }

  lemma {:induction false} AlignedModulo(q: nat, e: nat)
    ensures Shl(q, e) % Pow2(e) == 0
  {
    ShlIsMul(q, e);
    DivModUnique(Shl(q, e), q, 0, Pow2(e));
  }
}
