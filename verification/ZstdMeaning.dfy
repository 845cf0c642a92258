/**
 What executing sequences means (section 3.1.1.4 of RFC 8878), position by position: which
 sequences can be executed at all, and what is then in every place of the output.
 */
module ZstdMeaning {
  import opened Basics
  import opened LzCopy
  import opened ZstdPack
  import opened ZstdExec
  import Seq = ZstdSeq
  import Block = ZstdBlock

  /** The literals that the first k sequences copy. */
  function Copies(seqs: seq<Sequence>, k: nat): nat
    requires k <= |seqs|
  {
    if k == 0 then 0 else seqs[0].copy + Copies(seqs[1..], k - 1)
  }

  /** The lengths of their matches. */
  function Lengths(seqs: seq<Sequence>, k: nat): nat
    requires k <= |seqs|
  {
    if k == 0 then 0 else seqs[0].length + Lengths(seqs[1..], k - 1)
  }

  lemma {:induction false} FirstSums(seqs: seq<Sequence>)
    requires seqs != []
    ensures Copies(seqs, 0) == Lengths(seqs, 0) == 0 && Copies(seqs, 1) == seqs[0].copy
    ensures Lengths(seqs, 1) == seqs[0].length
  {
    assert Copies(seqs[1..], 0) == Lengths(seqs[1..], 0) == 0;
  }

  /** They are the sums. */
  lemma {:induction false} SumsNext(seqs: seq<Sequence>, k: nat)
    requires k < |seqs|
    ensures Copies(seqs, k + 1) == Copies(seqs, k) + seqs[k].copy
    ensures Lengths(seqs, k + 1) == Lengths(seqs, k) + seqs[k].length
    decreases k
  {
    if k > 0 {
      SumsNext(seqs[1..], k - 1);
    }
  }

  // ---- which sequences can be executed -------------------------------------

  /** Sequence k finds its literals, and its match begins in the output, the window and its own literals included. */
  predicate Possible(window: nat, lits: nat, seqs: seq<Sequence>, k: nat)
    requires k < |seqs|
  {
    Copies(seqs, k + 1) <= lits && seqs[k].dist <= window + Copies(seqs, k + 1) + Lengths(seqs, k)
  }

  ghost predicate AllPossible(window: nat, lits: nat, seqs: seq<Sequence>)
  {
    forall k :: 0 <= k < |seqs| ==> Possible(window, lits, seqs, k)
  }

  lemma {:induction false} PossibleLater(window: nat, lits: nat, seqs: seq<Sequence>, k: nat)
    requires 0 < k < |seqs| && seqs[0].copy <= lits
    ensures Possible(window, lits, seqs, k) <==>
      Possible(window + seqs[0].copy + seqs[0].length, lits - seqs[0].copy, seqs[1..], k - 1)
  {
  }

  lemma {:induction false} PossibleSplit(window: nat, lits: nat, seqs: seq<Sequence>)
    requires seqs != []
    ensures AllPossible(window, lits, seqs) <==>
      && seqs[0].copy <= lits && seqs[0].dist <= window + seqs[0].copy
      && AllPossible(window + seqs[0].copy + seqs[0].length, lits - seqs[0].copy, seqs[1..])
  {
    var s, rest := seqs[0], seqs[1..];
    FirstSums(seqs);
    assert Possible(window, lits, seqs, 0) <==> s.copy <= lits && s.dist <= window + s.copy;
    if s.copy <= lits {
      var window', lits' := window + s.copy + s.length, lits - s.copy;
      forall k | 0 < k < |seqs|
        ensures Possible(window, lits, seqs, k) <==> Possible(window', lits', rest, k - 1)
      {
        PossibleLater(window, lits, seqs, k);
      }
      if AllPossible(window, lits, seqs) {
        forall k | 0 <= k < |rest|
          ensures Possible(window', lits', rest, k)
        {
          assert Possible(window, lits, seqs, k + 1);
        }
      }
    }
  }

  /** The executor accepts exactly those. */
  lemma {:induction false} RunAccepts(out: seq<Byte>, lits: seq<Byte>, seqs: seq<Sequence>)
    ensures Run(out, lits, seqs).Some? <==> AllPossible(|out|, |lits|, seqs)
    decreases |seqs|
  {
    if seqs != [] {
      var s := seqs[0];
      PossibleSplit(|out|, |lits|, seqs);
      if s.copy <= |lits| && s.dist <= |out| + s.copy {
        RunAccepts(MatchExtend(out + lits[..s.copy], s.dist, s.length), lits[s.copy..], seqs[1..]);
      }
    }
  }

  // ---- what is in the output -----------------------------------------------

  /** Where the output of sequence k begins. */
  function StartOf(window: nat, seqs: seq<Sequence>, k: nat): nat
    requires k <= |seqs|
  {
    window + Copies(seqs, k) + Lengths(seqs, k)
  }

  /** From at on, s holds n literals from the i-th on. */
  ghost predicate HoldsLiterals(s: seq<Byte>, at: nat, lits: seq<Byte>, i: nat, n: nat)
  {
    at + n <= |s| && i + n <= |lits| && s[at..at + n] == lits[i..i + n]
  }

  /** From at on, n bytes of s repeat those dist before them. */
  ghost predicate Repeats(s: seq<Byte>, at: nat, dist: nat, n: nat)
  {
    at + n <= |s| && dist <= at && forall p :: at <= p < at + n ==> s[p] == s[p - dist]
  }

  /** The place of sequence k in s holds its literals and its match. */
  ghost predicate InPlace(s: seq<Byte>, window: nat, lits: seq<Byte>, seqs: seq<Sequence>, k: nat)
    requires k < |seqs|
  {
    && HoldsLiterals(s, StartOf(window, seqs, k), lits, Copies(seqs, k), seqs[k].copy)
    && Repeats(s, StartOf(window, seqs, k) + seqs[k].copy, seqs[k].dist, seqs[k].length)
  }

  ghost predicate AllInPlace(s: seq<Byte>, window: nat, lits: seq<Byte>, seqs: seq<Sequence>)
  {
    forall k :: 0 <= k < |seqs| ==> InPlace(s, window, lits, seqs, k)
  }

  /** The literals that are left are in their place. */
  ghost predicate RestInPlace(s: seq<Byte>, window: nat, lits: seq<Byte>, seqs: seq<Sequence>)
  {
    var n := |seqs|;
    && |s| == window + |lits| + Lengths(seqs, n) && Copies(seqs, n) <= |lits|
    && HoldsLiterals(s, StartOf(window, seqs, n), lits, Copies(seqs, n), |lits| - Copies(seqs, n))
  }

  /** The window, the sequences one after the other, and the literals that are left. */
  ghost predicate IsOutput(s: seq<Byte>, out: seq<Byte>, lits: seq<Byte>, seqs: seq<Sequence>)
  {
    out <= s && AllInPlace(s, |out|, lits, seqs) && RestInPlace(s, |out|, lits, seqs)
  }

  lemma {:induction false} HoldsShift(s: seq<Byte>, at: nat, lits: seq<Byte>, c: nat, i: nat, n: nat)
    requires c <= |lits|
    ensures HoldsLiterals(s, at, lits[c..], i, n) <==> HoldsLiterals(s, at, lits, c + i, n)
  {
    if i + n <= |lits[c..]| {
      assert lits[c..][i..i + n] == lits[c + i..c + i + n];
    }
  }

  lemma {:induction false} InPlaceLater(s: seq<Byte>, window: nat, lits: seq<Byte>, seqs: seq<Sequence>, k: nat)
    requires 0 < k < |seqs| && seqs[0].copy <= |lits|
    ensures InPlace(s, window, lits, seqs, k) <==>
      InPlace(s, window + seqs[0].copy + seqs[0].length, lits[seqs[0].copy..], seqs[1..], k - 1)
  {
    HoldsShift(s, StartOf(window, seqs, k), lits, seqs[0].copy, Copies(seqs[1..], k - 1), seqs[k].copy);
  }

  lemma {:induction false} Consecutive(s: seq<Byte>, out: seq<Byte>, lits: seq<Byte>, dist: Pos, copy: nat, length: nat)
    requires copy <= |lits| && dist <= |out| + copy && |out| + copy + length <= |s|
    ensures MatchExtend(out + lits[..copy], dist, length) <= s <==>
      out <= s && HoldsLiterals(s, |out|, lits, 0, copy) && Repeats(s, |out| + copy, dist, length)
  {
    var o := out + lits[..copy];
    var next := MatchExtend(o, dist, length);
    MatchExtendPeriodic(o, dist, length);
    if next <= s {
      Prefixes(s, o, next);
      assert s[|out|..|o|] == o[|out|..] == lits[..copy];
      forall p | |o| <= p < |o| + length
        ensures s[p] == s[p - dist]
      {
        assert next[p] == next[p - dist];
      }
    } else if out <= s && HoldsLiterals(s, |out|, lits, 0, copy) && Repeats(s, |out| + copy, dist, length) {
      var t := s[..|next|];
      assert t[..|o|] == s[..|out|] + s[|out|..|o|] == o;
      PeriodicUnique(t, o, dist, length);
    }
  }

  lemma {:induction false} Prefixes(s: seq<Byte>, o: seq<Byte>, next: seq<Byte>)
    requires next <= s && |o| <= |next| && next[..|o|] == o
    ensures o <= s
  {
    assert s[..|o|] == next[..|o|];
  }

  /** The output of all sequences is that of the first one, and of the others after it. */
  lemma {:induction false} OutputSplit(s: seq<Byte>, out: seq<Byte>, lits: seq<Byte>, seqs: seq<Sequence>)
    requires seqs != [] && seqs[0].copy <= |lits| && 0 < seqs[0].dist <= |out| + seqs[0].copy
    ensures IsOutput(s, out, lits, seqs) <==>
      IsOutput(s, MatchExtend(out + lits[..seqs[0].copy], seqs[0].dist, seqs[0].length), lits[seqs[0].copy..],
               seqs[1..])
  {
    var q := seqs[0];
    FirstInPlace(s, out, lits, seqs);
    PlacesSplit(s, |out|, lits, seqs);
    RestShift(s, |out|, lits, seqs);
  }

  lemma {:induction false} FirstInPlace(s: seq<Byte>, out: seq<Byte>, lits: seq<Byte>, seqs: seq<Sequence>)
    requires seqs != [] && seqs[0].copy <= |lits| && seqs[0].dist <= |out| + seqs[0].copy
    ensures |out| + seqs[0].copy + seqs[0].length <= |s| ==>
      (MatchExtend(out + lits[..seqs[0].copy], seqs[0].dist, seqs[0].length) <= s <==>
       out <= s && InPlace(s, |out|, lits, seqs, 0))
  {
    var q := seqs[0];
    FirstSums(seqs);
    if |out| + q.copy + q.length <= |s| {
      Consecutive(s, out, lits, q.dist, q.copy, q.length);
    }
  }

  lemma {:induction false} RestShift(s: seq<Byte>, window: nat, lits: seq<Byte>, seqs: seq<Sequence>)
    requires seqs != [] && seqs[0].copy <= |lits|
    ensures RestInPlace(s, window, lits, seqs) <==>
      RestInPlace(s, window + seqs[0].copy + seqs[0].length, lits[seqs[0].copy..], seqs[1..])
  {
    var n, c := |seqs|, seqs[0].copy;
    if Copies(seqs, n) <= |lits| {
      HoldsShift(s, StartOf(window, seqs, n), lits, c, Copies(seqs[1..], n - 1), |lits| - Copies(seqs, n));
    }
  }

  lemma {:induction false} PlacesSplit(s: seq<Byte>, window: nat, lits: seq<Byte>, seqs: seq<Sequence>)
    requires seqs != [] && seqs[0].copy <= |lits|
    ensures AllInPlace(s, window, lits, seqs) <==>
      && InPlace(s, window, lits, seqs, 0)
      && AllInPlace(s, window + seqs[0].copy + seqs[0].length, lits[seqs[0].copy..], seqs[1..])
  {
    var window', lits', rest := window + seqs[0].copy + seqs[0].length, lits[seqs[0].copy..], seqs[1..];
    forall k | 0 < k < |seqs|
      ensures InPlace(s, window, lits, seqs, k) <==> InPlace(s, window', lits', rest, k - 1)
    {
      InPlaceLater(s, window, lits, seqs, k);
    }
    if AllInPlace(s, window, lits, seqs) {
      forall k | 0 <= k < |rest|
        ensures InPlace(s, window', lits', rest, k)
      {
        assert InPlace(s, window, lits, seqs, k + 1);
      }
    }
  }

  /** Of all strings, the output of the executor is the one with everything in its place. */
  lemma {:induction false} RunOutput(out: seq<Byte>, lits: seq<Byte>, seqs: seq<Sequence>, s: seq<Byte>)
    requires AllPossible(|out|, |lits|, seqs)
    ensures Run(out, lits, seqs) == Some(s) <==> IsOutput(s, out, lits, seqs)
    decreases |seqs|
  {
    if seqs == [] {
      NoSequences(out, lits, s);
    } else {
      var q := seqs[0];
      PossibleSplit(|out|, |lits|, seqs);
      var next, rest := MatchExtend(out + lits[..q.copy], q.dist, q.length), lits[q.copy..];
      assert IsOutput(s, out, lits, seqs) <==> IsOutput(s, next, rest, seqs[1..]) by {
        OutputSplit(s, out, lits, seqs);
      }
      RunOutput(next, rest, seqs[1..], s);
    }
  }

  lemma {:induction false} NoSequences(out: seq<Byte>, lits: seq<Byte>, s: seq<Byte>)
    ensures Run(out, lits, []) == Some(s) <==> IsOutput(s, out, lits, [])
  {
    LastLiterals(s, out, lits);
  }

  lemma {:induction false} LastLiterals(s: seq<Byte>, out: seq<Byte>, lits: seq<Byte>)
    ensures out + lits == s <==> |s| == |out| + |lits| && out <= s && HoldsLiterals(s, |out|, lits, 0, |lits|)
  {
    if |s| == |out| + |lits| && out <= s && HoldsLiterals(s, |out|, lits, 0, |lits|) {
      assert s == s[..|out|] + s[|out|..|s|];
    }
  }

  // ---- with a limited output buffer ----------------------------------------

  /** Sequence k and all literals fit the buffer. */
  predicate HasSpace(window: nat, lits: nat, seqs: seq<Sequence>, limit: nat, k: nat)
    requires k < |seqs|
  {
    window + lits + Lengths(seqs, k + 1) <= limit
  }

  ghost predicate FineBefore(window: nat, lits: nat, seqs: seq<Sequence>, limit: nat, k: nat)
    requires k <= |seqs|
  {
    forall j :: 0 <= j < k ==> Possible(window, lits, seqs, j) && HasSpace(window, lits, seqs, limit, j)
  }

  /** Sequence k has its literals, and the buffer is too small for it. */
  ghost predicate LacksSpaceAt(window: nat, lits: nat, seqs: seq<Sequence>, limit: nat, k: nat)
    requires k < |seqs|
  {
    && FineBefore(window, lits, seqs, limit, k) && Copies(seqs, k + 1) <= lits
    && !HasSpace(window, lits, seqs, limit, k)
  }

  ghost predicate LacksSpace(window: nat, lits: nat, seqs: seq<Sequence>, limit: nat)
  {
    exists k :: 0 <= k < |seqs| && LacksSpaceAt(window, lits, seqs, limit, k)
  }

  lemma {:induction false} LacksLater(window: nat, lits: nat, seqs: seq<Sequence>, limit: nat, k: nat)
    requires 0 < k < |seqs| && Possible(window, lits, seqs, 0) && HasSpace(window, lits, seqs, limit, 0)
    ensures seqs[0].copy <= lits
    ensures LacksSpaceAt(window, lits, seqs, limit, k) <==>
      LacksSpaceAt(window + seqs[0].copy + seqs[0].length, lits - seqs[0].copy, seqs[1..], limit, k - 1)
  {
    FirstSums(seqs);
    var window', lits', rest := window + seqs[0].copy + seqs[0].length, lits - seqs[0].copy, seqs[1..];
    forall j | 0 < j < |seqs|
      ensures Possible(window, lits, seqs, j) <==> Possible(window', lits', rest, j - 1)
      ensures HasSpace(window, lits, seqs, limit, j) <==> HasSpace(window', lits', rest, limit, j - 1)
    {
      PossibleLater(window, lits, seqs, j);
    }
    if FineBefore(window, lits, seqs, limit, k) {
      forall j | 0 <= j < k - 1
        ensures Possible(window', lits', rest, j) && HasSpace(window', lits', rest, limit, j)
      {
        assert Possible(window, lits, seqs, j + 1) && HasSpace(window, lits, seqs, limit, j + 1);
      }
    }
  }

  lemma {:induction false} LacksSplit(window: nat, lits: nat, seqs: seq<Sequence>, limit: nat)
    requires seqs != []
    ensures LacksSpace(window, lits, seqs, limit) <==>
      && seqs[0].copy <= lits
      && (window + lits + seqs[0].length > limit ||
          (seqs[0].dist <= window + seqs[0].copy &&
           LacksSpace(window + seqs[0].copy + seqs[0].length, lits - seqs[0].copy, seqs[1..], limit)))
  {
    FirstSums(seqs);
    var s, rest := seqs[0], seqs[1..];
    assert LacksSpaceAt(window, lits, seqs, limit, 0) <==> s.copy <= lits && window + lits + s.length > limit;
    if Possible(window, lits, seqs, 0) && HasSpace(window, lits, seqs, limit, 0) {
      var window', lits' := window + s.copy + s.length, lits - s.copy;
      forall k | 0 < k < |seqs|
        ensures LacksSpaceAt(window, lits, seqs, limit, k) <==> LacksSpaceAt(window', lits', rest, limit, k - 1)
      {
        LacksLater(window, lits, seqs, limit, k);
      }
      if LacksSpace(window', lits', rest, limit) {
        var k :| 0 <= k < |rest| && LacksSpaceAt(window', lits', rest, limit, k);
        assert LacksSpaceAt(window, lits, seqs, limit, k + 1);
      }
    }
  }

  /** The bounded executor asks for more space exactly if it comes to a sequence that lacks it. */
  lemma {:induction false} BoundedLacks(out: seq<Byte>, lits: seq<Byte>, seqs: seq<Sequence>, limit: nat)
    ensures RunBounded(out, lits, seqs, limit).NeedMoreSpace? <==> LacksSpace(|out|, |lits|, seqs, limit)
    decreases |seqs|
  {
    if seqs != [] {
      var s := seqs[0];
      LacksSplit(|out|, |lits|, seqs, limit);
      if s.copy <= |lits| && s.dist <= |out| + s.copy {
        BoundedLacks(MatchExtend(out + lits[..s.copy], s.dist, s.length), lits[s.copy..], seqs[1..], limit);
      }
    }
  }

  /** All results of the bounded executor; the third is that of all other cases. */
  lemma {:induction false} BoundedMeans(out: seq<Byte>, lits: seq<Byte>, seqs: seq<Sequence>, limit: nat)
    requires |out| + |lits| <= limit
    ensures RunBounded(out, lits, seqs, limit).NeedMoreSpace? <==> LacksSpace(|out|, |lits|, seqs, limit)
    ensures forall s :: RunBounded(out, lits, seqs, limit) == Finished(s) <==>
              AllPossible(|out|, |lits|, seqs) && |s| <= limit && IsOutput(s, out, lits, seqs)
  {
    BoundedLacks(out, lits, seqs, limit);
    BoundedIsRunThatFits(out, lits, seqs, limit);
    RunAccepts(out, lits, seqs);
    forall s
      ensures RunBounded(out, lits, seqs, limit) == Finished(s) <==>
        AllPossible(|out|, |lits|, seqs) && |s| <= limit && IsOutput(s, out, lits, seqs)
    {
      if AllPossible(|out|, |lits|, seqs) {
        RunOutput(out, lits, seqs, s);
      }
    }
  }

  /** So the output of a sequences section is the string with all literals and matches in their places. */
  lemma {:induction false} SectionMeans(o: seq<Byte>, l: seq<Byte>, whole: Seq.Decoded, limit: nat, output: seq<Byte>)
    requires |o| + |l| <= limit
    ensures Block.Yields(o, l, whole, limit, output) <==>
            && whole.Decoded? && AllPossible(|o|, |l|, whole.seqs) && |output| <= limit
            && IsOutput(output, o, l, whole.seqs)
    ensures Block.NeedsMore(o, l, whole, limit) <==> whole.Decoded? && LacksSpace(|o|, |l|, whole.seqs, limit)
  {
    if whole.Decoded? {
      BoundedMeans(o, l, whole.seqs, limit);
    }
  }
}
