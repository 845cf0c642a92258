/**
 compression/zstd.c: executing the sequences of a compressed block in place, with
 the literals parked at the end of the output buffer, against an executor that
 keeps them in a buffer of their own (section 3.1.1.4 of RFC 8878).
 */
module ZstdExec {
  import opened Basics
  import opened LzCopy
  import opened ZstdPack

  // ---- the plain executor --------------------------------------------------

  /** out is everything produced so far, the window of earlier blocks included. */
  function Run(out: seq<Byte>, lits: seq<Byte>, seqs: seq<Sequence>): Option<seq<Byte>>
    decreases |seqs|
  {
    if seqs == [] then Some(out + lits)
    else if seqs[0].copy > |lits| then None
    else
      var o := out + lits[..seqs[0].copy];
      if seqs[0].dist > |o| then None
      else Run(MatchExtend(o, seqs[0].dist, seqs[0].length), lits[seqs[0].copy..], seqs[1..])
  }

  // ---- the same with a limited output buffer -------------------------------

  datatype Status = Finished(out: seq<Byte>) | Failed | NeedMoreSpace

  /** The order of the checks is that of lines 212-218. */
  function RunBounded(out: seq<Byte>, lits: seq<Byte>, seqs: seq<Sequence>, limit: nat): Status
    decreases |seqs|
  {
    if seqs == [] then Finished(out + lits)
    else if seqs[0].copy > |lits| then Failed
    else if limit < |out| + seqs[0].length + |lits| then NeedMoreSpace
    else
      var o := out + lits[..seqs[0].copy];
      if seqs[0].dist > |o| then Failed
      else RunBounded(MatchExtend(o, seqs[0].dist, seqs[0].length), lits[seqs[0].copy..], seqs[1..], limit)
  }

  /** The plain executor only ever adds output. */
  lemma {:induction false} RunGrows(out: seq<Byte>, lits: seq<Byte>, seqs: seq<Sequence>)
    requires Run(out, lits, seqs).Some?
    ensures |out| + |lits| <= |Run(out, lits, seqs).value|
    decreases |seqs|
  {
    if seqs != [] {
      var o := out + lits[..seqs[0].copy];
      RunGrows(MatchExtend(o, seqs[0].dist, seqs[0].length), lits[seqs[0].copy..], seqs[1..]);
    }
  }

  /**
   The space check is exact: with room for the literals, a block finishes if and
   only if the plain executor accepts it and its whole output fits.
   */
  lemma {:induction false} BoundedIsRunThatFits(out: seq<Byte>, lits: seq<Byte>, seqs: seq<Sequence>, limit: nat)
    requires |out| + |lits| <= limit
    ensures forall o :: RunBounded(out, lits, seqs, limit) == Finished(o) <==>
                        Run(out, lits, seqs) == Some(o) && |o| <= limit
    ensures RunBounded(out, lits, seqs, limit).Failed? ==> Run(out, lits, seqs).None?
    decreases |seqs|
  {
    if seqs != [] && seqs[0].copy <= |lits| {
      var o := out + lits[..seqs[0].copy];
      if seqs[0].dist <= |o| {
        var next := MatchExtend(o, seqs[0].dist, seqs[0].length);
        var rest := lits[seqs[0].copy..];
        if limit < |out| + seqs[0].length + |lits| {
          if Run(next, rest, seqs[1..]).Some? {
            RunGrows(next, rest, seqs[1..]);
          }
        } else {
          BoundedIsRunThatFits(next, rest, seqs[1..], limit);
        }
      }
    }
  }

  // ---- in place ------------------------------------------------------------

  /**
   Where the unread literals are: parked so that they end BLOCK bytes after
   outEnd (line 171), or raw in the input, away from the output buffer (line 169).
   */
  predicate Parked(outEnd: nat, lp: nat, size: nat)
  {
    lp + size == outEnd + BLOCK
  }

  predicate Raw(out0: nat, outEnd: nat, lp: nat, size: nat)
  {
    lp + size <= out0 || outEnd + BLOCK <= lp
  }

  /** outEnd has BLOCK bytes of the buffer and BLOCK bytes of scratch space after it. */
  predicate Layout(memLength: nat, out0: nat, out: nat, outEnd: nat, lp: nat, size: nat)
  {
    && out0 <= out && out + size <= outEnd
    && outEnd + 2 * BLOCK <= memLength && lp + size + BLOCK <= memLength
    && (Parked(outEnd, lp, size) || Raw(out0, outEnd, lp, size))
  }

  /** What memory holds between two sequences: the output so far and the unread literals. */
  ghost predicate Holds(mem: array<Byte>, windowStart: nat, out: nat, lp: nat, size: nat, cur: seq<Byte>,
                        lits: seq<Byte>)
    reads mem
  {
    && windowStart <= out <= mem.Length && lp + size <= mem.Length
    && mem[windowStart..out] == cur
    && mem[lp..lp + size] == lits
  }

  /** lines 214-215: move copy literals to the output. */
  method TakeLiterals(mem: array<Byte>, windowStart: nat, out: nat, lp: nat, copy: nat, length: nat,
                      ghost out0: nat, ghost outEnd: nat, ghost size: nat, ghost cur: seq<Byte>, ghost lits: seq<Byte>)
    requires Layout(mem.Length, out0, out, outEnd, lp, size) && windowStart <= out0
    requires copy <= size && 3 <= length && out + length + size <= outEnd
    requires Holds(mem, windowStart, out, lp, size, cur, lits)
    modifies mem
    ensures Holds(mem, windowStart, out + copy, lp + copy, size - copy, cur + lits[..copy], lits[copy..])
    ensures SameOutside(old(mem[..]), mem[..], out0, outEnd + BLOCK)
  {
    ghost var m0 := mem[..];
    LiteralCopy(mem, out, lp, copy);
    ghost var m1 := mem[..];
    assert m1[windowStart..out] == m0[windowStart..out];
    forall i | 0 <= i < copy
      ensures m1[out..out + copy][i] == lits[..copy][i]
    {
      assert m1[out + i] == m0[out + i - out + lp];
    }
    assert m1[windowStart..out + copy] == m1[windowStart..out] + m1[out..out + copy];
    assert m1[lp + copy..lp + size] == m0[lp..lp + size][copy..];
    assert mem[windowStart..out + copy] == m1[windowStart..out + copy];
    assert mem[lp + copy..lp + copy + (size - copy)] == m1[lp + copy..lp + size];
  }

  /** lines 224-225 */
  method AppendMatch(mem: array<Byte>, windowStart: nat, out: nat, dist: nat, length: nat, ghost out0: nat,
                     ghost outEnd: nat, ghost lp: nat, ghost size: nat, ghost cur: seq<Byte>, ghost lits: seq<Byte>)
    requires Layout(mem.Length, out0, out, outEnd, lp, size) && windowStart <= out0
    requires 3 <= length && out + length + size <= outEnd && 0 < dist <= out - windowStart
    requires Holds(mem, windowStart, out, lp, size, cur, lits)
    modifies mem
    ensures Holds(mem, windowStart, out + length, lp, size, MatchExtend(cur, dist, length), lits)
    ensures SameOutside(old(mem[..]), mem[..], out0, outEnd + BLOCK)
  {
    ghost var m0 := mem[..];
    MatchCopy(mem, out, dist, length, windowStart);
    ghost var m1 := mem[..];
    assert m1[lp..lp + size] == m0[lp..lp + size];
    assert mem[lp..lp + size] == m1[lp..lp + size];
  }

  datatype Code = Ok | Err | MoreSpace

  /** lines 207-225: one sequence. */
  method ExecuteOne(mem: array<Byte>, windowStart: nat, out: nat, outEnd: nat, lp: nat, size: nat, s: Sequence,
                    ghost out0: nat, ghost cur: seq<Byte>, ghost lits: seq<Byte>, ghost rest: seq<Sequence>)
    returns (status: Code, out': nat, lp': nat, size': nat, ghost cur': seq<Byte>, ghost lits': seq<Byte>)
    requires windowStart <= out0 && 3 <= s.length
    requires Layout(mem.Length, out0, out, outEnd, lp, size)
    requires Holds(mem, windowStart, out, lp, size, cur, lits)
    modifies mem
    ensures SameOutside(old(mem[..]), mem[..], out0, outEnd + BLOCK)
    ensures var todo := RunBounded(cur, lits, [s] + rest, outEnd - windowStart);
      match status
      case Ok =>
        && Layout(mem.Length, out0, out', outEnd, lp', size')
        && Holds(mem, windowStart, out', lp', size', cur', lits')
        && todo == RunBounded(cur', lits', rest, outEnd - windowStart)
      case Err => todo == Failed
      case MoreSpace => todo == NeedMoreSpace
  {
    assert ([s] + rest)[1..] == rest;
    out', lp', size', cur', lits' := out, lp, size, cur, lits;
    if s.copy > size {
      return Err, out', lp', size', cur', lits';
    }
    if outEnd - out < s.length + size {
      return MoreSpace, out', lp', size', cur', lits';
    }
    ghost var m0 := mem[..];
    TakeLiterals(mem, windowStart, out, lp, s.copy, s.length, out0, outEnd, size, cur, lits);
    ghost var m1 := mem[..];
    cur', lits' := cur + lits[..s.copy], lits[s.copy..];
    out', lp', size' := out + s.copy, lp + s.copy, size - s.copy;
    if s.dist > out' - windowStart {
      return Err, out', lp', size', cur', lits';
    }
    AppendMatch(mem, windowStart, out', s.dist, s.length, out0, outEnd, lp', size', cur', lits');
    cur', out' := MatchExtend(cur', s.dist, s.length), out' + s.length;
    SameTwice(m0, m1, mem[..], out0, outEnd + BLOCK);
    status := Ok;
  }

  lemma {:induction false} OneOfAll(packed: seq<nat>, i: nat, rest: seq<Sequence>)
    requires i < |packed|
    ensures UnpackAll(packed[i..]) + rest == [Unpack(packed[i])] + (UnpackAll(packed[i + 1..]) + rest)
  {
    UnpackAllStep(packed, i);
  }

  /** lines 206-232: sequences as decode_sequences packs them, with rest still to come. */
  method ExecuteSome(mem: array<Byte>, windowStart: nat, out: nat, outEnd: nat, lp: nat, size: nat, packed: seq<nat>,
                     ghost out0: nat, ghost cur: seq<Byte>, ghost lits: seq<Byte>, ghost rest: seq<Sequence>)
    returns (status: Code, out': nat, lp': nat, size': nat, ghost cur': seq<Byte>, ghost lits': seq<Byte>)
    requires windowStart <= out0 && Layout(mem.Length, out0, out, outEnd, lp, size)
    requires Holds(mem, windowStart, out, lp, size, cur, lits)
    modifies mem
    ensures SameOutside(old(mem[..]), mem[..], out0, outEnd + BLOCK)
    ensures var todo := RunBounded(cur, lits, UnpackAll(packed) + rest, outEnd - windowStart);
      match status
      case Ok =>
        && Layout(mem.Length, out0, out', outEnd, lp', size')
        && Holds(mem, windowStart, out', lp', size', cur', lits')
        && todo == RunBounded(cur', lits', rest, outEnd - windowStart)
      case Err => todo == Failed
      case MoreSpace => todo == NeedMoreSpace
  {
    status, out', lp', size', cur', lits' := Ok, out, lp, size, cur, lits;
    ghost var whole := RunBounded(cur, lits, UnpackAll(packed) + rest, outEnd - windowStart);
    assert packed[0..] == packed;
    for i := 0 to |packed|
      invariant status == Ok && Layout(mem.Length, out0, out', outEnd, lp', size')
      invariant Holds(mem, windowStart, out', lp', size', cur', lits')
      invariant SameOutside(old(mem[..]), mem[..], out0, outEnd + BLOCK)
      invariant whole == RunBounded(cur', lits', UnpackAll(packed[i..]) + rest, outEnd - windowStart)
    {
      OneOfAll(packed, i, rest);
      status, out', lp', size', cur', lits' :=
        ExecuteOne(mem, windowStart, out', outEnd, lp', size', Unpack(packed[i]), out0, cur', lits', UnpackAll(packed[i + 1..]) + rest);
      if status != Ok {
        return;
      }
    }
    assert UnpackAll(packed[|packed|..]) + rest == rest;
  }

  /** lines 202-238, with all sequences in one go. */
  method Execute(mem: array<Byte>, windowStart: nat, out0: nat, outEnd: nat, literalPtr: nat, literalSize: nat,
                 packed: seq<nat>)
    returns (status: Code, out: nat)
    requires windowStart <= out0
    requires Layout(mem.Length, out0, out0, outEnd, literalPtr, literalSize)
    modifies mem
    ensures SameOutside(old(mem[..]), mem[..], out0, outEnd + BLOCK)
    ensures
      match RunBounded(old(mem[windowStart..out0]), old(mem[literalPtr..literalPtr + literalSize]), UnpackAll(packed), outEnd - windowStart)
      case Finished(o) => status == Ok && out == windowStart + |o| <= outEnd && mem[windowStart..out] == o
      case Failed => status == Err
      case NeedMoreSpace => status == MoreSpace
  {
    var lp, size;
    ghost var cur, lits := mem[windowStart..out0], mem[literalPtr..literalPtr + literalSize];
    assert UnpackAll(packed) + [] == UnpackAll(packed);
    status, out, lp, size, cur, lits := ExecuteSome(mem, windowStart, out0, outEnd, literalPtr, literalSize, packed, out0, cur, lits, []);
    if status == Ok {
      FinishLiterals(mem, windowStart, out, lp, size, out0, outEnd, cur, lits);
      out := out + size;
    }
  }

  /** line 236 */
  method FinishLiterals(mem: array<Byte>, windowStart: nat, out: nat, lp: nat, size: nat,
                        ghost out0: nat, ghost outEnd: nat, ghost cur: seq<Byte>, ghost lits: seq<Byte>)
    requires Layout(mem.Length, out0, out, outEnd, lp, size) && windowStart <= out0
    requires Holds(mem, windowStart, out, lp, size, cur, lits)
    modifies mem
    ensures mem[windowStart..out + size] == cur + lits
    ensures SameOutside(old(mem[..]), mem[..], out0, outEnd + BLOCK)
  {
    ghost var m0 := mem[..];
    Memcpy(mem, out, lp, size);
    ghost var m1 := mem[..];
    assert Copied(m0, m1, out, lp, size);
    assert m1[windowStart..out] == m0[windowStart..out];
    forall i | 0 <= i < size
      ensures m1[out..out + size][i] == lits[i]
    {
      assert m1[out + i] == m0[out + i - out + lp];
    }
    assert m1[windowStart..out + size] == m1[windowStart..out] + m1[out..out + size];
    assert mem[windowStart..out + size] == m1[windowStart..out + size];
  }
}
