/**
 The compressed data of section 3.2.5 of RFC 1951, as a writer has it: the tables of length and
 distance codes, symbols and extra bits in their order, and what they expand to. The decoder of
 compression/inflate.c reads exactly that.
 */
module InflateStandard {
  import opened Basics
  import opened Bits
  import opened Canon
  import opened CanonPrefix
  import opened InflateBlock
  import opened LzCopy

  // ---- the tables ----------------------------------------------------------

  /** What a symbol stands for: numbers from base on, as many as the extra bits tell apart. */
  datatype Range = Range(base: nat, extra: nat)

  /** Symbols 257 to 285: eight lengths, then four ranges for each number of extra bits, then 258. */
  function LengthRange(sym: nat): Range
    requires 257 <= sym <= 285
  {
    if sym < 265 then Range(sym - 254, 0)
    else if sym == 285 then Range(258, 0)
    else
      var k, j := (sym - 265) / 4, (sym - 265) % 4;
      Range(Pow2(k + 3) + j * Pow2(k + 1) + 3, k + 1)
  }

  /** Distance symbols 0 to 29: two ranges for each number of extra bits. */
  function DistRange(sym: nat): Range
  {
    if sym < 2 then Range(sym + 1, 0) else Range((2 + sym % 2) * Pow2(sym / 2 - 1) + 1, sym / 2 - 1)
  }

  /** Some rows of the tables. */
  lemma {:induction false} SomeRows()
    ensures LengthRange(257) == Range(3, 0) && LengthRange(264) == Range(10, 0) && LengthRange(265) == Range(11, 1)
    ensures LengthRange(266) == Range(13, 1) && LengthRange(272) == Range(31, 2) && LengthRange(284) == Range(227, 5)
    ensures DistRange(0) == Range(1, 0) && DistRange(3) == Range(4, 0) && DistRange(4) == Range(5, 1)
    ensures DistRange(9) == Range(25, 3) && DistRange(29) == Range(24577, 13)
  {
    assert Pow2(1) == 2 && Pow2(2) == 4 && Pow2(3) == 8 && Pow2(4) == 16;
    assert Pow2(5) == 32 && Pow2(6) == 64 && Pow2(7) == 128;
    Pow2Sum(6, 7);
  }

  lemma {:induction false} LengthsMeet(sym: nat)
    requires 257 <= sym < 284
    ensures LengthRange(sym).base + Pow2(LengthRange(sym).extra) == LengthRange(sym + 1).base
  {
    if sym == 264 {
      SomeRows();
    } else if sym >= 265 {
      NextOfFour(sym - 265);
    }
  }

  /** Four to each number of extra bits. */
  lemma {:induction false} NextOfFour(i: nat)
    ensures var k, j, k', j' := i / 4, i % 4, (i + 1) / 4, (i + 1) % 4;
            Pow2(k + 3) + j * Pow2(k + 1) + Pow2(k + 1) == Pow2(k' + 3) + j' * Pow2(k' + 1)
  {
    var k, j := i / 4, i % 4;
    if j == 3 {
      DivModUnique(i + 1, k + 1, 0, 4);
      assert Pow2(k + 3) == 2 * Pow2(k + 2) && Pow2(k + 2) == 2 * Pow2(k + 1) && Pow2(k + 4) == 2 * Pow2(k + 3);
    } else {
      DivModUnique(i + 1, k, j + 1, 4);
      assert (j + 1) * Pow2(k + 1) == j * Pow2(k + 1) + Pow2(k + 1);
    }
  }

  lemma {:induction false} DistancesMeet(sym: nat)
    ensures DistRange(sym).base + Pow2(DistRange(sym).extra) == DistRange(sym + 1).base
  {
    var k := sym / 2;
    if sym == 1 {
      SomeTwo();
    } else if sym % 2 == 0 {
      DivModUnique(sym + 1, k, 1, 2);
    } else {
      DivModUnique(sym + 1, k + 1, 0, 2);
      assert Pow2(k) == 2 * Pow2(k - 1);
    }
  }

  lemma {:induction false} SomeTwo()
    ensures DistRange(1) == Range(2, 0) && DistRange(2) == Range(3, 0) && Pow2(0) == 1
  {
  }

  /** lit_extra and lit_base are the table, but for the last base. */
  lemma {:induction false} LengthsComputed(sym: nat)
    requires 265 <= sym <= 285
    ensures LitExtra(sym - 265) == LengthRange(sym).extra
    ensures LitBase(sym - 265) == LengthRange(sym).base + if sym == 285 then 1 else 0
  {
    SomeRows();
    if sym > 265 {
      LengthsComputed(sym - 1);
      if sym < 285 {
        LengthsMeet(sym - 1);
      }
      assert LitBase(sym - 265) == LitBase(sym - 266) + Pow2(LitExtra(sym - 266));
    }
  }

  /** dist_extra and dist_base are the table. */
  lemma {:induction false} DistancesComputed(sym: nat)
    requires 4 <= sym
    ensures DistExtra(sym - 4) == DistRange(sym).extra && DistBase(sym - 4) == DistRange(sym).base
  {
    SomeRows();
    if sym > 4 {
      DistancesComputed(sym - 1);
      DistancesMeet(sym - 1);
      assert DistBase(sym - 4) == DistBase(sym - 5) + Pow2(DistExtra(sym - 5));
    }
  }

  // ---- what is written -----------------------------------------------------

  /** A byte, or a match: two symbols and the values of their extra bits. */
  datatype Item = Plain(b: Byte) | Back(sym: nat, extra: nat, dsym: nat, dextra: nat)

  predicate GoodItem(it: Item)
  {
    it.Back? ==> 257 <= it.sym <= 285 && it.dsym < 30
  }

  function LengthOf(it: Item): nat
    requires it.Back? && GoodItem(it)
  {
    LengthRange(it.sym).base + it.extra
  }

  function DistanceOf(it: Item): nat
    requires it.Back? && GoodItem(it)
  {
    DistRange(it.dsym).base + it.dextra
  }

  /** At pos the string has the codeword of s, and then goes on at next. */
  ghost predicate Spells(c: Code, v: nat, pos: nat, s: nat, next: nat)
  {
    Begins(c.lengths, Shr(v, pos), s) && next == pos + c.lengths[s]
  }

  ghost predicate Has(v: nat, pos: nat, n: nat, value: nat, next: nat)
  {
    Field(v, pos, n) == value && next == pos + n
  }

  /** Where the parts of a match are. */
  datatype Places = Places(a: nat, b: nat, c: nat)

  /** From pos to next the string is the item: the length, then the distance, each with its extra bits after it. */
  ghost predicate Writes(bl: Block, pos: nat, it: Item, at: Places, next: nat)
    requires GoodItem(it)
  {
    match it
    case Plain(b) => Spells(bl.lit, bl.v, pos, b, next)
    case Back(sym, extra, dsym, dextra) =>
      && Spells(bl.lit, bl.v, pos, sym, at.a) && Has(bl.v, at.a, LengthRange(sym).extra, extra, at.b)
      && Spells(bl.dist, bl.v, at.b, dsym, at.c) && Has(bl.v, at.c, DistRange(dsym).extra, dextra, next)
  }

  // ---- reading is the inverse ----------------------------------------------

  lemma {:induction false} SymRead(c: Code, v: nat, pos: nat, limit: nat, s: nat, next: nat)
    requires GoodCode(c)
    ensures ReadSym(c, v, pos, limit) == Sym(s, next) <==> Spells(c, v, pos, s, next) && next <= limit
  {
    var t := SymAt(c.lengths, c.top, Shr(v, pos));
    if Begins(c.lengths, Shr(v, pos), s) {
      BeginsUnique(c.lengths, c.top, Shr(v, pos), s, t);
    }
  }

  /** A length as it is read; the source has 259 for symbol 285 until line 520. */
  lemma {:induction false} LengthRead(v: nat, pos: nat, limit: nat, sym: nat)
    requires 257 <= sym <= 285 && pos <= limit
    ensures var r := LengthRange(sym);
      ReadLength(v, pos, limit, sym) ==
        if pos + r.extra > limit then NoNum
        else Num(r.base + Field(v, pos, r.extra) + (if sym == 285 then 1 else 0), pos + r.extra)
  {
    FieldNone(v, pos);
    if sym >= 265 {
      LengthsComputed(sym);
    }
  }

  lemma {:induction false} FieldNone(v: nat, pos: nat)
    ensures Field(v, pos, 0) == 0
  {
  }

  lemma {:induction false} ExtraRead(v: nat, pos: nat, limit: nat, sym: nat)
    requires pos <= limit
    ensures var r := DistRange(sym);
      (if sym < 4 then Num(sym + 1, pos) else ReadExtra(v, pos, limit, DistBase(sym - 4), DistExtra(sym - 4))) ==
        if pos + r.extra > limit then NoNum else Num(r.base + Field(v, pos, r.extra), pos + r.extra)
  {
    FieldNone(v, pos);
    SomeRows();
    if sym >= 4 {
      DistancesComputed(sym);
    }
  }

  /** What is read where an item was written, and all of it is there. */
  ghost predicate ReadsAs(t: Token, it: Item, next: nat)
    requires GoodItem(it)
  {
    match it
    case Plain(b) => t == Literal(b, next)
    case Back(sym, _, _, _) => t == Match(LengthOf(it) + (if sym == 285 then 1 else 0), DistanceOf(it), next)
  }

  lemma {:induction false} DistRead(dist: Code, v: nat, pos: nat, limit: nat, sym: nat, c: nat, value: nat, next: nat)
    requires GoodCode(dist) && Spells(dist, v, pos, sym, c) && Has(v, c, DistRange(sym).extra, value, next)
    requires next <= limit
    ensures ReadDist(dist, v, pos, limit) == Num(DistRange(sym).base + value, next)
  {
    SymRead(dist, v, pos, limit, sym, c);
    ExtraRead(v, c, limit, sym);
  }

  lemma {:induction false} MatchRead(bl: Block, pos: nat, limit: nat, it: Item, at: Places, next: nat)
    requires GoodCode(bl.dist) && it.Back? && GoodItem(it) && Writes(bl, pos, it, at, next) && next <= limit
    ensures ReadsAs(ReadMatch(bl.dist, bl.v, at.a, limit, it.sym), it, next)
  {
    DistRead(bl.dist, bl.v, at.b, limit, it.dsym, at.c, it.dextra, next);
    LengthRead(bl.v, at.a, limit, it.sym);
  }

  lemma {:induction false} TokenOf(bl: Block, pos: nat, limit: nat, s: nat, next: nat)
    requires GoodCode(bl.lit) && GoodCode(bl.dist) && ReadSym(bl.lit, bl.v, pos, limit) == Sym(s, next)
    ensures ReadToken(bl.lit, bl.dist, bl.v, pos, limit) ==
      if s < 256 then Literal(s, next) else if s == 256 then Last(next) else ReadMatch(bl.dist, bl.v, next, limit, s)
  {
  }

  /** Reading finds an item that was written. */
  lemma {:induction false} ItemRead(bl: Block, pos: nat, limit: nat, it: Item, at: Places, next: nat)
    requires GoodBlock(bl) && GoodItem(it) && Writes(bl, pos, it, at, next) && next <= limit
    ensures ReadsAs(ReadToken(bl.lit, bl.dist, bl.v, pos, limit), it, next)
  {
    match it
    case Plain(b) =>
      SymRead(bl.lit, bl.v, pos, limit, b, next);
      TokenOf(bl, pos, limit, b, next);
    case Back(sym, _, _, _) =>
      SymRead(bl.lit, bl.v, pos, limit, sym, at.a);
      TokenOf(bl, pos, limit, sym, at.a);
      MatchRead(bl, pos, limit, it, at, next);
  }

  /** And whatever is read was written. */
  lemma {:induction false} ReadWasWritten(bl: Block, pos: nat, limit: nat) returns (it: Item, at: Places, next: nat)
    requires GoodBlock(bl)
    requires var t := ReadToken(bl.lit, bl.dist, bl.v, pos, limit); t.Match? || (t.Literal? && t.b < 256)
    ensures GoodItem(it) && Writes(bl, pos, it, at, next) && next <= limit
    ensures ReadsAs(ReadToken(bl.lit, bl.dist, bl.v, pos, limit), it, next)
  {
    var s := ReadSym(bl.lit, bl.v, pos, limit);
    SymRead(bl.lit, bl.v, pos, limit, s.s, s.next);
    if s.s < 256 {
      it, at, next := Plain(s.s), Places(0, 0, 0), s.next;
    } else {
      it, at, next := MatchWasWritten(bl, pos, limit, s.s, s.next);
    }
  }

  lemma {:induction false} MatchWasWritten(bl: Block, pos: nat, limit: nat, sym: nat, a: nat) returns (it: Item,
      at: Places, next: nat)
    requires GoodBlock(bl) && 256 < sym < 286 && a <= limit && Spells(bl.lit, bl.v, pos, sym, a)
    requires ReadMatch(bl.dist, bl.v, a, limit, sym).Match?
    ensures GoodItem(it) && it.Back? && it.sym == sym && Writes(bl, pos, it, at, next) && next <= limit
    ensures ReadsAs(ReadMatch(bl.dist, bl.v, a, limit, sym), it, next)
  {
    LengthRead(bl.v, a, limit, sym);
    var b := a + LengthRange(sym).extra;
    var d := ReadSym(bl.dist, bl.v, b, limit);
    SymRead(bl.dist, bl.v, b, limit, d.s, d.next);
    ExtraRead(bl.v, d.next, limit, d.s);
    at := Places(a, b, d.next);
    next := d.next + DistRange(d.s).extra;
    it := Back(sym, Field(bl.v, a, LengthRange(sym).extra), d.s, Field(bl.v, d.next, DistRange(d.s).extra));
  }

  // ---- a whole block -------------------------------------------------------

  /** What an item appends; nothing if a match goes back too far, or spells 258 with symbol 284. */
  function Expand(out: seq<Byte>, it: Item): Option<seq<Byte>>
    requires GoodItem(it)
  {
    match it
    case Plain(b) => Some(out + [b])
    case Back(sym, _, _, _) =>
      if DistanceOf(it) > |out| || (sym == 284 && LengthOf(it) == 258) then None
      else Some(MatchExtend(out, DistanceOf(it), LengthOf(it)))
  }

  /** An item with its place. */
  datatype Piece = Piece(it: Item, at: Places, next: nat)

  /** The pieces are written one after the other from pos to end, all before limit, and expand out to out'. */
  ghost predicate Expands(bl: Block, limit: nat, pos: nat, out: seq<Byte>, ps: seq<Piece>, end: nat, out': seq<Byte>)
    decreases |ps|
  {
    if ps == [] then pos == end && out == out'
    else
      && GoodItem(ps[0].it) && Writes(bl, pos, ps[0].it, ps[0].at, ps[0].next) && ps[0].next <= limit
      && Expand(out, ps[0].it).Some? && Expands(bl, limit, ps[0].next, Expand(out, ps[0].it).value, ps[1..], end, out')
  }

  lemma {:induction false} LengthBound(v: nat, pos: nat, it: Item, next: nat)
    requires it.Back? && GoodItem(it) && Has(v, pos, LengthRange(it.sym).extra, it.extra, next)
    ensures LengthOf(it) <= 258 && (LengthOf(it) == 258 <==> it.sym == 285 || (it.sym == 284 && it.extra == 31))
  {
    var r := LengthRange(it.sym);
    assert it.extra < Pow2(r.extra);
    SomeRows();
    if it.sym < 284 {
      BasesGrow(it.sym + 1, 284);
      LengthsMeet(it.sym);
    } else {
      assert Pow2(5) == 32 && Pow2(0) == 1;
    }
  }

  lemma {:induction false} BasesGrow(a: nat, b: nat)
    requires 257 <= a <= b <= 284
    ensures LengthRange(a).base <= LengthRange(b).base
    decreases b - a
  {
    if a < b {
      LengthsMeet(a);
      BasesGrow(a + 1, b);
    }
  }

  /** r is the step of an item: what it appends, or an error. */
  ghost predicate StepIs(r: Next, s: State, it: Item, next: nat)
    requires GoodItem(it)
  {
    if Expand(s.o.bytes, it).None? then r == Wrong
    else r.More? && r.s.pos == next && r.s.o.bytes == Expand(s.o.bytes, it).value
  }

  lemma {:induction false} ItemStep(bl: Block, limit: nat, s: State, it: Item, at: Places, next: nat)
    requires GoodBlock(bl) && GoodItem(it) && Writes(bl, s.pos, it, at, next) && next <= limit
    ensures StepIs(NextOf(bl, limit)(s), s, it, next)
  {
    ItemRead(bl, s.pos, limit, it, at, next);
    match it
    case Plain(b) =>
    case Back(sym, extra, dsym, dextra) =>
      LengthBound(bl.v, at.a, it, at.b);
      if Expand(s.o.bytes, it).Some? {
        EmitMatchBytes(bl.step, s.o, DistanceOf(it), LengthOf(it));
      }
  }

  /** next takes every item that is written. */
  ghost predicate Takes(next: Stepper, bl: Block, limit: nat)
  {
    forall s: State, it, at, nx: nat {:trigger Writes(bl, s.pos, it, at, nx), next(s)} ::
      GoodItem(it) && Writes(bl, s.pos, it, at, nx) && nx <= limit ==> StepIs(next(s), s, it, nx)
  }

  ghost predicate IsItem(bl: Block, limit: nat, pos: nat, p: Piece)
  {
    GoodItem(p.it) && Writes(bl, pos, p.it, p.at, p.next) && p.next <= limit
  }

  /** next goes on only over items that are written. */
  ghost predicate TakesOnly(next: Stepper, bl: Block, limit: nat)
  {
    forall s: State :: next(s).More? ==> exists p :: IsItem(bl, limit, s.pos, p)
  }

  lemma {:induction false} NextTakes(bl: Block, limit: nat)
    requires GoodBlock(bl)
    ensures Takes(NextOf(bl, limit), bl, limit) && TakesOnly(NextOf(bl, limit), bl, limit)
  {
    forall s: State, it, at, nx: nat | GoodItem(it) && Writes(bl, s.pos, it, at, nx) && nx <= limit
      ensures StepIs(NextOf(bl, limit)(s), s, it, nx)
    {
      ItemStep(bl, limit, s, it, at, nx);
    }
    forall s: State | NextOf(bl, limit)(s).More?
      ensures exists p :: IsItem(bl, limit, s.pos, p)
    {
      var it, at, nx := ReadWasWritten(bl, s.pos, limit);
      assert IsItem(bl, limit, s.pos, Piece(it, at, nx));
    }
  }

  lemma {:induction false} PiecesTaken(next: Stepper, bl: Block, limit: nat, s: State, ps: seq<Piece>, end: nat,
                                       out: seq<Byte>)
    returns (e: State)
    requires Takes(next, bl, limit) && Expands(bl, limit, s.pos, s.o.bytes, ps, end, out)
    ensures Reaches(next, s, |ps|, e) && e.pos == end && e.o.bytes == out
    decreases |ps|
  {
    if ps == [] {
      e := s;
    } else {
      assert StepIs(next(s), s, ps[0].it, ps[0].next);
      e := PiecesTaken(next, bl, limit, next(s).s, ps[1..], end, out);
    }
  }

  lemma {:induction false} TakenPieces(next: Stepper, bl: Block, limit: nat, s: State, n: nat, e: State)
    returns (ps: seq<Piece>)
    requires Takes(next, bl, limit) && TakesOnly(next, bl, limit) && Reaches(next, s, n, e)
    ensures |ps| == n && Expands(bl, limit, s.pos, s.o.bytes, ps, e.pos, e.o.bytes)
    decreases n
  {
    if n == 0 {
      ps := [];
    } else {
      var p :| IsItem(bl, limit, s.pos, p);
      assert StepIs(next(s), s, p.it, p.next);
      var rest := TakenPieces(next, bl, limit, next(s).s, n - 1, e);
      ps := [p] + rest;
      assert ps[1..] == rest;
    }
  }

  /** What is written can be decoded, and comes to what it expands to. */
  lemma {:induction false} PiecesDecoded(bl: Block, limit: nat, s: State, ps: seq<Piece>, end: nat, out: seq<Byte>)
    returns (e: State)
    requires GoodBlock(bl) && Expands(bl, limit, s.pos, s.o.bytes, ps, end, out)
    ensures Reaches(NextOf(bl, limit), s, |ps|, e) && e.pos == end && e.o.bytes == out
  {
    NextTakes(bl, limit);
    e := PiecesTaken(NextOf(bl, limit), bl, limit, s, ps, end, out);
  }

  /** And whatever has been decoded was written, and is what that expands to. */
  lemma {:induction false} DecodedWasWritten(bl: Block, limit: nat, s: State, n: nat, e: State) returns (ps: seq<Piece>)
    requires GoodBlock(bl) && Reaches(NextOf(bl, limit), s, n, e)
    ensures |ps| == n && Expands(bl, limit, s.pos, s.o.bytes, ps, e.pos, e.o.bytes)
  {
    NextTakes(bl, limit);
    ps := TakenPieces(NextOf(bl, limit), bl, limit, s, n, e);
  }

  /** The block ends where symbol 256 is written. */
  lemma {:induction false} EndRead(bl: Block, limit: nat, s: State, next: nat)
    requires GoodBlock(bl)
    ensures NextOf(bl, limit)(s) == Finished(next) <==> Spells(bl.lit, bl.v, s.pos, 256, next) && next <= limit
  {
    SymRead(bl.lit, bl.v, s.pos, limit, 256, next);
  }
}
