/**
 dramstage/transform_fdt.c: copying a flattened device tree (chapter 5 of the Devicetree
 Specification) with /memory replaced and four properties of /chosen renewed.
 */
module Fdt {
  // ---- trees and tokens ----------------------------------------------------

  /** A property: offset of its name in the strings block, length in bytes, value in cells of 32 bits. */
  datatype Prop = Prop(off: nat, len: nat, cells: seq<nat>)

  datatype Tree = Tree(name: string, props: seq<Prop>, kids: seq<Tree>)

  datatype Token = Begin(name: string) | Property(p: Prop) | End | Nop

  function PropTokens(props: seq<Prop>): (r: seq<Token>)
    ensures |r| == |props| && forall i :: 0 <= i < |props| ==> r[i] == Property(props[i])
  {
    seq(|props|, i requires 0 <= i < |props| => Property(props[i]))
  }

  function Flatten(t: Tree): seq<Token>
    decreases t, 0
  {
    [Begin(t.name)] + PropTokens(t.props) + FlattenAll(t.kids) + [End]
  }

  function FlattenAll(ts: seq<Tree>): seq<Token>
    decreases ts, 1
  {
    if ts == [] then [] else Flatten(ts[0]) + FlattenAll(ts[1..])
  }

  // ---- strings -------------------------------------------------------------

  /** The string at an offset of a block of strings. */
  function NameAt(block: string, off: nat): string
    decreases |block| - off
  {
    if off >= |block| || block[off] == '\0' then [] else [block[off]] + NameAt(block, off + 1)
  }

  ghost predicate NoZero(s: string)
  {
    forall i :: 0 <= i < |s| ==> s[i] != '\0'
  }

  lemma {:induction false} NameAtOf(a: string, s: string, b: string)
    requires NoZero(s)
    ensures NameAt(a + s + ['\0'] + b, |a|) == s
    decreases |s|
  {
    var block := a + s + ['\0'] + b;
    if s != [] {
      assert block == (a + [s[0]]) + s[1..] + ['\0'] + b;
      NameAtOf(a + [s[0]], s[1..], b);
    }
  }

  /** A string that ends within the block is not changed by what is added behind it. */
  lemma {:induction false} NameAtKept(block: string, more: string, off: nat)
    requires off < |block| && block[|block| - 1] == '\0'
    ensures NameAt(block + more, off) == NameAt(block, off)
    decreases |block| - off
  {
    if block[off] != '\0' {
      NameAtKept(block, more, off + 1);
    }
  }

  // lines 9-22: the strings that are added and their numbers
  const DEVICE_TYPE := 0
  const REG := 1
  const INITRD_START := 2
  const INITRD_END := 3
  const KASLR_SEED := 4
  const RNG_SEED := 5

  function InsertedNames(): (r: seq<string>)
    ensures |r| == 6
  {
    ["device_type", "reg", "linux,initrd-start", "linux,initrd-end", "kaslr-seed", "rng-seed"]
  }

  /** lines 23-27: each string begins behind the end of the one before. */
  function OffsetOf(names: seq<string>, k: nat): nat
    requires k <= |names|
  {
    if k == 0 then 0 else OffsetOf(names, k - 1) + |names[k - 1]| + 1
  }

  /** lines 29-33 */
  function Joined(names: seq<string>): string
  {
    if names == [] then [] else names[0] + ['\0'] + Joined(names[1..])
  }

  lemma {:induction false} OffsetOfTail(names: seq<string>, k: nat)
    requires 0 < k <= |names|
    ensures OffsetOf(names, k) == |names[0]| + 1 + OffsetOf(names[1..], k - 1)
  {
    if k > 1 {
      OffsetOfTail(names, k - 1);
    }
  }

  /** The offsets that are written resolve to the strings they are meant for. */
  lemma {:induction false} InsertedResolve(block: string, names: seq<string>, k: nat)
    requires k < |names| && forall i :: 0 <= i < |names| ==> NoZero(names[i])
    ensures NameAt(block + Joined(names), |block| + OffsetOf(names, k)) == names[k]
    decreases |names|
  {
    if k == 0 {
      assert block + Joined(names) == block + names[0] + ['\0'] + Joined(names[1..]);
      NameAtOf(block, names[0], Joined(names[1..]));
    } else {
      var block' := block + names[0] + ['\0'];
      assert block + Joined(names) == block' + Joined(names[1..]);
      OffsetOfTail(names, k);
      InsertedResolve(block', names[1..], k - 1);
    }
  }

  // ---- what is inserted ----------------------------------------------------

  /** struct fdt_addendum, as far as it is used for the tokens. */
  datatype Info = Info(dramStart: nat, dramSize: nat, initrdStart: nat, initrdEnd: nat, entropy: seq<nat>)

  function Off(strings: nat, k: nat): nat
    requires k <= 6
  {
    strings + OffsetOf(InsertedNames(), k)
  }

  function Zeros(n: nat): (r: seq<nat>)
    ensures |r| == n && forall i :: 0 <= i < n ==> r[i] == 0
  {
    seq(n, _ => 0)
  }

  /** be32 of an address: it takes 32 bits. */
  function Word32(v: nat): (w: nat)
    ensures w < 0x1_0000_0000
  {
    v % 0x1_0000_0000
  }

  /** lines 37-50. The two addresses are written in at least one cell, of which all but the last are 0. */
  function InitrdProps(info: Info, addrCells: nat, strings: nat): seq<Prop>
    requires info.initrdStart != info.initrdEnd ==> addrCells > 0
  {
    if info.initrdStart == info.initrdEnd then []
    else [Prop(Off(strings, INITRD_START), 4 * addrCells, Zeros(addrCells - 1) + [Word32(info.initrdStart)]),
          Prop(Off(strings, INITRD_END), 4 * addrCells, Zeros(addrCells - 1) + [Word32(info.initrdEnd)])]
  }

  /** lines 51-58 */
  function SeedProps(info: Info, strings: nat): seq<Prop>
  {
    if |info.entropy| >= 2 then [Prop(Off(strings, KASLR_SEED), 8, info.entropy[..2])] else []
  }

  /** lines 59-68 */
  function RngProps(info: Info, strings: nat): seq<Prop>
  {
    if |info.entropy| > 2 then [Prop(Off(strings, RNG_SEED), 4 * (|info.entropy| - 2), info.entropy[2..])] else []
  }

  /** lines 35-70 */
  function ChosenProps(info: Info, addrCells: nat, strings: nat): seq<Prop>
    requires info.initrdStart != info.initrdEnd ==> addrCells > 0
  {
    InitrdProps(info, addrCells, strings) + SeedProps(info, strings) + RngProps(info, strings)
  }

  /** lines 87-92: v in n cells, the highest first; the source shifts by at most 32. */
  function Cells(v: nat, n: nat): (r: seq<nat>)
    ensures |r| == n
  {
    seq(n, i requires 0 <= i < n => if n - i > 2 then 0 else if n - i == 2 then v / 0x1_0000_0000 % 0x1_0000_0000 else v % 0x1_0000_0000)
  }

  function CellValue(cells: seq<nat>): nat
  {
    if cells == [] then 0 else 0x1_0000_0000 * CellValue(cells[..|cells| - 1]) + cells[|cells| - 1]
  }

  /** lines 73-79, without the check for room: the values fit their cells. */
  predicate MemoryFits(info: Info, addrCells: nat, sizeCells: nat)
  {
    && (info.dramStart > 0 ==> addrCells > 0) && (info.dramStart > 0xffff_ffff ==> addrCells >= 2)
    && (info.dramSize > 0 ==> sizeCells > 0) && (info.dramSize > 0xffff_ffff ==> sizeCells >= 2)
  }

  lemma {:induction false} CellValueZeros(s: seq<nat>)
    requires forall i :: 0 <= i < |s| ==> s[i] == 0
    ensures CellValue(s) == 0
  {
    if s != [] {
      CellValueZeros(s[..|s| - 1]);
    }
  }

  /** A value that passed the checks can be read back from its cells. */
  lemma {:induction false} CellsRoundTrip(v: nat, n: nat)
    requires v < 0x1_0000_0000_0000_0000 && (v > 0 ==> n > 0) && (v > 0xffff_ffff ==> n >= 2)
    ensures CellValue(Cells(v, n)) == v
  {
    var c := Cells(v, n);
    if n > 0 {
      var high := c[..n - 1];
      if n == 1 {
        assert CellValue(high) == 0;
      } else {
        CellValueZeros(high[..n - 2]);
        assert CellValue(high) == v / 0x1_0000_0000;
      }
    }
  }

  /** One cell holds the low half of an address: that is all of it only below 4 GiB. */
  lemma {:induction false} LastCellReadsBack(v: nat, n: nat)
    ensures CellValue(Zeros(n) + [Word32(v)]) == v <==> v < 0x1_0000_0000
  {
    var c := Zeros(n) + [Word32(v)];
    assert c[..n] == Zeros(n);
    CellValueZeros(Zeros(n));
  }

  /** The addresses in /chosen are those of the initial RAM disk exactly if both are below 4 GiB. */
  lemma {:induction false} InitrdReadsBack(info: Info, addrCells: nat, strings: nat)
    requires info.initrdStart != info.initrdEnd && addrCells > 0
    ensures var p := ChosenProps(info, addrCells, strings);
            |p| >= 2 && (CellValue(p[0].cells) == info.initrdStart && CellValue(p[1].cells) == info.initrdEnd <==>
                         info.initrdStart < 0x1_0000_0000 && info.initrdEnd < 0x1_0000_0000)
  {
    LastCellReadsBack(info.initrdStart, addrCells - 1);
    LastCellReadsBack(info.initrdEnd, addrCells - 1);
  }

  /** An initial RAM disk above 4 GiB, with room for its address in two cells. */
  lemma {:induction false} InitrdTruncated(info: Info, strings: nat)
    requires info.initrdStart == 0x1_0800_0000 && info.initrdEnd == 0x1_0900_0000
    ensures ChosenProps(info, 2, strings)[0].cells == [0, 0x0800_0000]
    ensures CellValue([0, 0x0800_0000]) != info.initrdStart
  {
    assert ChosenProps(info, 2, strings)[0].cells == Zeros(1) + [Word32(info.initrdStart)];
    assert [0, 0x0800_0000][..1] == [0] && [0][..0] == [];
  }

  /** lines 72-95; the value "memory" is two cells. */
  function MemoryTree(info: Info, addrCells: nat, sizeCells: nat, strings: nat): Tree
  {
    Tree("memory", [Prop(Off(strings, DEVICE_TYPE), 7, [0x6d656d6f, 0x72790000]),
                    Prop(Off(strings, REG), 4 * (addrCells + sizeCells), Cells(info.dramStart, addrCells) + Cells(info.dramSize, sizeCells))], [])
  }

  // ---- one token -----------------------------------------------------------

  /** strncmp(block + off, lit, |block| - off) == 0 */
  predicate Strncmp(block: string, off: nat, lit: string)
    decreases |block| - off
  {
    off >= |block| ||
    var c := if lit == [] then '\0' else lit[0];
    block[off] == c && (lit == [] || c == '\0' || Strncmp(block, off + 1, lit[1..]))
  }

  /** In a block that ends with a terminator this is equality of strings. */
  lemma {:induction false} StrncmpIsEqual(block: string, off: nat, lit: string)
    requires off < |block| && block[|block| - 1] == '\0' && NoZero(lit)
    ensures Strncmp(block, off, lit) <==> NameAt(block, off) == lit
    decreases |block| - off
  {
    if lit != [] && block[off] == lit[0] {
      StrncmpIsEqual(block, off + 1, lit[1..]);
      assert lit == [lit[0]] + lit[1..];
    }
  }

  /** lines 218-225 */
  predicate IsReplaced(block: string, off: nat)
  {
    || Strncmp(block, off, "linux,initrd-start") || Strncmp(block, off, "linux,initrd-end")
    || Strncmp(block, off, "kaslr-seed") || Strncmp(block, off, "rng-seed")
  }

  /** room is how many words of output there is space for. */
  datatype Env = Env(info: Info, block: string, room: nat)

  /** The variables of the loop: path is the buffer up to path_len. */
  datatype State = State(path: string, skip: nat, addr: nat, size: nat, chosen: bool, out: seq<Token>)

  /**
   Overrun stands for the loops of lines 43 and 48 with no address cells: their bound wraps
   around. at is the output that they come after.
   */
  datatype Result = Fail | Overrun(at: seq<Token>) | Go(st: State)

  const CHOSEN := "\0chosen\0"
  const MAX_PATH := 256

  function Trim(s: string): (r: string)
    ensures |r| <= |s|
  {
    if s == [] || s[|s| - 1] == '\0' then s else Trim(s[..|s| - 1])
  }

  /** line 196: back to the end of the name before. */
  function Pop(path: string): string
    requires path != []
  {
    Trim(path[..|path| - 1])
  }

  /** lines 177-181 */
  function CloseChosen(env: Env, st: State): Result
  {
    if !st.chosen then Go(st)
    else if env.info.initrdStart != env.info.initrdEnd && st.addr == 0 then Overrun(st.out)
    else Go(st.(out := st.out + PropTokens(ChosenProps(env.info, st.addr, |env.block|)), chosen := false))
  }

  /** lines 228-234 */
  function Copy(st: State, tok: Token): State
  {
    var s := if st.skip == 0 then st.(out := st.out + [tok]) else st;
    if |s.path| <= s.skip then s.(skip := 0) else s
  }

  function StepBegin(st: State, name: string): Result
  {
    var skip := if |st.path| == 1 && name == "memory" then 1 else st.skip;
    if |st.path| + |name| + 1 > MAX_PATH then Fail
    else
      var path := st.path + name + ['\0'];
      Go(Copy(st.(path := path, skip := skip, chosen := st.chosen || path == CHOSEN), Begin(name)))
  }

  function StepEnd(env: Env, st: State): Result
  {
    if |st.path| > 1 then Go(Copy(st.(path := Pop(st.path)), End))
    else if |st.path| == 1 then
      if !MemoryFits(env.info, st.addr, st.size) then Fail
      else Go(Copy(st.(path := "", out := st.out + Flatten(MemoryTree(env.info, st.addr, st.size, |env.block|))), End))
    else Fail
  }

  /** lines 206-226: the cell counts among the properties of the root. */
  function StepCells(env: Env, st: State, p: Prop): Result
  {
    if |st.path| == 1 && p.len == 4 && |p.cells| == 1 then
      if Strncmp(env.block, p.off, "#address-cells") then
        if st.addr != 0 || p.cells[0] > 4 then Fail else Go(st.(addr := p.cells[0]))
      else if Strncmp(env.block, p.off, "#size-cells") then
        if st.size != 0 || p.cells[0] > 4 then Fail else Go(st.(size := p.cells[0]))
      else Go(st)
    else if st.chosen && IsReplaced(env.block, p.off) then Go(st.(skip := |st.path|))
    else Go(st)
  }

  function StepProp(env: Env, st: State, p: Prop): Result
  {
    if p.off >= |env.block| then Fail
    else
      match StepCells(env, st, p)
      case Fail => Fail
      case Overrun(at) => Overrun(at)
      case Go(s) => Go(Copy(s, Property(p)))
  }

  function Step(env: Env, st: State, tok: Token): Result
  {
    match tok
    case Nop => Go(st)
    case Property(p) => StepProp(env, st, p)
    case Begin(name) => (match CloseChosen(env, st) case Fail => Fail case Overrun(at) => Overrun(at) case Go(s) => StepBegin(s, name))
    case End => (match CloseChosen(env, st) case Fail => Fail case Overrun(at) => Overrun(at) case Go(s) => StepEnd(env, s))
  }

  function Feed(env: Env, r: Result, toks: seq<Token>): Result
    decreases |toks|
  {
    if toks == [] || !r.Go? then r else Feed(env, Step(env, r.st, toks[0]), toks[1..])
  }

  lemma {:induction false} FeedConcat(env: Env, r: Result, a: seq<Token>, b: seq<Token>)
    ensures Feed(env, r, a + b) == Feed(env, Feed(env, r, a), b)
    decreases |a|
  {
    if a == [] {
      assert a + b == b;
    } else if r.Go? {
      assert (a + b)[1..] == a[1..] + b;
      FeedConcat(env, Step(env, r.st, a[0]), a[1..], b);
    }
  }

  function Strip(toks: seq<Token>): seq<Token>
  {
    if toks == [] then [] else (if toks[0] == Nop then [] else [toks[0]]) + Strip(toks[1..])
  }

  /** Tokens without meaning change nothing. */
  lemma {:induction false} FeedStrip(env: Env, r: Result, toks: seq<Token>)
    ensures Feed(env, r, toks) == Feed(env, r, Strip(toks))
    decreases |toks|
  {
    if toks != [] && r.Go? {
      FeedStrip(env, Step(env, r.st, toks[0]), toks[1..]);
      if toks[0] != Nop {
        assert Strip(toks)[1..] == Strip(toks[1..]);
      } else {
        assert Strip(toks) == Strip(toks[1..]);
      }
    }
  }

  // ---- room for the output -------------------------------------------------

  /** fdt_token_size of include/fdt.h, in words */
  function Size(tok: Token): nat
  {
    match tok
    case Begin(name) => (5 + |name| + 3) / 4
    case Property(p) => (12 + p.len + 3) / 4
    case End => 1
    case Nop => 1
  }

  function Words(toks: seq<Token>): nat
  {
    if toks == [] then 0 else Words(toks[..|toks| - 1]) + Size(toks[|toks| - 1])
  }

  lemma {:induction false} OneMore(out: seq<Token>, tok: Token)
    ensures Words(out + [tok]) == Words(out) + Size(tok)
  {
    assert (out + [tok])[..|out|] == out;
  }

  lemma {:induction false} WordsConcat(a: seq<Token>, b: seq<Token>)
    ensures Words(a + b) == Words(a) + Words(b)
    decreases |b|
  {
    if b == [] {
      assert a + b == a;
    } else {
      assert (a + b)[..|a| + |b| - 1] == a + b[..|b| - 1];
      WordsConcat(a, b[..|b| - 1]);
    }
  }

  lemma {:induction false} WordsGrow(a: seq<Token>, b: seq<Token>)
    requires a <= b
    ensures Words(a) <= Words(b)
  {
    assert b == a + b[|a|..];
    WordsConcat(a, b[|a|..]);
  }

  /** What does not fit is a failure. The insertion that runs away has looked for six words first (line 38). */
  function Limit(env: Env, r: Result): Result
  {
    match r
    case Fail => Fail
    case Overrun(at) => if Words(at) + 6 > env.room then Fail else r
    case Go(s) => if Words(s.out) > env.room then Fail else r
  }

  function FeedIn(env: Env, r: Result, toks: seq<Token>): Result
    decreases |toks|
  {
    if toks == [] || !r.Go? then r else FeedIn(env, Limit(env, Step(env, r.st, toks[0])), toks[1..])
  }

  lemma {:induction false} StepGrows(env: Env, st: State, tok: Token)
    requires Step(env, st, tok).Go?
    ensures st.out <= Step(env, st, tok).st.out
  {
  }

  lemma {:induction false} FeedGrows(env: Env, st: State, toks: seq<Token>)
    requires Feed(env, Go(st), toks).Go?
    ensures st.out <= Feed(env, Go(st), toks).st.out
    decreases |toks|
  {
    if toks != [] {
      var r := Step(env, st, toks[0]);
      if r.Go? {
        StepGrows(env, st, toks[0]);
        FeedGrows(env, r.st, toks[1..]);
      }
    }
  }

  /** Going on within the room there is means going on without limit and needing no more in the end. */
  lemma {:induction false} RoomDecides(env: Env, st: State, toks: seq<Token>)
    requires Words(st.out) <= env.room
    ensures FeedIn(env, Go(st), toks).Go? <==>
      Feed(env, Go(st), toks).Go? && Words(Feed(env, Go(st), toks).st.out) <= env.room
    ensures FeedIn(env, Go(st), toks).Go? ==> FeedIn(env, Go(st), toks) == Feed(env, Go(st), toks)
    decreases |toks|
  {
    if toks != [] {
      var r := Step(env, st, toks[0]);
      if r.Go? && Words(r.st.out) <= env.room {
        RoomDecides(env, r.st, toks[1..]);
      } else if Feed(env, r, toks[1..]).Go? {
        FeedGrows(env, r.st, toks[1..]);
        WordsGrow(r.st.out, Feed(env, r, toks[1..]).st.out);
      }
    }
  }

  lemma {:induction false} FeedInConcat(env: Env, r: Result, a: seq<Token>, b: seq<Token>)
    ensures FeedIn(env, r, a + b) == FeedIn(env, FeedIn(env, r, a), b)
    decreases |a|
  {
    if a == [] {
      assert a + b == b;
    } else if r.Go? {
      assert (a + b)[1..] == a[1..] + b;
      FeedInConcat(env, Limit(env, Step(env, r.st, a[0])), a[1..], b);
    }
  }

  // ---- the path is the stack of open nodes ---------------------------------

  ghost predicate GoodPath(path: string)
  {
    path != [] && path[0] == '\0' && path[|path| - 1] == '\0'
  }

  lemma {:induction false} TrimLast(path: string, name: string)
    requires NoZero(name) && (path == [] || path[|path| - 1] == '\0')
    ensures Trim(path + name) == path
    decreases |name|
  {
    if name == [] {
      assert path + name == path;
    } else {
      assert (path + name)[..|path| + |name| - 1] == path + name[..|name| - 1];
      TrimLast(path, name[..|name| - 1]);
    }
  }

  /** Leaving a node undoes entering it. */
  lemma {:induction false} PopUndoesPush(path: string, name: string)
    requires GoodPath(path) && NoZero(name)
    ensures GoodPath(path + name + ['\0']) && Pop(path + name + ['\0']) == path
  {
    assert (path + name + ['\0'])[..|path| + |name|] == path + name;
    TrimLast(path, name);
  }

  /** The names of the nodes that are open after these tokens. */
  function Stack(toks: seq<Token>): seq<string>
  {
    if toks == [] then []
    else
      var n := |toks| - 1;
      var s := Stack(toks[..n]);
      match toks[n]
      case Begin(name) => s + [name]
      case End => if s == [] then [] else s[..|s| - 1]
      case _ => s
  }

  function PathOf(names: seq<string>): string
  {
    if names == [] then [] else PathOf(names[..|names| - 1]) + names[|names| - 1] + ['\0']
  }

  ghost predicate CleanNames(toks: seq<Token>)
  {
    forall i :: 0 <= i < |toks| && toks[i].Begin? ==> NoZero(toks[i].name)
  }

  lemma {:induction false} StackClean(toks: seq<Token>)
    requires CleanNames(toks)
    ensures forall i :: 0 <= i < |Stack(toks)| ==> NoZero(Stack(toks)[i])
  {
    if toks != [] {
      StackClean(toks[..|toks| - 1]);
    }
  }

  lemma {:induction false} PopPathOf(names: seq<string>)
    requires names != [] && NoZero(names[|names| - 1])
    ensures |PathOf(names)| > 1 ==> Pop(PathOf(names)) == PathOf(names[..|names| - 1])
    ensures |PathOf(names)| == 1 ==> PathOf(names[..|names| - 1]) == ""
  {
    var front, last := PathOf(names[..|names| - 1]), names[|names| - 1];
    assert PathOf(names)[..|front| + |last|] == front + last;
    assert front == [] || front[|front| - 1] == '\0';
    TrimLast(front, last);
  }

  /** At every token the path is that of the open nodes. */
  lemma {:induction false} PathIsStack(env: Env, toks: seq<Token>)
    requires CleanNames(toks) && Feed(env, Go(INITIAL), toks).Go?
    ensures Feed(env, Go(INITIAL), toks).st.path == PathOf(Stack(toks))
    decreases |toks|
  {
    if toks != [] {
      var n := |toks| - 1;
      var front := toks[..n];
      assert front + [toks[n]] == toks;
      FeedConcat(env, Go(INITIAL), front, [toks[n]]);
      var r := Feed(env, Go(INITIAL), front);
      assert r.Go?;
      PathIsStack(env, front);
      StackClean(front);
      assert [toks[n]] == [toks[n]] + [];
      FeedOne(env, r.st, toks[n], []);
      PathStep(env, r.st, toks[n], Stack(front));
    }
  }

  /** What a token does to the path. */
  function PathAfter(path: string, tok: Token): string
  {
    match tok
    case Begin(name) => path + name + ['\0']
    case End => if |path| > 1 then Pop(path) else ""
    case _ => path
  }

  lemma {:induction false} BeginPath(env: Env, st: State, name: string)
    requires Step(env, st, Begin(name)).Go?
    ensures Step(env, st, Begin(name)).st.path == PathAfter(st.path, Begin(name))
  {
  }

  lemma {:induction false} EndPath(env: Env, st: State)
    requires Step(env, st, End).Go?
    ensures Step(env, st, End).st.path == PathAfter(st.path, End)
  {
  }

  lemma {:induction false} PathStep(env: Env, st: State, tok: Token, names: seq<string>)
    requires st.path == PathOf(names) && (forall i :: 0 <= i < |names| ==> NoZero(names[i])) && Step(env, st, tok).Go?
    ensures Step(env, st, tok).st.path ==
            match tok
            case Begin(name) => PathOf(names + [name])
            case End => if names == [] then "" else PathOf(names[..|names| - 1])
            case _ => st.path
  {
    match tok
    case Begin(name) =>
      BeginPath(env, st, name);
      assert (names + [name])[..|names|] == names;
    case End =>
      EndPath(env, st);
      if names != [] {
        PopPathOf(names);
      }
    case _ =>
  }

  // ---- whole trees ---------------------------------------------------------

  ghost predicate GoodProps(props: seq<Prop>, strings: nat)
  {
    forall i :: 0 <= i < |props| ==> props[i].off < strings
  }

  /** Names contain no terminator and property names are in the strings block. */
  ghost predicate GoodTree(t: Tree, strings: nat)
    decreases t, 0
  {
    NoZero(t.name) && GoodProps(t.props, strings) && GoodTrees(t.kids, strings)
  }

  ghost predicate GoodTrees(ts: seq<Tree>, strings: nat)
    decreases ts, 1
  {
    ts == [] || (GoodTree(ts[0], strings) && GoodTrees(ts[1..], strings))
  }

  /** No path below is longer than the buffer. */
  predicate Fits(path: string, t: Tree)
    decreases t, 0
  {
    |path| + |t.name| + 1 <= MAX_PATH && AllFit(path + t.name + ['\0'], t.kids)
  }

  predicate AllFit(path: string, ts: seq<Tree>)
    decreases ts, 1
  {
    ts == [] || (Fits(path, ts[0]) && AllFit(path, ts[1..]))
  }

  function Emit(st: State, toks: seq<Token>): State
  {
    if st.skip == 0 then st.(out := st.out + toks) else st
  }

  /** Not in the properties of /chosen, and not at the end of what is skipped. */
  ghost predicate Plain(st: State)
  {
    GoodPath(st.path) && !st.chosen && (st.skip == 0 || |st.path| > st.skip)
  }

  lemma {:induction false} FeedOne(env: Env, st: State, tok: Token, rest: seq<Token>)
    ensures Feed(env, Go(st), [tok] + rest) == Feed(env, Step(env, st, tok), rest)
  {
    assert ([tok] + rest)[1..] == rest;
  }

  lemma {:induction false} PlainPropStep(env: Env, st: State, p: Prop)
    requires Plain(st) && |st.path| > 1 && p.off < |env.block|
    ensures Step(env, st, Property(p)) == Go(Emit(st, [Property(p)]))
  {
  }

  lemma {:induction false} EmitTwice(st: State, a: seq<Token>, b: seq<Token>)
    ensures Emit(Emit(st, a), b) == Emit(st, a + b)
  {
    assert st.out + a + b == st.out + (a + b);
  }

  lemma {:induction false} PlainProps(env: Env, st: State, props: seq<Prop>)
    requires Plain(st) && |st.path| > 1 && GoodProps(props, |env.block|)
    ensures Feed(env, Go(st), PropTokens(props)) == Go(Emit(st, PropTokens(props)))
    decreases |props|
  {
    if props == [] {
      assert st.out + PropTokens(props) == st.out;
    } else {
      var first, rest := Property(props[0]), PropTokens(props[1..]);
      assert PropTokens(props) == [first] + rest;
      FeedOne(env, st, first, rest);
      PlainPropStep(env, st, props[0]);
      PlainProps(env, Emit(st, [first]), props[1..]);
      EmitTwice(st, [first], rest);
    }
  }

  /** The path of a node below the second level is not that of /chosen. */
  lemma {:induction false} DeepNotChosen(path: string, name: string)
    requires GoodPath(path) && |path| > 1
    ensures path + name + ['\0'] != CHOSEN
  {
    if |path| + |name| + 1 == |CHOSEN| {
      assert (path + name + ['\0'])[|path| - 1] == '\0';
      assert CHOSEN[|path| - 1] != '\0';
    }
  }

  ghost predicate Ordinary(path: string, t: Tree)
  {
    path + t.name + ['\0'] != CHOSEN && !(|path| == 1 && t.name == "memory")
  }

  lemma {:induction false} PlainBegin(env: Env, st: State, t: Tree)
    requires Plain(st) && Ordinary(st.path, t) && NoZero(t.name)
    ensures Step(env, st, Begin(t.name)) ==
            if |st.path| + |t.name| + 1 > MAX_PATH then Fail
            else Go(Emit(st, [Begin(t.name)]).(path := st.path + t.name + ['\0']))
  {
  }

  lemma {:induction false} PlainEnd(env: Env, st: State, path: string, name: string)
    requires Plain(st) && GoodPath(path) && NoZero(name) && st.path == path + name + ['\0']
    requires st.skip == 0 || |path| > st.skip
    ensures Step(env, st, End) == Go(Emit(st, [End]).(path := path))
  {
    PopUndoesPush(path, name);
  }

  /** The tokens of a node one after the other. */
  lemma {:induction false} FeedNode(env: Env, st: State, t: Tree)
    ensures Feed(env, Go(st), Flatten(t)) ==
            Feed(env, Feed(env, Feed(env, Step(env, st, Begin(t.name)), PropTokens(t.props)), FlattenAll(t.kids)), [End])
  {
    var props, kids, r := PropTokens(t.props), FlattenAll(t.kids), Step(env, st, Begin(t.name));
    assert Flatten(t) == [Begin(t.name)] + (props + (kids + [End]));
    FeedOne(env, st, Begin(t.name), props + (kids + [End]));
    FeedConcat(env, r, props, kids + [End]);
    FeedConcat(env, Feed(env, r, props), kids, [End]);
  }

  lemma {:induction false} FeedEnd(env: Env, st: State)
    ensures Feed(env, Go(st), [End]) == Step(env, st, End)
  {
    FeedOne(env, st, End, []);
    assert [End] + [] == [End];
  }

  lemma {:induction false} EmitNode(st: State, t: Tree, path: string)
    ensures Emit(Emit(Emit(Emit(st, [Begin(t.name)]).(path := path), PropTokens(t.props)), FlattenAll(t.kids)), [End]).(path := st.path)
         == Emit(st, Flatten(t))
  {
    assert st.out + [Begin(t.name)] + PropTokens(t.props) + FlattenAll(t.kids) + [End] == st.out + Flatten(t);
  }

  /** An ordinary subtree is copied as it is, or skipped as a whole; the path is afterwards what it was before. */
  lemma {:induction false} PlainTree(env: Env, st: State, t: Tree)
    requires Plain(st) && Ordinary(st.path, t) && GoodTree(t, |env.block|)
    ensures Feed(env, Go(st), Flatten(t)) == if Fits(st.path, t) then Go(Emit(st, Flatten(t))) else Fail
    decreases t, 0
  {
    FeedNode(env, st, t);
    PlainBegin(env, st, t);
    if |st.path| + |t.name| + 1 <= MAX_PATH {
      var path := st.path + t.name + ['\0'];
      PopUndoesPush(st.path, t.name);
      var s := Emit(st, [Begin(t.name)]).(path := path);
      PlainProps(env, s, t.props);
      var s1 := Emit(s, PropTokens(t.props));
      PlainTrees(env, s1, t.kids);
      if AllFit(path, t.kids) {
        var s2 := Emit(s1, FlattenAll(t.kids));
        FeedEnd(env, s2);
        PlainEnd(env, s2, st.path, t.name);
        EmitNode(st, t, path);
      }
    }
  }

  lemma {:induction false} PlainTrees(env: Env, st: State, ts: seq<Tree>)
    requires Plain(st) && |st.path| > 1 && GoodTrees(ts, |env.block|)
    ensures Feed(env, Go(st), FlattenAll(ts)) == if AllFit(st.path, ts) then Go(Emit(st, FlattenAll(ts))) else Fail
    decreases ts, 1
  {
    if ts == [] {
      assert st.out + FlattenAll(ts) == st.out;
    } else {
      FeedConcat(env, Go(st), Flatten(ts[0]), FlattenAll(ts[1..]));
      DeepNotChosen(st.path, ts[0].name);
      PlainTree(env, st, ts[0]);
      if Fits(st.path, ts[0]) {
        var s := Emit(st, Flatten(ts[0]));
        PlainTrees(env, s, ts[1..]);
        assert st.out + Flatten(ts[0]) + FlattenAll(ts[1..]) == st.out + FlattenAll(ts);
      }
    }
  }

  // ---- the children of the root --------------------------------------------

  const ROOT := "\0"

  ghost predicate InRoot(st: State)
  {
    st.path == ROOT && st.skip == 0 && !st.chosen
  }

  /** /memory is left out. */
  lemma {:induction false} MemoryChild(env: Env, st: State, t: Tree)
    requires InRoot(st) && t.name == "memory" && GoodTree(t, |env.block|)
    ensures Feed(env, Go(st), Flatten(t)) == if Fits(ROOT, t) then Go(st) else Fail
  {
    FeedNode(env, st, t);
    var s := st.(path := ROOT + "memory" + ['\0'], skip := 1);
    NameDecides("memory");
    assert Step(env, st, Begin(t.name)) == Go(s);
    PopUndoesPush(ROOT, "memory");
    PlainProps(env, s, t.props);
    PlainTrees(env, s, t.kids);
    if AllFit(s.path, t.kids) {
      FeedEnd(env, s);
      assert Step(env, s, End) == Go(st);
    }
  }

  /** The properties of /chosen that stay. */
  function Kept(env: Env, props: seq<Prop>): seq<Prop>
  {
    if props == [] then [] else KeptOne(env, props[0]) + Kept(env, props[1..])
  }

  lemma {:induction false} PropTokensConcat(a: seq<Prop>, b: seq<Prop>)
    ensures PropTokens(a + b) == PropTokens(a) + PropTokens(b)
  {
  }

  function KeptOne(env: Env, p: Prop): seq<Prop>
  {
    if IsReplaced(env.block, p.off) then [] else [p]
  }

  lemma {:induction false} ChosenPropStep(env: Env, st: State, p: Prop)
    requires st.path == CHOSEN && st.chosen && st.skip == 0 && p.off < |env.block|
    ensures Step(env, st, Property(p)) == Go(st.(out := st.out + PropTokens(KeptOne(env, p))))
  {
    assert st.out + PropTokens([]) == st.out;
    assert PropTokens([p]) == [Property(p)];
  }

  lemma {:induction false} ChosenPropsKept(env: Env, st: State, props: seq<Prop>)
    requires st.path == CHOSEN && st.chosen && st.skip == 0 && GoodProps(props, |env.block|)
    ensures Feed(env, Go(st), PropTokens(props)) == Go(st.(out := st.out + PropTokens(Kept(env, props))))
    decreases |props|
  {
    if props == [] {
      assert st.out + PropTokens(Kept(env, props)) == st.out;
    } else {
      var rest, kept, more := PropTokens(props[1..]), KeptOne(env, props[0]), Kept(env, props[1..]);
      assert PropTokens(props) == [Property(props[0])] + rest;
      FeedOne(env, st, Property(props[0]), rest);
      ChosenPropStep(env, st, props[0]);
      ChosenPropsKept(env, st.(out := st.out + PropTokens(kept)), props[1..]);
      PropTokensConcat(kept, more);
      JoinThree(st.out, PropTokens(kept), PropTokens(more));
    }
  }

  /** The insertion happens before the first token that is not a property. */
  lemma {:induction false} FeedClose(env: Env, st: State, toks: seq<Token>)
    requires toks != [] && (toks[0].Begin? || toks[0].End?)
    ensures Feed(env, Go(st), toks) == Feed(env, CloseChosen(env, st), toks)
  {
    if CloseChosen(env, st).Go? {
      assert CloseChosen(env, CloseChosen(env, st).st) == CloseChosen(env, st);
    }
  }

  predicate InitrdFits(env: Env, addr: nat)
  {
    env.info.initrdStart != env.info.initrdEnd ==> addr > 0
  }

  /** /chosen with its four properties renewed. */
  function Renewed(env: Env, addr: nat, t: Tree): Tree
    requires InitrdFits(env, addr)
  {
    Tree(t.name, Kept(env, t.props) + ChosenProps(env.info, addr, |env.block|), t.kids)
  }

  lemma {:induction false} KidsThenEnd(ts: seq<Tree>)
    ensures var toks := FlattenAll(ts) + [End];
            toks != [] && (toks[0].Begin? || toks[0].End?)
  {
    if ts != [] {
      assert Flatten(ts[0])[0] == Begin(ts[0].name);
      assert (FlattenAll(ts) + [End])[0] == Flatten(ts[0])[0];
    }
  }

  lemma {:induction false} EmitRenewed(env: Env, st: State, t: Tree)
    requires InitrdFits(env, st.addr)
    ensures st.out + [Begin(t.name)] + PropTokens(Kept(env, t.props)) + PropTokens(ChosenProps(env.info, st.addr, |env.block|)) + FlattenAll(t.kids) + [End]
         == st.out + Flatten(Renewed(env, st.addr, t))
  {
    PropTokensConcat(Kept(env, t.props), ChosenProps(env.info, st.addr, |env.block|));
    JoinSix(st.out, [Begin(t.name)], PropTokens(Kept(env, t.props)), PropTokens(ChosenProps(env.info, st.addr, |env.block|)), FlattenAll(t.kids), [End]);
  }

  lemma {:induction false} JoinThree(a: seq<Token>, b: seq<Token>, c: seq<Token>)
    ensures a + b + c == a + (b + c)
  {
  }

  lemma {:induction false} JoinSix(a: seq<Token>, b: seq<Token>, c: seq<Token>, d: seq<Token>, e: seq<Token>,
                                   f: seq<Token>)
    ensures a + b + c + d + e + f == a + (b + (c + d) + e + f)
  {
  }

  /** What is written of /chosen before the insertion. */
  function Opening(env: Env, t: Tree): seq<Token>
  {
    [Begin(t.name)] + PropTokens(Kept(env, t.props))
  }

  lemma {:induction false} ChosenChild(env: Env, st: State, t: Tree)
    requires InRoot(st) && t.name == "chosen" && GoodTree(t, |env.block|)
    ensures Feed(env, Go(st), Flatten(t)).Go? <==> Fits(ROOT, t) && InitrdFits(env, st.addr)
    ensures Fits(ROOT, t) && InitrdFits(env, st.addr) ==>
            Feed(env, Go(st), Flatten(t)) == Go(st.(out := st.out + Flatten(Renewed(env, st.addr, t))))
    ensures !InitrdFits(env, st.addr) ==> Feed(env, Go(st), Flatten(t)) == Overrun(st.out + Opening(env, t))
  {
    var kids := FlattenAll(t.kids);
    FeedNode(env, st, t);
    assert ROOT + "chosen" + ['\0'] == CHOSEN;
    var s := st.(path := CHOSEN, chosen := true, out := st.out + [Begin(t.name)]);
    assert Step(env, st, Begin(t.name)) == Go(s);
    ChosenPropsKept(env, s, t.props);
    var s1 := s.(out := s.out + PropTokens(Kept(env, t.props)));
    FeedConcat(env, Go(s1), kids, [End]);
    KidsThenEnd(t.kids);
    FeedClose(env, s1, kids + [End]);
    if InitrdFits(env, st.addr) {
      var s2 := s1.(out := s1.out + PropTokens(ChosenProps(env.info, st.addr, |env.block|)), chosen := false);
      assert CloseChosen(env, s1) == Go(s2);
      FeedConcat(env, Go(s2), kids, [End]);
      PlainTrees(env, s2, t.kids);
      if AllFit(CHOSEN, t.kids) {
        var s3 := s2.(out := s2.out + kids);
        FeedEnd(env, s3);
        PlainEnd(env, s3, ROOT, "chosen");
        EmitRenewed(env, st, t);
      }
    } else {
      JoinThree(st.out, [Begin(t.name)], PropTokens(Kept(env, t.props)));
    }
  }

  // ---- the root ------------------------------------------------------------

  predicate KidOk(env: Env, addr: nat, t: Tree)
  {
    Fits(ROOT, t) && (t.name == "chosen" ==> InitrdFits(env, addr))
  }

  predicate KidsOk(env: Env, addr: nat, ts: seq<Tree>)
  {
    forall i :: 0 <= i < |ts| ==> KidOk(env, addr, ts[i])
  }

  /** What becomes of the children of the root. */
  function RewriteKids(env: Env, addr: nat, ts: seq<Tree>): seq<Tree>
    requires KidsOk(env, addr, ts)
  {
    if ts == [] then []
    else
      assert KidOk(env, addr, ts[0]);
      RewriteKid(env, addr, ts[0]) + RewriteKids(env, addr, ts[1..])
  }

  lemma {:induction false} FlattenAllConcat(a: seq<Tree>, b: seq<Tree>)
    ensures FlattenAll(a + b) == FlattenAll(a) + FlattenAll(b)
  {
    if a == [] {
      assert a + b == b;
    } else {
      assert (a + b)[1..] == a[1..] + b;
      FlattenAllConcat(a[1..], b);
    }
  }

  /** What becomes of one child. */
  function RewriteKid(env: Env, addr: nat, t: Tree): seq<Tree>
    requires KidOk(env, addr, t)
  {
    if t.name == "memory" then [] else if t.name == "chosen" then [Renewed(env, addr, t)] else [t]
  }

  lemma {:induction false} FlattenOne(t: Tree)
    ensures FlattenAll([t]) == Flatten(t)
  {
    assert Flatten(t) + [] == Flatten(t);
  }

  lemma {:induction false} OneKid(env: Env, st: State, t: Tree)
    requires InRoot(st) && GoodTree(t, |env.block|)
    ensures Feed(env, Go(st), Flatten(t)).Go? <==> KidOk(env, st.addr, t)
    ensures KidOk(env, st.addr, t) ==>
            Feed(env, Go(st), Flatten(t)) == Go(st.(out := st.out + FlattenAll(RewriteKid(env, st.addr, t))))
  {
    if t.name == "memory" {
      MemoryChild(env, st, t);
      assert st.out + [] == st.out;
    } else if t.name == "chosen" {
      ChosenChild(env, st, t);
      if KidOk(env, st.addr, t) {
        FlattenOne(Renewed(env, st.addr, t));
      }
    } else {
      NameDecides(t.name);
      PlainTree(env, st, t);
      FlattenOne(t);
    }
  }

  lemma {:induction false} NameDecides(name: string)
    requires name != "chosen"
    ensures ROOT + name + ['\0'] != CHOSEN
  {
    if |name| == 6 {
      assert (ROOT + name + ['\0'])[1..7] == name;
      assert CHOSEN[1..7] == "chosen";
    }
  }

  /** Everything goes well with the children, and this is what they have become. */
  ghost predicate KidsBecome(env: Env, st: State, ts: seq<Tree>, r: Result)
  {
    if KidsOk(env, st.addr, ts) then r == Go(st.(out := st.out + FlattenAll(RewriteKids(env, st.addr, ts)))) else !r.Go?
  }

  lemma {:induction false} KidsJoin(env: Env, st: State, ts: seq<Tree>, r: Result)
    requires ts != [] && KidOk(env, st.addr, ts[0])
    requires KidsBecome(env, st.(out := st.out + FlattenAll(RewriteKid(env, st.addr, ts[0]))), ts[1..], r)
    ensures KidsBecome(env, st, ts, r)
  {
    KidsSplit(env, st.addr, ts);
    if KidsOk(env, st.addr, ts) {
      var a, b := RewriteKid(env, st.addr, ts[0]), RewriteKids(env, st.addr, ts[1..]);
      FlattenAllConcat(a, b);
      JoinThree(st.out, FlattenAll(a), FlattenAll(b));
    }
  }

  lemma {:induction false} AllKids(env: Env, st: State, ts: seq<Tree>)
    requires InRoot(st) && GoodTrees(ts, |env.block|)
    ensures KidsBecome(env, st, ts, Feed(env, Go(st), FlattenAll(ts)))
    decreases |ts|
  {
    if ts == [] {
      assert st.out + [] == st.out;
    } else {
      FeedConcat(env, Go(st), Flatten(ts[0]), FlattenAll(ts[1..]));
      OneKid(env, st, ts[0]);
      KidsSplit(env, st.addr, ts);
      if KidOk(env, st.addr, ts[0]) {
        var s := st.(out := st.out + FlattenAll(RewriteKid(env, st.addr, ts[0])));
        AllKids(env, s, ts[1..]);
        KidsJoin(env, st, ts, Feed(env, Go(s), FlattenAll(ts[1..])));
      }
    }
  }

  lemma {:induction false} KidsSplit(env: Env, addr: nat, ts: seq<Tree>)
    requires ts != []
    ensures KidsOk(env, addr, ts) <==> KidOk(env, addr, ts[0]) && KidsOk(env, addr, ts[1..])
  {
    assert forall i :: 0 < i < |ts| ==> ts[i] == ts[1..][i - 1];
  }

  datatype Counts = BadCounts | Counts(addr: nat, size: nat)

  /** The two cell counts among the properties of the root. */
  function CountsOf(env: Env, addr: nat, size: nat, props: seq<Prop>): Counts
    decreases |props|
  {
    if props == [] then Counts(addr, size)
    else
      var p := props[0];
      if p.len == 4 && |p.cells| == 1 && Strncmp(env.block, p.off, "#address-cells") then
        if addr != 0 || p.cells[0] > 4 then BadCounts else CountsOf(env, p.cells[0], size, props[1..])
      else if p.len == 4 && |p.cells| == 1 && Strncmp(env.block, p.off, "#size-cells") then
        if size != 0 || p.cells[0] > 4 then BadCounts else CountsOf(env, addr, p.cells[0], props[1..])
      else CountsOf(env, addr, size, props[1..])
  }

  lemma {:induction false} RootPropStep(env: Env, st: State, p: Prop)
    requires InRoot(st) && p.off < |env.block|
    ensures Step(env, st, Property(p)) ==
            match CountsOf(env, st.addr, st.size, [p])
            case BadCounts => Fail
            case Counts(a, s) => Go(st.(addr := a, size := s, out := st.out + [Property(p)]))
  {
  }

  lemma {:induction false} CountsStep(env: Env, addr: nat, size: nat, props: seq<Prop>)
    requires props != []
    ensures CountsOf(env, addr, size, props) ==
            match CountsOf(env, addr, size, [props[0]])
            case BadCounts => BadCounts
            case Counts(a, s) => CountsOf(env, a, s, props[1..])
  {
  }

  lemma {:induction false} RootProps(env: Env, st: State, props: seq<Prop>)
    requires InRoot(st) && GoodProps(props, |env.block|)
    ensures Feed(env, Go(st), PropTokens(props)) ==
            match CountsOf(env, st.addr, st.size, props)
            case BadCounts => Fail
            case Counts(a, s) => Go(st.(addr := a, size := s, out := st.out + PropTokens(props)))
    decreases |props|
  {
    if props == [] {
      assert st.out + PropTokens(props) == st.out;
    } else {
      var first, rest := Property(props[0]), PropTokens(props[1..]);
      assert PropTokens(props) == [first] + rest;
      FeedOne(env, st, first, rest);
      RootPropStep(env, st, props[0]);
      CountsStep(env, st.addr, st.size, props);
      var c := CountsOf(env, st.addr, st.size, [props[0]]);
      if c.Counts? {
        RootProps(env, st.(addr := c.addr, size := c.size, out := st.out + [first]), props[1..]);
        JoinThree(st.out, [first], rest);
      }
    }
  }

  // ---- the transformation --------------------------------------------------

  const INITIAL := State("", 0, 0, 0, false, [])

  ghost predicate Accepted(env: Env, root: Tree)
  {
    var c := CountsOf(env, 0, 0, root.props);
    c.Counts? && KidsOk(env, c.addr, root.kids) && MemoryFits(env.info, c.addr, c.size)
  }

  function Rewrite(env: Env, root: Tree, addr: nat, size: nat): Tree
    requires KidsOk(env, addr, root.kids)
  {
    Tree(root.name, root.props, RewriteKids(env, addr, root.kids) + [MemoryTree(env.info, addr, size, |env.block|)])
  }

  lemma {:induction false} RootEnd(env: Env, st: State)
    requires InRoot(st)
    ensures Step(env, st, End) ==
            if MemoryFits(env.info, st.addr, st.size) then
              Go(st.(path := "", out := st.out + Flatten(MemoryTree(env.info, st.addr, st.size, |env.block|)) + [End]))
            else Fail
  {
  }

  lemma {:induction false} JoinRoot(env: Env, root: Tree, a: nat, s: nat)
    requires KidsOk(env, a, root.kids)
    ensures [Begin(root.name)] + PropTokens(root.props) + FlattenAll(RewriteKids(env, a, root.kids))
            + Flatten(MemoryTree(env.info, a, s, |env.block|)) + [End]
         == Flatten(Rewrite(env, root, a, s))
  {
    var m := MemoryTree(env.info, a, s, |env.block|);
    FlattenAllConcat(RewriteKids(env, a, root.kids), [m]);
    FlattenOne(m);
    JoinSix([], [Begin(root.name)] + PropTokens(root.props), FlattenAll(RewriteKids(env, a, root.kids)), Flatten(m), [], [End]);
  }

  /**
   The rewrite of a whole tree, with any tokens without meaning in between: the tokens of the
   tree with /memory replaced and the properties of /chosen renewed, and nothing if not.
   */
  lemma {:induction false} TransformTree(env: Env, root: Tree, toks: seq<Token>)
    requires root.name == "" && GoodTree(root, |env.block|) && Strip(toks) == Flatten(root)
    ensures Feed(env, Go(INITIAL), toks).Go? <==> Accepted(env, root)
    ensures Accepted(env, root) ==>
            var c := CountsOf(env, 0, 0, root.props);
            Feed(env, Go(INITIAL), toks) == Go(State("", 0, c.addr, c.size, false, Flatten(Rewrite(env, root, c.addr, c.size))))
  {
    FeedStrip(env, Go(INITIAL), toks);
    FeedNode(env, INITIAL, root);
    var s := State(ROOT, 0, 0, 0, false, [Begin(root.name)]);
    assert Step(env, INITIAL, Begin(root.name)) == Go(s);
    RootProps(env, s, root.props);
    var c := CountsOf(env, 0, 0, root.props);
    if c.Counts? {
      var s1 := s.(addr := c.addr, size := c.size, out := s.out + PropTokens(root.props));
      AllKids(env, s1, root.kids);
      if KidsOk(env, c.addr, root.kids) {
        var s2 := s1.(out := s1.out + FlattenAll(RewriteKids(env, c.addr, root.kids)));
        FeedEnd(env, s2);
        RootEnd(env, s2);
        JoinRoot(env, root, c.addr, c.size);
      }
    }
  }

  /** With address cells, or without an initial RAM disk, nothing runs away. */
  lemma {:induction false} NeverOverrun(env: Env, st: State, toks: seq<Token>)
    requires InitrdFits(env, st.addr)
    ensures !Feed(env, Go(st), toks).Overrun?
    decreases |toks|
  {
    if toks != [] {
      var r := Step(env, st, toks[0]);
      CellsKept(env, st, toks[0], r);
      if r.Go? {
        NeverOverrun(env, r.st, toks[1..]);
      }
    }
  }

  lemma {:induction false} CellsKept(env: Env, st: State, tok: Token, r: Result)
    requires InitrdFits(env, st.addr) && r == Step(env, st, tok)
    ensures !r.Overrun? && (r.Go? ==> InitrdFits(env, r.st.addr))
  {
    match tok
    case Property(p) => PropKept(env, st, p, StepCells(env, st, p));
    case _ =>
  }

  lemma {:induction false} PropKept(env: Env, st: State, p: Prop, r: Result)
    requires InitrdFits(env, st.addr) && r == StepCells(env, st, p)
    ensures !r.Overrun? && (r.Go? ==> InitrdFits(env, r.st.addr))
  {
  }

  /** /chosen comes before anything that fails. */
  predicate RunsAway(env: Env, addr: nat, ts: seq<Tree>)
  {
    ts != [] && (ts[0].name == "chosen" || (KidOk(env, addr, ts[0]) && RunsAway(env, addr, ts[1..])))
  }

  lemma {:induction false} OtherKid(env: Env, st: State, t: Tree)
    requires InRoot(st) && GoodTree(t, |env.block|) && t.name != "chosen"
    ensures !Feed(env, Go(st), Flatten(t)).Overrun?
  {
    if t.name == "memory" {
      MemoryChild(env, st, t);
    } else {
      NameDecides(t.name);
      PlainTree(env, st, t);
    }
  }

  /** What is written of the children before the insertion. */
  function AheadOf(env: Env, addr: nat, ts: seq<Tree>): seq<Token>
    requires RunsAway(env, addr, ts)
  {
    if ts[0].name == "chosen" then Opening(env, ts[0]) else FlattenAll(RewriteKid(env, addr, ts[0])) + AheadOf(env, addr, ts[1..])
  }

  lemma {:induction false} KidsRunAway(env: Env, st: State, ts: seq<Tree>)
    requires InRoot(st) && GoodTrees(ts, |env.block|) && !InitrdFits(env, st.addr)
    ensures Feed(env, Go(st), FlattenAll(ts)).Overrun? <==> RunsAway(env, st.addr, ts)
    ensures RunsAway(env, st.addr, ts) ==>
      Feed(env, Go(st), FlattenAll(ts)) == Overrun(st.out + AheadOf(env, st.addr, ts))
    decreases |ts|
  {
    if ts != [] {
      FeedConcat(env, Go(st), Flatten(ts[0]), FlattenAll(ts[1..]));
      if ts[0].name == "chosen" {
        ChosenChild(env, st, ts[0]);
      } else {
        OtherKid(env, st, ts[0]);
        OneKid(env, st, ts[0]);
        if KidOk(env, st.addr, ts[0]) {
          var more := FlattenAll(RewriteKid(env, st.addr, ts[0]));
          KidsRunAway(env, st.(out := st.out + more), ts[1..]);
          if RunsAway(env, st.addr, ts[1..]) {
            JoinThree(st.out, more, AheadOf(env, st.addr, ts[1..]));
          }
        }
      }
    }
  }

  /** There is an initial RAM disk, the root has no address cells, and /chosen comes before anything that fails. */
  ghost predicate Lacking(env: Env, root: Tree)
  {
    var c := CountsOf(env, 0, 0, root.props);
    c.Counts? && c.addr == 0 && env.info.initrdStart != env.info.initrdEnd && RunsAway(env, 0, root.kids)
  }

  /** What is written of the tree before the insertion into /chosen. */
  ghost function Written(env: Env, root: Tree): seq<Token>
    requires Lacking(env, root)
  {
    [Begin(root.name)] + PropTokens(root.props) + AheadOf(env, 0, root.kids)
  }

  lemma {:induction false} RootLacks(env: Env, root: Tree)
    requires root.name == "" && GoodTree(root, |env.block|)
    ensures Feed(env, Go(INITIAL), Flatten(root)).Overrun? <==> Lacking(env, root)
    ensures Lacking(env, root) ==> Feed(env, Go(INITIAL), Flatten(root)) == Overrun(Written(env, root))
  {
    FeedNode(env, INITIAL, root);
    var s := State(ROOT, 0, 0, 0, false, [Begin(root.name)]);
    assert Step(env, INITIAL, Begin(root.name)) == Go(s);
    RootProps(env, s, root.props);
    var c := CountsOf(env, 0, 0, root.props);
    if c.Counts? {
      var s1 := s.(addr := c.addr, size := c.size, out := s.out + PropTokens(root.props));
      if InitrdFits(env, c.addr) {
        FeedConcat(env, Go(s1), FlattenAll(root.kids), [End]);
        NeverOverrun(env, s1, FlattenAll(root.kids) + [End]);
      } else {
        KidsRunAway(env, s1, root.kids);
        AllKids(env, s1, root.kids);
        if KidsOk(env, c.addr, root.kids) {
          var s2 := s1.(out := s1.out + FlattenAll(RewriteKids(env, c.addr, root.kids)));
          FeedEnd(env, s2);
          RootEnd(env, s2);
        }
      }
    }
  }

  lemma {:induction false} OverrunGrows(env: Env, st: State, toks: seq<Token>)
    requires Feed(env, Go(st), toks).Overrun?
    ensures st.out <= Feed(env, Go(st), toks).at
    decreases |toks|
  {
    var r := Step(env, st, toks[0]);
    if r.Go? {
      StepGrows(env, st, toks[0]);
      OverrunGrows(env, r.st, toks[1..]);
    }
  }

  /** Within the room there is, it runs away exactly if it does without limit and finds the six words it looks for. */
  lemma {:induction false} OverrunInRoom(env: Env, st: State, toks: seq<Token>)
    requires Words(st.out) <= env.room
    ensures FeedIn(env, Go(st), toks).Overrun? <==>
            Feed(env, Go(st), toks).Overrun? && Words(Feed(env, Go(st), toks).at) + 6 <= env.room
    decreases |toks|
  {
    if toks != [] {
      var r := Step(env, st, toks[0]);
      if r.Go? && Words(r.st.out) <= env.room {
        OverrunInRoom(env, r.st, toks[1..]);
      } else if r.Go? && Feed(env, r, toks[1..]).Overrun? {
        OverrunGrows(env, r.st, toks[1..]);
        WordsGrow(r.st.out, Feed(env, r, toks[1..]).at);
      }
    }
  }

  /**
   The insertion into /chosen runs away exactly if there is an initial RAM disk, no address
   cells, /chosen is reached, and there are six words of room behind what is written before.
   */
  lemma {:induction false} NoAddressCells(env: Env, root: Tree, toks: seq<Token>)
    requires root.name == "" && GoodTree(root, |env.block|) && Strip(toks) == Flatten(root)
    ensures FeedIn(env, Go(INITIAL), toks).Overrun? <==> Lacking(env, root) && Words(Written(env, root)) + 6 <= env.room
  {
    FeedStrip(env, Go(INITIAL), toks);
    RootLacks(env, root);
    OverrunInRoom(env, INITIAL, toks);
  }

  /** It happens on a tree of a root and an empty /chosen, from eleven words of room on. */
  lemma {:induction false} RanAwayTree(env: Env)
    requires env.info.initrdStart != env.info.initrdEnd
    ensures var root := Tree("", [], [Tree("chosen", [], [])]);
            GoodTree(root, |env.block|) && (FeedIn(env, Go(INITIAL), Flatten(root)).Overrun? <==> env.room >= 11)
  {
    var kid := Tree("chosen", [], []);
    var root := Tree("", [], [kid]);
    assert [kid][1..] == [];
    OneInside("", "chosen");
    NoAddressCells(env, root, Flatten(root));
    assert Written(env, root) == [Begin("")] + [Begin("chosen")];
    TwoNames("", "chosen");
  }

  lemma {:induction false} OneInside(a: string, b: string)
    ensures var toks := Flatten(Tree(a, [], [Tree(b, [], [])]));
            toks == [Begin(a), Begin(b), End, End] && Strip(toks) == toks
  {
    var kid := Tree(b, [], []);
    assert Flatten(kid) == [Begin(b), End];
    FlattenOne(kid);
    var toks := [Begin(a)] + [] + [Begin(b), End] + [End];
    assert Flatten(Tree(a, [], [kid])) == toks;
    assert toks == [Begin(a), Begin(b), End, End];
    StripNothing(toks);
  }

  lemma {:induction false} TwoNames(a: string, b: string)
    ensures Words([Begin(a)] + [Begin(b)]) == (8 + |a|) / 4 + (8 + |b|) / 4
  {
    OneMore([], Begin(a));
    assert [] + [Begin(a)] == [Begin(a)];
    OneMore([Begin(a)], Begin(b));
  }

  lemma {:induction false} StripNothing(toks: seq<Token>)
    requires Nop !in toks
    ensures Strip(toks) == toks
  {
    if toks != [] {
      StripNothing(toks[1..]);
    }
  }

  // ---- the loop ------------------------------------------------------------

  /** line 196 */
  method PopPath(path: array<char>, len: nat) returns (n: nat)
    requires 1 < len <= path.Length && path[0] == '\0'
    ensures 0 < n < len && path[..n] == Pop(path[..len])
  {
    n := len - 1;
    assert path[..len][..len - 1] == path[..n];
    while path[n - 1] != '\0'
      invariant 0 < n < len && Trim(path[..n]) == Pop(path[..len])
      decreases n
    {
      assert path[..n][..n - 1] == path[..n - 1];
      n := n - 1;
    }
  }

  /** lines 187-188 */
  method PushPath(path: array<char>, len: nat, name: string) returns (n: nat)
    requires len + |name| + 1 <= path.Length
    modifies path
    ensures n == len + |name| + 1 && path[..n] == old(path[..len]) + name + ['\0']
  {
    for i := 0 to |name|
      invariant path[..len + i] == old(path[..len]) + name[..i]
    {
      path[len + i] := name[i];
      assert path[..len + i + 1] == path[..len + i] + [name[i]];
    }
    n := len + |name| + 1;
    path[n - 1] := '\0';
    assert path[..n] == path[..n - 1] + ['\0'];
  }

  datatype Outcome = Failed | RanAway | Went

  /** The result of a step as the variables of the loop; used is how much of the room has been used. */
  ghost predicate Is(r: Result, how: Outcome, path: string, skip: nat, addr: nat, size: nat, chosen: bool,
                     out: seq<Token>, used: nat)
  {
    match how
    case Failed => r == Fail
    case RanAway => r.Overrun?
    case Went => r == Go(State(path, skip, addr, size, chosen, out)) && used == Words(out)
  }

  lemma {:induction false} MemoryWords(info: Info, addr: nat, size: nat, strings: nat)
    ensures Words(Flatten(MemoryTree(info, addr, size, strings))) == 12 + addr + size
  {
    var t := MemoryTree(info, addr, size, strings);
    var b, p, q := Begin("memory"), Property(t.props[0]), Property(t.props[1]);
    assert Flatten(t) == [] + [b] + [p] + [q] + [End];
    OneMore([], b);
    OneMore([] + [b], p);
    OneMore([] + [b] + [p], q);
    OneMore([] + [b] + [p] + [q], End);
  }

  /** lines 40-49, 53-57 and 62-67: a property is written. */
  method PutProp(p: Prop, room: nat, used0: nat, out0: seq<Token>) returns (ok: bool, used: nat, out: seq<Token>)
    requires used0 == Words(out0) <= room
    ensures ok <==> Words(out0 + [Property(p)]) <= room
    ensures ok ==> out == out0 + [Property(p)] && used == Words(out)
  {
    OneMore(out0, Property(p));
    ok, used, out := room - used0 >= Size(Property(p)), used0 + Size(Property(p)), out0 + [Property(p)];
  }

  lemma {:induction false} SplitChosen(info: Info, addr: nat, strings: nat, a: seq<Token>, b: seq<Token>, c: seq<Token>)
    requires info.initrdStart != info.initrdEnd ==> addr > 0
    requires a == PropTokens(InitrdProps(info, addr, strings)) && b == PropTokens(SeedProps(info, strings))
    requires c == PropTokens(RngProps(info, strings))
    ensures PropTokens(ChosenProps(info, addr, strings)) == a + b + c
  {
    PropTokensConcat(InitrdProps(info, addr, strings), SeedProps(info, strings));
    PropTokensConcat(InitrdProps(info, addr, strings) + SeedProps(info, strings), RngProps(info, strings));
  }

  /** lines 37-50; what there is not enough room for is not begun. */
  method InsertInitrd(info: Info, addr: nat, strings: nat, room: nat, used0: nat, out0: seq<Token>)
    returns (how: Outcome, used: nat, out: seq<Token>)
    requires used0 == Words(out0) <= room
    ensures how == RanAway <==> info.initrdStart != info.initrdEnd && addr == 0 && used0 + 6 <= room
    ensures info.initrdStart != info.initrdEnd && addr == 0 ==> how != Went
    ensures info.initrdStart == info.initrdEnd || addr > 0 ==>
              (how == Went <==> Words(out0 + PropTokens(InitrdProps(info, addr, strings))) <= room)
    ensures how == Went ==> out == out0 + PropTokens(InitrdProps(info, addr, strings)) && used == Words(out)
  {
    how, used, out := Went, used0, out0;
    if info.initrdStart == info.initrdEnd {
      assert out0 + PropTokens([]) == out0;
      return;
    }
    if room - used0 < 6 || room - used0 - 6 < 2 * addr {
      how := Failed;
    } else if addr == 0 {
      how := RanAway;
    }
    if addr > 0 {
      ghost var p, q := InitrdProps(info, addr, strings)[0], InitrdProps(info, addr, strings)[1];
      assert out0 + PropTokens([p, q]) == out0 + [Property(p)] + [Property(q)];
      OneMore(out0, Property(p));
      OneMore(out0 + [Property(p)], Property(q));
      used, out := used0 + 6 + 2 * addr, out0 + PropTokens(InitrdProps(info, addr, strings));
    }
  }

  lemma {:induction false} NoMore(out: seq<Token>)
    ensures out + PropTokens([]) == out
  {
  }

  /** lines 51-58 */
  method InsertSeed(info: Info, strings: nat, room: nat, used0: nat, out0: seq<Token>)
    returns (ok: bool, used: nat, out: seq<Token>)
    requires used0 == Words(out0) <= room
    ensures ok <==> Words(out0 + PropTokens(SeedProps(info, strings))) <= room
    ensures ok ==> out == out0 + PropTokens(SeedProps(info, strings)) && used == Words(out)
  {
    ok, used, out := true, used0, out0;
    NoMore(out0);
    if |info.entropy| >= 2 {
      assert PropTokens(SeedProps(info, strings)) == [Property(SeedProps(info, strings)[0])];
      ok, used, out := PutProp(SeedProps(info, strings)[0], room, used0, out0);
    }
  }

  /** lines 59-68 */
  method InsertRng(info: Info, strings: nat, room: nat, used0: nat, out0: seq<Token>)
    returns (ok: bool, used: nat, out: seq<Token>)
    requires used0 == Words(out0) <= room
    ensures ok <==> Words(out0 + PropTokens(RngProps(info, strings))) <= room
    ensures ok ==> out == out0 + PropTokens(RngProps(info, strings)) && used == Words(out)
  {
    ok, used, out := true, used0, out0;
    NoMore(out0);
    if |info.entropy| > 2 {
      assert PropTokens(RngProps(info, strings)) == [Property(RngProps(info, strings)[0])];
      ok, used, out := PutProp(RngProps(info, strings)[0], room, used0, out0);
    }
  }

  lemma {:induction false} ThreeParts(out: seq<Token>, a: seq<Token>, b: seq<Token>, c: seq<Token>, all: seq<Token>)
    requires all == a + b + c
    ensures out + a + b + c == out + all
    ensures Words(out + a) <= Words(out + a + b) <= Words(out + all)
  {
    assert out + a + b + c == out + all;
    WordsGrow(out + a, out + a + b);
    WordsGrow(out + a + b, out + all);
  }

  /** insert_chosen_props */
  method InsertChosen(info: Info, addr: nat, strings: nat, room: nat, used0: nat, out0: seq<Token>)
    returns (how: Outcome, used: nat, out: seq<Token>)
    requires used0 == Words(out0) <= room
    ensures how == RanAway <==> info.initrdStart != info.initrdEnd && addr == 0 && used0 + 6 <= room
    ensures info.initrdStart != info.initrdEnd && addr == 0 ==> how != Went
    ensures info.initrdStart == info.initrdEnd || addr > 0 ==>
              (how == Went <==> Words(out0 + PropTokens(ChosenProps(info, addr, strings))) <= room)
    ensures how == Went ==> out == out0 + PropTokens(ChosenProps(info, addr, strings)) && used == Words(out)
  {
    how, used, out := InsertInitrd(info, addr, strings, room, used0, out0);
    if info.initrdStart != info.initrdEnd && addr == 0 {
      return;
    }
    ghost var a, b, c := PropTokens(InitrdProps(info, addr, strings)), PropTokens(SeedProps(info, strings)), PropTokens(RngProps(info, strings));
    SplitChosen(info, addr, strings, a, b, c);
    ThreeParts(out0, a, b, c, PropTokens(ChosenProps(info, addr, strings)));
    if how == Went {
      var ok;
      ok, used, out := InsertSeed(info, strings, room, used, out);
      if ok {
        ok, used, out := InsertRng(info, strings, room, used, out);
      }
      how := if ok then Went else Failed;
    }
  }

  /** lines 87-89 and 90-92: v in n cells. */
  method PutCells(v: nat, n: nat) returns (cells: seq<nat>)
    ensures cells == Cells(v, n)
  {
    cells := [];
    for i := 0 to n
      invariant |cells| == i && cells == Cells(v, n)[..i]
    {
      var high := if n - i == 2 then v / 0x1_0000_0000 else v;
      cells := cells + [if n - i > 2 then 0 else Word32(high)];
    }
  }

  /** insert_memory_node, for line 198: before the last token of the root. */
  method InsertMemory(env: Env, addr: nat, size: nat, out0: seq<Token>, used0: nat)
    returns (ok: bool, out: seq<Token>, used: nat)
    requires used0 == Words(out0) <= env.room
    ensures var all := out0 + Flatten(MemoryTree(env.info, addr, size, |env.block|));
            && (ok <==> MemoryFits(env.info, addr, size) && Words(all) <= env.room)
            && (ok ==> out == all && used == Words(out))
  {
    var info := env.info;
    out, used := out0, used0;
    MemoryWords(info, addr, size, |env.block|);
    WordsConcat(out0, Flatten(MemoryTree(info, addr, size, |env.block|)));
    if (info.dramStart > 0 && addr == 0) || (info.dramStart > 0xffff_ffff && addr < 2) || (info.dramSize > 0 && size == 0) ||
       (info.dramSize > 0xffff_ffff && size < 2) || env.room - used0 < 12 + addr + size {
      return false, out, used;
    }
    out := out + [Begin("memory"), Property(Prop(Off(|env.block|, DEVICE_TYPE), 7, [0x6d656d6f, 0x72790000]))];
    var start := PutCells(info.dramStart, addr);
    var length := PutCells(info.dramSize, size);
    out := out + [Property(Prop(Off(|env.block|, REG), 4 * (addr + size), start + length)), End];
    used := used + 12 + addr + size;
    MemoryTokens(info, addr, size, |env.block|);
    ok := true;
  }

  lemma {:induction false} MemoryTokens(info: Info, addr: nat, size: nat, strings: nat)
    ensures var t := MemoryTree(info, addr, size, strings);
            Flatten(t) == [Begin(t.name), Property(t.props[0])] + [Property(t.props[1]), End]
  {
    var t := MemoryTree(info, addr, size, strings);
    assert PropTokens(t.props) == [Property(t.props[0]), Property(t.props[1])] && FlattenAll([]) == [];
  }

  /** lines 228-234 */
  method CopyToken(env: Env, tok: Token, pathLen: nat, skip0: nat, out0: seq<Token>, used0: nat, ghost st: State)
    returns (ok: bool, skip: nat, out: seq<Token>, used: nat)
    requires used0 == Words(out0) <= env.room && |st.path| == pathLen && st.skip == skip0 && st.out == out0
    ensures ok <==> Words(Copy(st, tok).out) <= env.room
    ensures ok ==> Copy(st, tok) == st.(skip := skip, out := out) && used == Words(out)
  {
    ok, skip, out, used := true, skip0, out0, used0;
    OneMore(out0, tok);
    if skip == 0 {
      ok := env.room - used >= Size(tok);
      out, used := out + [tok], used + Size(tok);
    }
    if pathLen <= skip {
      skip := 0;
    }
  }

  /** lines 182-201 and 228-234, with the insertion into /chosen done: a node begins or ends. */
  method OneNode(env: Env, tok: Token, path: array<char>, pathLen0: nat, skip0: nat, addr: nat, size: nat,
                 out0: seq<Token>, used0: nat)
    returns (how: Outcome, pathLen: nat, skip: nat, chosen: bool, out: seq<Token>, used: nat)
    requires (tok.Begin? || tok.End?) && pathLen0 <= path.Length == MAX_PATH && (pathLen0 > 0 ==> path[0] == '\0')
    requires used0 == Words(out0) <= env.room
    modifies path
    ensures pathLen <= path.Length && (pathLen0 > 0 && pathLen > 0 ==> path[0] == '\0')
    ensures var st := State(old(path[..pathLen0]), skip0, addr, size, false, out0);
            Is(Limit(env, if tok.Begin? then StepBegin(st, tok.name) else StepEnd(env, st)),
               how, path[..pathLen], skip, addr, size, chosen, out, used)
  {
    how, pathLen, skip, chosen, out, used := Went, pathLen0, skip0, false, out0, used0;
    if tok.Begin? {
      if pathLen == 1 && tok.name == "memory" {
        skip := pathLen;
      }
      if MAX_PATH - pathLen < |tok.name| + 1 {
        how := Failed;
        return;
      }
      ghost var first := path[..];
      pathLen := PushPath(path, pathLen, tok.name);
      assert pathLen0 > 0 ==> path[..pathLen][0] == first[0];
      chosen := pathLen == 8 && path[..pathLen] == CHOSEN;
    } else if pathLen > 1 {
      pathLen := PopPath(path, pathLen);
    } else if pathLen == 1 {
      var ok;
      ok, out, used := InsertMemory(env, addr, size, out, used);
      EndLimit(env, State(path[..pathLen], skip, addr, size, false, out0));
      if !ok {
        how := Failed;
        return;
      }
      pathLen := 0;
    } else {
      how := Failed;
      return;
    }
    var ok;
    ok, skip, out, used := CopyToken(env, tok, pathLen, skip, out, used, State(path[..pathLen], skip, addr, size, chosen, out));
    if !ok {
      how := Failed;
    }
  }

  /** If the memory node does not fit, the end of the root does not either. */
  lemma {:induction false} EndLimit(env: Env, st: State)
    requires |st.path| == 1
    ensures Words(st.out + Flatten(MemoryTree(env.info, st.addr, st.size, |env.block|))) > env.room ==>
      Limit(env, StepEnd(env, st)) == Fail
  {
    var r := StepEnd(env, st);
    if r.Go? {
      WordsGrow(st.out + Flatten(MemoryTree(env.info, st.addr, st.size, |env.block|)), r.st.out);
    }
  }

  /** lines 206-226 */
  method TakeCells(env: Env, p: Prop, pathLen: nat, skip0: nat, addr0: nat, size0: nat, chosen: bool, ghost st: State)
    returns (ok: bool, skip: nat, addr: nat, size: nat)
    requires |st.path| == pathLen && st.skip == skip0 && st.addr == addr0 && st.size == size0 && st.chosen == chosen
    ensures StepCells(env, st, p) == if ok then Go(st.(skip := skip, addr := addr, size := size)) else Fail
  {
    ok, skip, addr, size := false, skip0, addr0, size0;
    if pathLen == 1 && p.len == 4 && |p.cells| == 1 {
      if Strncmp(env.block, p.off, "#address-cells") {
        if addr != 0 || p.cells[0] > 4 {
          return;
        }
        addr := p.cells[0];
      } else if Strncmp(env.block, p.off, "#size-cells") {
        if size != 0 || p.cells[0] > 4 {
          return;
        }
        size := p.cells[0];
      }
    } else if chosen && IsReplaced(env.block, p.off) {
      skip := pathLen;
    }
    ok := true;
  }

  /** lines 203-234 for a property. */
  method OneProp(env: Env, p: Prop, pathLen: nat, skip0: nat, addr0: nat, size0: nat, chosen: bool, out0: seq<Token>,
                 used0: nat, ghost path: string)
    returns (how: Outcome, skip: nat, addr: nat, size: nat, out: seq<Token>, used: nat)
    requires |path| == pathLen && used0 == Words(out0) <= env.room
    ensures var st := State(path, skip0, addr0, size0, chosen, out0);
            Is(Limit(env, StepProp(env, st, p)), how, path, skip, addr, size, chosen, out, used)
  {
    how, skip, addr, size, out, used := Failed, skip0, addr0, size0, out0, used0;
    if p.off >= |env.block| {
      return;
    }
    ghost var st := State(path, skip0, addr0, size0, chosen, out0);
    var ok;
    ok, skip, addr, size := TakeCells(env, p, pathLen, skip0, addr0, size0, chosen, st);
    if !ok {
      return;
    }
    ok, skip, out, used := CopyToken(env, Property(p), pathLen, skip, out, used, st.(skip := skip, addr := addr, size := size));
    how := if ok then Went else Failed;
  }

  /** Up to n tokens no end of the tree has come. */
  ghost predicate Open(env: Env, toks: seq<Token>, n: nat)
    requires n <= |toks|
  {
    forall k :: 0 < k < n ==> FeedIn(env, Go(INITIAL), toks[..k]).Go? && FeedIn(env, Go(INITIAL), toks[..k]).st.path != ""
  }

  /** How the loop ends after n tokens: at the end of the tree, or where it cannot go on. */
  ghost predicate EndsAt(env: Env, toks: seq<Token>, how: Outcome, out: seq<Token>, n: nat)
    requires n <= |toks|
  {
    var r := FeedIn(env, Go(INITIAL), toks[..n]);
    match how
    case Went => n > 0 && r.Go? && r.st.path == "" && r.st.out == out
    case RanAway => r.Overrun?
    case Failed => r == Fail || (n == |toks| && r.Go? && r.st.path != "")
  }

  /** lines 176-234: one token. */
  method OneToken(env: Env, tok: Token, path: array<char>, pathLen0: nat, skip0: nat, addr0: nat, size0: nat,
                  chosen0: bool, out0: seq<Token>, used0: nat)
    returns (how: Outcome, pathLen: nat, skip: nat, addr: nat, size: nat, chosen: bool, out: seq<Token>, used: nat)
    requires pathLen0 <= path.Length == MAX_PATH && (pathLen0 > 0 ==> path[0] == '\0')
    requires used0 == Words(out0) <= env.room
    modifies path
    ensures pathLen <= path.Length && (pathLen0 > 0 && pathLen > 0 ==> path[0] == '\0')
    ensures var st := State(old(path[..pathLen0]), skip0, addr0, size0, chosen0, out0);
            Is(Limit(env, Step(env, st, tok)), how, path[..pathLen], skip, addr, size, chosen, out, used)
  {
    pathLen, skip, addr, size, chosen, out, used := pathLen0, skip0, addr0, size0, chosen0, out0, used0;
    ghost var st := State(path[..pathLen0], skip0, addr0, size0, chosen0, out0);
    if tok == Nop {
      how := Went;
    } else if tok.Property? {
      how, skip, addr, size, out, used := OneProp(env, tok.p, pathLen, skip, addr, size, chosen, out, used, path[..pathLen]);
    } else {
      if chosen {
        how, used, out := InsertChosen(env.info, addr, |env.block|, env.room, used, out);
        ClosedLimit(env, st, tok);
        if how != Went {
          return;
        }
        chosen := false;
      }
      how, pathLen, skip, chosen, out, used := OneNode(env, tok, path, pathLen, skip, addr, size, out, used);
    }
  }

  /** If the insertion does not fit, nothing after it does. */
  lemma {:induction false} ClosedLimit(env: Env, st: State, tok: Token)
    requires tok.Begin? || tok.End?
    ensures CloseChosen(env, st).Go? && Words(CloseChosen(env, st).st.out) > env.room ==>
      Limit(env, Step(env, st, tok)) == Fail
  {
    var r := Step(env, st, tok);
    if r.Go? {
      WordsGrow(CloseChosen(env, st).st.out, r.st.out);
    }
  }

  /** lines 119 and 164-235: the check of the first token and the loop. n says how many tokens it took. */
  method TransformTokens(env: Env, toks: seq<Token>) returns (how: Outcome, out: seq<Token>, n: nat)
    ensures toks == [] || toks[0] != Begin("") ==> how == Failed
    ensures toks != [] && toks[0] == Begin("") ==> n <= |toks| && Open(env, toks, n) && EndsAt(env, toks, how, out, n)
  {
    out, n := [], 0;
    if toks == [] || toks[0] != Begin("") {
      return Failed, [], 0;
    }
    var path := new char[MAX_PATH];
    path[0] := '\0';
    var pathLen: nat, skip: nat, addr: nat, size: nat, chosen, used: nat := 1, 0, 0, 0, false, 2;
    FirstToken(env, toks);
    if env.room < 2 {
      return Failed, [], 1;
    }
    how, out, n := Went, [Begin("")], 1;
    assert path[..1] == ROOT;
    ghost var st := State(path[..pathLen], skip, addr, size, chosen, out);
    while pathLen != 0
      invariant 0 < n <= |toks| && pathLen <= path.Length == MAX_PATH && (pathLen > 0 ==> path[0] == '\0')
      invariant st == State(path[..pathLen], skip, addr, size, chosen, out)
      invariant FeedIn(env, Go(INITIAL), toks[..n]) == Go(st)
      invariant used == Words(out) <= env.room && how == Went && Open(env, toks, n)
      decreases |toks| - n
    {
      if n == |toks| {
        return Failed, out, n;
      }
      FedNext(env, toks, n, st);
      how, pathLen, skip, addr, size, chosen, out, used := OneToken(env, toks[n], path, pathLen, skip, addr, size, chosen, out, used);
      n := n + 1;
      if how != Went {
        return;
      }
      st := State(path[..pathLen], skip, addr, size, chosen, out);
    }
  }

  lemma {:induction false} FedNext(env: Env, toks: seq<Token>, n: nat, st: State)
    requires n < |toks| && Open(env, toks, n) && FeedIn(env, Go(INITIAL), toks[..n]) == Go(st) && st.path != ""
    ensures Open(env, toks, n + 1) && FeedIn(env, Go(INITIAL), toks[..n + 1]) == Limit(env, Step(env, st, toks[n]))
  {
    FeedLast(env, toks, n);
    StillOpen(env, toks, n);
  }

  lemma {:induction false} StillOpen(env: Env, toks: seq<Token>, n: nat)
    requires n < |toks| && Open(env, toks, n)
    requires FeedIn(env, Go(INITIAL), toks[..n]).Go? && FeedIn(env, Go(INITIAL), toks[..n]).st.path != ""
    ensures Open(env, toks, n + 1)
  {
  }

  lemma {:induction false} FirstToken(env: Env, toks: seq<Token>)
    requires toks != [] && toks[0] == Begin("")
    ensures FeedIn(env, Go(INITIAL), toks[..1]) == if env.room < 2 then Fail else Go(State(ROOT, 0, 0, 0, false, [Begin("")]))
    ensures Words([Begin("")]) == 2
  {
    var s := State(ROOT, 0, 0, 0, false, [Begin("")]);
    assert Step(env, INITIAL, Begin("")) == Go(s);
    assert toks[..1] == [Begin("")];
    OneMore([], Begin(""));
    assert [] + [Begin("")] == [Begin("")];
    FirstFed(env, Begin(""), s);
  }

  lemma {:induction false} FirstFed(env: Env, tok: Token, s: State)
    requires Step(env, INITIAL, tok) == Go(s)
    ensures FeedIn(env, Go(INITIAL), [tok]) == if Words(s.out) > env.room then Fail else Go(s)
  {
    assert [tok][1..] == [];
  }

  lemma {:induction false} FeedLast(env: Env, toks: seq<Token>, n: nat)
    requires n < |toks| && FeedIn(env, Go(INITIAL), toks[..n]).Go?
    ensures var r := FeedIn(env, Go(INITIAL), toks[..n]);
            FeedIn(env, Go(INITIAL), toks[..n + 1]) == Limit(env, Step(env, r.st, toks[n]))
  {
    assert toks[..n + 1] == toks[..n] + [toks[n]];
    FeedInConcat(env, Go(INITIAL), toks[..n], [toks[n]]);
    assert [toks[n]][1..] == [];
  }

  // ---- the loop on a whole tree --------------------------------------------

  lemma {:induction false} StackPush(a: seq<Token>, tok: Token)
    ensures |Stack(a + [tok])| == match tok
      case Begin(_) => |Stack(a)| + 1
      case End => if |Stack(a)| == 0 then 0 else |Stack(a)| - 1
      case _ => |Stack(a)|
  {
    assert (a + [tok])[..|a|] == a;
  }

  lemma {:induction false} StackProps(a: seq<Token>, props: seq<Prop>, k: nat)
    requires k <= |props|
    ensures |Stack(a + PropTokens(props)[..k])| == |Stack(a)|
  {
    if k == 0 {
      assert a + PropTokens(props)[..0] == a;
    } else {
      StackProps(a, props, k - 1);
      StackPush(a + PropTokens(props)[..k - 1], Property(props[k - 1]));
      assert a + PropTokens(props)[..k - 1] + [Property(props[k - 1])] == a + PropTokens(props)[..k];
    }
  }

  /** Within a node there is always a node open; at its end there is one less. */
  lemma {:induction false} StackInTree(a: seq<Token>, t: Tree, k: nat)
    requires 0 < k <= |Flatten(t)|
    ensures k < |Flatten(t)| ==> |Stack(a + Flatten(t)[..k])| > |Stack(a)|
    ensures k == |Flatten(t)| ==> |Stack(a + Flatten(t)[..k])| == |Stack(a)|
    decreases t, 0
  {
    var b, p, all := a + [Begin(t.name)], PropTokens(t.props), FlattenAll(t.kids);
    StackPush(a, Begin(t.name));
    if k <= 1 + |p| {
      TakeProps(a, Begin(t.name), p, all + [End], k - 1);
      StackProps(b, t.props, k - 1);
      JoinLast([Begin(t.name)] + p, all);
    } else {
      StackProps(b, t.props, |p|);
      assert p[..|p|] == p;
      StackInKids(a, t, b + p, all, k);
    }
  }

  lemma {:induction false} TakeProps(a: seq<Token>, x: Token, p: seq<Token>, q: seq<Token>, j: nat)
    requires j <= |p|
    ensures a + ([x] + p + q)[..j + 1] == a + [x] + p[..j]
  {
    assert ([x] + p + q)[..j + 1] == [x] + p[..j];
  }

  lemma {:induction false} JoinLast(p: seq<Token>, q: seq<Token>)
    ensures p + q + [End] == p + (q + [End])
  {
  }

  lemma {:induction false} TakeKids(a: seq<Token>, x: Token, p: seq<Token>, q: seq<Token>, k: nat)
    requires 1 + |p| <= k <= 2 + |p| + |q|
    ensures k < 2 + |p| + |q| ==> a + ([x] + p + q + [End])[..k] == a + [x] + p + q[..k - 1 - |p|]
    ensures k == 2 + |p| + |q| ==> a + ([x] + p + q + [End])[..k] == a + [x] + p + q + [End]
  {
  }

  lemma {:induction false} StackInKids(a: seq<Token>, t: Tree, b: seq<Token>, all: seq<Token>, k: nat)
    requires b == a + [Begin(t.name)] + PropTokens(t.props) && all == FlattenAll(t.kids) && |Stack(b)| == |Stack(a)| + 1
    requires 1 + |t.props| < k <= |Flatten(t)|
    ensures k < |Flatten(t)| ==> |Stack(a + Flatten(t)[..k])| > |Stack(a)|
    ensures k == |Flatten(t)| ==> |Stack(a + Flatten(t)[..k])| == |Stack(a)|
    decreases t.kids, 2
  {
    TakeKids(a, Begin(t.name), PropTokens(t.props), all, k);
    if k < |Flatten(t)| {
      StackInTrees(b, t.kids, k - 1 - |t.props|);
    } else {
      StackInTrees(b, t.kids, |all|);
      assert all[..|all|] == all;
      StackPush(b + all, End);
    }
  }

  lemma {:induction false} StackInTrees(a: seq<Token>, ts: seq<Tree>, k: nat)
    requires k <= |FlattenAll(ts)|
    ensures |Stack(a + FlattenAll(ts)[..k])| >= |Stack(a)|
    ensures k == |FlattenAll(ts)| ==> |Stack(a + FlattenAll(ts)[..k])| == |Stack(a)|
    decreases ts, 1
  {
    if k == 0 {
      assert a + FlattenAll(ts)[..0] == a;
    } else {
      var first, rest := Flatten(ts[0]), FlattenAll(ts[1..]);
      TakeTwo(a, first, rest, k);
      if k <= |first| {
        StackInTree(a, ts[0], k);
      } else {
        StackInTree(a, ts[0], |first|);
        assert first[..|first|] == first;
        StackInTrees(a + first, ts[1..], k - |first|);
      }
    }
  }

  lemma {:induction false} TakeTwo(a: seq<Token>, p: seq<Token>, q: seq<Token>, k: nat)
    requires k <= |p| + |q|
    ensures k <= |p| ==> a + (p + q)[..k] == a + p[..k]
    ensures k > |p| ==> a + (p + q)[..k] == a + p + q[..k - |p|]
  {
  }

  lemma {:induction false} CleanTree(t: Tree, strings: nat)
    requires GoodTree(t, strings)
    ensures CleanNames(Flatten(t))
    decreases t, 0
  {
    CleanTrees(t.kids, strings);
  }

  lemma {:induction false} CleanTrees(ts: seq<Tree>, strings: nat)
    requires GoodTrees(ts, strings)
    ensures CleanNames(FlattenAll(ts))
    decreases ts, 1
  {
    if ts != [] {
      CleanTree(ts[0], strings);
      CleanTrees(ts[1..], strings);
    }
  }

  /** The tree is not left before its last token. */
  lemma {:induction false} PathOpen(env: Env, root: Tree, p: seq<Token>, j: nat)
    requires GoodTree(root, |env.block|) && 0 < j < |Flatten(root)| && p == Flatten(root)[..j]
    requires Feed(env, Go(INITIAL), p).Go?
    ensures Feed(env, Go(INITIAL), p).st.path != ""
  {
    CleanTree(root, |env.block|);
    PathIsStack(env, p);
    StackInTree([], root, j);
    assert [] + p == p;
  }

  lemma {:induction false} StripConcat(a: seq<Token>, b: seq<Token>)
    ensures Strip(a + b) == Strip(a) + Strip(b)
    decreases |a|
  {
    if a == [] {
      assert a + b == b;
    } else {
      assert (a + b)[1..] == a[1..] + b;
      StripConcat(a[1..], b);
    }
  }

  lemma {:induction false} StripKeeps(toks: seq<Token>, i: nat)
    requires i < |toks| && toks[i] != Nop
    ensures Strip(toks) != []
    decreases |toks|
  {
    if i > 0 {
      StripKeeps(toks[1..], i - 1);
    }
  }

  lemma {:induction false} InRoom(env: Env, toks: seq<Token>)
    ensures FeedIn(env, Go(INITIAL), toks).Go? <==>
      Feed(env, Go(INITIAL), toks).Go? && Words(Feed(env, Go(INITIAL), toks).st.out) <= env.room
    ensures FeedIn(env, Go(INITIAL), toks).Go? ==> FeedIn(env, Go(INITIAL), toks) == Feed(env, Go(INITIAL), toks)
  {
    RoomDecides(env, INITIAL, toks);
  }

  lemma {:induction false} NotLeft(env: Env, root: Tree, toks: seq<Token>, n: nat, m: nat)
    requires GoodTree(root, |env.block|) && 0 < n < m <= |toks| && Strip(toks[..m]) == Flatten(root)
    requires toks[0] != Nop && toks[m - 1] != Nop && FeedIn(env, Go(INITIAL), toks[..n]).Go?
    ensures FeedIn(env, Go(INITIAL), toks[..n]).st.path != ""
  {
    var p := Strip(toks[..n]);
    InRoom(env, toks[..n]);
    assert toks[..m] == toks[..n] + toks[n..m];
    StripConcat(toks[..n], toks[n..m]);
    StripKeeps(toks[..n], 0);
    StripKeeps(toks[n..m], m - 1 - n);
    FeedStrip(env, Go(INITIAL), toks[..n]);
    assert p == Flatten(root)[..|p|];
    PathOpen(env, root, p, |p|);
  }

  lemma {:induction false} StaysStopped(env: Env, toks: seq<Token>, a: nat, b: nat)
    requires a <= b <= |toks| && !FeedIn(env, Go(INITIAL), toks[..a]).Go?
    ensures FeedIn(env, Go(INITIAL), toks[..b]) == FeedIn(env, Go(INITIAL), toks[..a])
  {
    assert toks[..b] == toks[..a] + toks[a..b];
    FeedInConcat(env, Go(INITIAL), toks[..a], toks[a..b]);
  }

  /** The tree that becomes of an accepted one. */
  ghost function Rewritten(env: Env, root: Tree): Tree
    requires Accepted(env, root)
  {
    var c := CountsOf(env, 0, 0, root.props);
    Rewrite(env, root, c.addr, c.size)
  }

  /**
   The loop of transform_fdt on a tree of m tokens, whatever comes after them: it goes well
   exactly if the tree is accepted and the rewritten one fits the output, has then taken these
   tokens and no more, and its output is the tree rewritten. It runs away exactly if the tree
   lacks address cells for the initial RAM disk and there is room up to the insertion.
   */
  lemma {:induction false} Transformed(env: Env, root: Tree, toks: seq<Token>, m: nat, how: Outcome, out: seq<Token>,
                                       n: nat)
    requires root.name == "" && GoodTree(root, |env.block|) && 0 < m <= |toks| && Strip(toks[..m]) == Flatten(root)
    requires toks[0] != Nop && toks[m - 1] != Nop
    requires n <= |toks| && Open(env, toks, n) && EndsAt(env, toks, how, out, n)
    ensures how == Went <==> Accepted(env, root) && Words(Flatten(Rewritten(env, root))) <= env.room
    ensures how == Went ==> n == m && out == Flatten(Rewritten(env, root))
    ensures how == RanAway <==> Lacking(env, root) && Words(Written(env, root)) + 6 <= env.room
  {
    NoAddressCells(env, root, toks[..m]);
    TransformTree(env, root, toks[..m]);
    InRoom(env, toks[..m]);
    var f, g := FeedIn(env, Go(INITIAL), toks[..m]), FeedIn(env, Go(INITIAL), toks[..n]);
    if 0 < n < m && g.Go? {
      NotLeft(env, root, toks, n, m);
    } else if n < m && !g.Go? {
      StaysStopped(env, toks, n, m);
    } else if m < n && !f.Go? {
      StaysStopped(env, toks, m, n);
    }
  }
}
