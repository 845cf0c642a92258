/**
 What the device tree says after the rewrite of dramstage/transform_fdt.c, as a reader of the
 tree finds it (chapters 2 and 3 of the Devicetree Specification): properties by their names, and
 their values as numbers or text.
 */
module FdtNodes {
  import opened Basics
  import opened Fdt

  // ---- properties by name --------------------------------------------------

  /** The first property of this name. */
  function Lookup(block: string, props: seq<Prop>, name: string): Option<Prop>
  {
    if props == [] then None
    else if NameAt(block, props[0].off) == name then Some(props[0])
    else Lookup(block, props[1..], name)
  }

  lemma {:induction false} LookupJoin(block: string, a: seq<Prop>, b: seq<Prop>, name: string)
    ensures Lookup(block, a + b, name) ==
            if Lookup(block, a, name).Some? then Lookup(block, a, name) else Lookup(block, b, name)
  {
    if a == [] {
      assert a + b == b;
    } else {
      assert (a + b)[1..] == a[1..] + b;
      LookupJoin(block, a[1..], b, name);
    }
  }

  // ---- the strings block ---------------------------------------------------

  /** The strings block after the rewrite. */
  function Strings(block: string): string
  {
    block + Joined(InsertedNames())
  }

  ghost predicate Terminated(block: string)
  {
    block != [] && block[|block| - 1] == '\0'
  }

  lemma {:induction false} NamesClean(names: seq<string>)
    requires names == InsertedNames()
    ensures forall i :: 0 <= i < |names| ==> NoZero(names[i])
  {
    assert NoZero(names[0]) && NoZero(names[1]) && NoZero(names[2]);
    assert NoZero(names[3]) && NoZero(names[4]) && NoZero(names[5]);
  }

  /** The inserted strings are the names they are meant to be. */
  lemma {:induction false} InsertedName(block: string, names: seq<string>, k: nat)
    requires k < 6 && |names| == 6 && names == InsertedNames()
    ensures NameAt(Strings(block), Off(|block|, k)) == names[k]
  {
    NamesClean(names);
    ResolvedAs(block, names, k, Strings(block), Off(|block|, k));
  }

  lemma {:induction false} ResolvedAs(block: string, names: seq<string>, k: nat, all: string, off: nat)
    requires k < |names| && (forall i :: 0 <= i < |names| ==> NoZero(names[i]))
    requires all == block + Joined(names) && off == |block| + OffsetOf(names, k)
    ensures NameAt(all, off) == names[k]
  {
    InsertedResolve(block, names, k);
  }

  lemma {:induction false} SixNames(block: string)
    ensures NameAt(Strings(block), Off(|block|, DEVICE_TYPE)) == "device_type"
    ensures NameAt(Strings(block), Off(|block|, REG)) == "reg"
    ensures NameAt(Strings(block), Off(|block|, INITRD_START)) == "linux,initrd-start"
    ensures NameAt(Strings(block), Off(|block|, INITRD_END)) == "linux,initrd-end"
    ensures NameAt(Strings(block), Off(|block|, KASLR_SEED)) == "kaslr-seed"
    ensures NameAt(Strings(block), Off(|block|, RNG_SEED)) == "rng-seed"
  {
    var names := InsertedNames();
    InsertedName(block, names, DEVICE_TYPE);
    InsertedName(block, names, REG);
    InsertedName(block, names, INITRD_START);
    InsertedName(block, names, INITRD_END);
    InsertedName(block, names, KASLR_SEED);
    InsertedName(block, names, RNG_SEED);
  }

  // ---- values --------------------------------------------------------------

  /** A cell as it lies in memory. */
  function CellBytes(c: nat): (b: seq<nat>)
    ensures |b| == 4
  {
    [c / 0x100_0000 % 0x100, c / 0x1_0000 % 0x100, c / 0x100 % 0x100, c % 0x100]
  }

  function AllBytes(cells: seq<nat>): seq<nat>
  {
    if cells == [] then [] else CellBytes(cells[0]) + AllBytes(cells[1..])
  }

  /** A text with its terminator. */
  function TextBytes(s: string): seq<nat>
  {
    seq(|s|, i requires 0 <= i < |s| => s[i] as nat) + [0]
  }

  /** The property's value is this text. */
  ghost predicate IsText(p: Prop, s: string)
  {
    p.len == |s| + 1 && p.len <= |AllBytes(p.cells)| && AllBytes(p.cells)[..p.len] == TextBytes(s)
  }

  /** It is this number in n cells, or two of them one after the other. */
  ghost predicate IsNumber(p: Prop, n: nat, v: nat)
  {
    p.len == 4 * n && |p.cells| == n && CellValue(p.cells) == v
  }

  ghost predicate IsPair(p: Prop, n: nat, v: nat, m: nat, w: nat)
  {
    p.len == 4 * (n + m) && |p.cells| == n + m && CellValue(p.cells[..n]) == v && CellValue(p.cells[n..]) == w
  }

  // ---- /memory -------------------------------------------------------------

  lemma {:induction false} MemoryText()
    ensures AllBytes([0x6d656d6f, 0x72790000])[..7] == TextBytes("memory")
  {
    var cells := [0x6d656d6f, 0x72790000];
    assert cells[1..] == [0x72790000] && cells[1..][1..] == [];
    assert CellBytes(0x6d656d6f) == [0x6d, 0x65, 0x6d, 0x6f] && CellBytes(0x72790000) == [0x72, 0x79, 0, 0];
    assert AllBytes(cells[1..]) == [0x72, 0x79, 0, 0];
    assert AllBytes(cells) == [0x6d, 0x65, 0x6d, 0x6f, 0x72, 0x79, 0, 0];
  }

  /** What a reader finds in the memory node. */
  ghost predicate SaysMemory(block: string, t: Tree, addr: nat, start: nat, size: nat, length: nat)
  {
    && t.name == "memory" && t.kids == []
    && Lookup(block, t.props, "device_type").Some? && IsText(Lookup(block, t.props, "device_type").value, "memory")
    && Lookup(block, t.props, "reg").Some? && IsPair(Lookup(block, t.props, "reg").value, addr, start, size, length)
  }

  lemma {:induction false} MemoryNode(info: Info, addr: nat, size: nat, block: string)
    requires MemoryFits(info, addr, size) && info.dramStart < 0x1_0000_0000_0000_0000
    requires info.dramSize < 0x1_0000_0000_0000_0000
    ensures SaysMemory(Strings(block), MemoryTree(info, addr, size, |block|), addr, info.dramStart, size, info.dramSize)
  {
    var t := MemoryTree(info, addr, size, |block|);
    var b, p, q := Strings(block), t.props[0], t.props[1];
    SixNames(block);
    assert t.props == [p, q] && [p, q][1..] == [q];
    assert Lookup(b, t.props, "device_type") == Some(p);
    assert Lookup(b, t.props, "reg") == Lookup(b, [q], "reg") == Some(q);
    MemoryText();
    assert |AllBytes(p.cells)| >= 7;
    CellsRoundTrip(info.dramStart, addr);
    CellsRoundTrip(info.dramSize, size);
    assert q.cells[..addr] == Cells(info.dramStart, addr) && q.cells[addr..] == Cells(info.dramSize, size);
  }

  // ---- /chosen -------------------------------------------------------------

  /** The names of the properties that are replaced. */
  predicate Replaced(name: string)
  {
    name == "linux,initrd-start" || name == "linux,initrd-end" || name == "kaslr-seed" || name == "rng-seed"
  }

  lemma {:induction false} ReplacedByName(block: string, off: nat)
    requires Terminated(block) && off < |block|
    ensures IsReplaced(block, off) <==> Replaced(NameAt(block, off))
  {
    StrncmpIsEqual(block, off, "linux,initrd-start");
    StrncmpIsEqual(block, off, "linux,initrd-end");
    StrncmpIsEqual(block, off, "kaslr-seed");
    StrncmpIsEqual(block, off, "rng-seed");
  }

  /** What stays is what had another name. */
  lemma {:induction false} KeptLookup(env: Env, props: seq<Prop>, name: string)
    requires Terminated(env.block) && GoodProps(props, |env.block|)
    ensures Lookup(Strings(env.block), Kept(env, props), name) ==
            if Replaced(name) then None else Lookup(env.block, props, name)
    decreases |props|
  {
    if props != [] {
      var p := props[0];
      ReplacedByName(env.block, p.off);
      NameAtKept(env.block, Joined(InsertedNames()), p.off);
      KeptLookup(env, props[1..], name);
      LookupJoin(Strings(env.block), KeptOne(env, p), Kept(env, props[1..]), name);
      assert Lookup(Strings(env.block), [p], name) == if NameAt(env.block, p.off) == name then Some(p) else None;
    }
  }

  lemma {:induction false} LookupOne(block: string, p: Prop, name: string)
    ensures Lookup(block, [], name) == None
    ensures Lookup(block, [p], name) == if NameAt(block, p.off) == name then Some(p) else None
  {
  }

  /** The new properties by name. */
  function NewValue(info: Info, addr: nat, strings: nat, name: string): Option<Prop>
  {
    if name == "linux,initrd-start" && info.initrdStart != info.initrdEnd && addr > 0 then
      Some(Prop(Off(strings, INITRD_START), 4 * addr, Zeros(addr - 1) + [Word32(info.initrdStart)]))
    else if name == "linux,initrd-end" && info.initrdStart != info.initrdEnd && addr > 0 then
      Some(Prop(Off(strings, INITRD_END), 4 * addr, Zeros(addr - 1) + [Word32(info.initrdEnd)]))
    else if name == "kaslr-seed" && |info.entropy| >= 2 then Some(Prop(Off(strings, KASLR_SEED), 8, info.entropy[..2]))
    else if name == "rng-seed" && |info.entropy| > 2 then
      Some(Prop(Off(strings, RNG_SEED), 4 * (|info.entropy| - 2), info.entropy[2..]))
    else None
  }

  lemma {:induction false} InitrdLookup(info: Info, addr: nat, block: string, name: string)
    requires info.initrdStart != info.initrdEnd ==> addr > 0
    ensures Lookup(Strings(block), InitrdProps(info, addr, |block|), name) ==
      if name == "linux,initrd-start" || name == "linux,initrd-end" then NewValue(info, addr, |block|, name) else None
  {
    SixNames(block);
    var props := InitrdProps(info, addr, |block|);
    if info.initrdStart != info.initrdEnd {
      assert props == [props[0]] + [props[1]];
      LookupJoin(Strings(block), [props[0]], [props[1]], name);
      LookupOne(Strings(block), props[0], name);
      LookupOne(Strings(block), props[1], name);
    }
  }

  lemma {:induction false} SeedLookup(info: Info, addr: nat, block: string, name: string)
    ensures Lookup(Strings(block), SeedProps(info, |block|), name) ==
      if name == "kaslr-seed" then NewValue(info, addr, |block|, name) else None
    ensures Lookup(Strings(block), RngProps(info, |block|), name) ==
      if name == "rng-seed" then NewValue(info, addr, |block|, name) else None
  {
    SixNames(block);
    if |info.entropy| >= 2 {
      LookupOne(Strings(block), SeedProps(info, |block|)[0], name);
    }
    if |info.entropy| > 2 {
      LookupOne(Strings(block), RngProps(info, |block|)[0], name);
    }
  }

  lemma {:induction false} ChosenLookup(info: Info, addr: nat, block: string, name: string)
    requires info.initrdStart != info.initrdEnd ==> addr > 0
    ensures Lookup(Strings(block), ChosenProps(info, addr, |block|), name) ==
      if Replaced(name) then NewValue(info, addr, |block|, name) else None
  {
    var a, b, c := InitrdProps(info, addr, |block|), SeedProps(info, |block|), RngProps(info, |block|);
    InitrdLookup(info, addr, block, name);
    SeedLookup(info, addr, block, name);
    LookupJoin(Strings(block), a + b, c, name);
    LookupJoin(Strings(block), a, b, name);
  }

  /** What a reader finds in /chosen: the four properties as the addendum has them, and the others as they were. */
  lemma {:induction false} ChosenNode(env: Env, addr: nat, t: Tree, name: string)
    requires InitrdFits(env, addr) && Terminated(env.block) && GoodProps(t.props, |env.block|)
    ensures var r := Renewed(env, addr, t);
      && r.name == t.name && r.kids == t.kids
      && Lookup(Strings(env.block), r.props, name) ==
           if Replaced(name) then NewValue(env.info, addr, |env.block|, name) else Lookup(env.block, t.props, name)
  {
    KeptLookup(env, t.props, name);
    ChosenLookup(env.info, addr, env.block, name);
    LookupJoin(Strings(env.block), Kept(env, t.props), ChosenProps(env.info, addr, |env.block|), name);
  }

  /** The addresses are numbers of as many cells as an address has; they are cut to 32 bits. */
  lemma {:induction false} InitrdNumbers(info: Info, addr: nat, strings: nat)
    requires info.initrdStart != info.initrdEnd && addr > 0
    ensures var p := NewValue(info, addr, strings, "linux,initrd-start");
      var q := NewValue(info, addr, strings, "linux,initrd-end");
      && p.Some? && IsNumber(p.value, addr, info.initrdStart % 0x1_0000_0000)
      && q.Some? && IsNumber(q.value, addr, info.initrdEnd % 0x1_0000_0000)
  {
    LastCellReadsBack(info.initrdStart % 0x1_0000_0000, addr - 1);
    LastCellReadsBack(info.initrdEnd % 0x1_0000_0000, addr - 1);
  }

  // ---- the whole tree ------------------------------------------------------

  /** The children that are neither of the two, in their order. */
  function Others(ts: seq<Tree>): seq<Tree>
  {
    if ts == [] then []
    else (if ts[0].name == "memory" || ts[0].name == "chosen" then [] else [ts[0]]) + Others(ts[1..])
  }

  /** The children of a name, in their order. */
  function Called(ts: seq<Tree>, name: string): seq<Tree>
  {
    if ts == [] then [] else (if ts[0].name == name then [ts[0]] else []) + Called(ts[1..], name)
  }

  function RenewAll(env: Env, addr: nat, ts: seq<Tree>): seq<Tree>
    requires InitrdFits(env, addr)
  {
    seq(|ts|, i requires 0 <= i < |ts| => Renewed(env, addr, ts[i]))
  }

  lemma {:induction false} JoinOthers(a: seq<Tree>, b: seq<Tree>)
    ensures Others(a + b) == Others(a) + Others(b)
  {
    if a == [] {
      assert a + b == b;
    } else {
      assert (a + b)[1..] == a[1..] + b;
      JoinOthers(a[1..], b);
    }
  }

  lemma {:induction false} JoinCalled(a: seq<Tree>, b: seq<Tree>, name: string)
    ensures Called(a + b, name) == Called(a, name) + Called(b, name)
  {
    if a == [] {
      assert a + b == b;
    } else {
      var one := if a[0].name == name then [a[0]] else [];
      assert (a + b)[1..] == a[1..] + b;
      JoinCalled(a[1..], b, name);
      assert one + (Called(a[1..], name) + Called(b, name)) == (one + Called(a[1..], name)) + Called(b, name);
    }
  }

  lemma {:induction false} JoinKids(a: seq<Tree>, b: seq<Tree>, name: string)
    ensures Others(a + b) == Others(a) + Others(b) && Called(a + b, name) == Called(a, name) + Called(b, name)
  {
    JoinOthers(a, b);
    JoinCalled(a, b, name);
  }

  lemma {:induction false} OneFound(env: Env, addr: nat, t: Tree)
    requires KidOk(env, addr, t)
    ensures var a := RewriteKid(env, addr, t);
      && Others(a) == Others([t]) && Called(a, "memory") == []
      && Called(a, "chosen") == if t.name == "chosen" then [Renewed(env, addr, t)] else []
  {
    assert [t][1..] == [];
    if t.name == "chosen" {
      var r := Renewed(env, addr, t);
      assert [r][1..] == [];
    }
  }

  lemma {:induction false} OthersFound(env: Env, addr: nat, ts: seq<Tree>)
    requires KidsOk(env, addr, ts)
    ensures Others(RewriteKids(env, addr, ts)) == Others(ts) && Called(RewriteKids(env, addr, ts), "memory") == []
    decreases |ts|
  {
    if ts != [] {
      KidsSplit(env, addr, ts);
      OthersFound(env, addr, ts[1..]);
      JoinKids(RewriteKid(env, addr, ts[0]), RewriteKids(env, addr, ts[1..]), "memory");
      OneFound(env, addr, ts[0]);
      assert ts == [ts[0]] + ts[1..];
      JoinKids([ts[0]], ts[1..], "memory");
    }
  }

  /** Every /chosen is renewed. */
  ghost predicate AllRenewed(env: Env, addr: nat, before: seq<Tree>, now: seq<Tree>)
  {
    if before == [] then now == [] else InitrdFits(env, addr) && now == RenewAll(env, addr, before)
  }

  lemma {:induction false} RenewedJoin(env: Env, addr: nat, t: Tree, before: seq<Tree>, now: seq<Tree>)
    requires InitrdFits(env, addr) && AllRenewed(env, addr, before, now)
    ensures AllRenewed(env, addr, [t] + before, [Renewed(env, addr, t)] + now)
  {
  }

  lemma {:induction false} ChosenFound(env: Env, addr: nat, ts: seq<Tree>)
    requires KidsOk(env, addr, ts)
    ensures AllRenewed(env, addr, Called(ts, "chosen"), Called(RewriteKids(env, addr, ts), "chosen"))
    decreases |ts|
  {
    if ts != [] {
      KidsSplit(env, addr, ts);
      var a, b := RewriteKid(env, addr, ts[0]), RewriteKids(env, addr, ts[1..]);
      ChosenFound(env, addr, ts[1..]);
      JoinKids(a, b, "chosen");
      OneFound(env, addr, ts[0]);
      if ts[0].name == "chosen" {
        RenewedJoin(env, addr, ts[0], Called(ts[1..], "chosen"), Called(b, "chosen"));
      } else {
        assert [] + Called(ts[1..], "chosen") == Called(ts[1..], "chosen");
      assert [] + Called(b, "chosen") == Called(b, "chosen");
      }
    }
  }

  /**
   The tree after the rewrite: the root keeps its properties and all children but the two, in
   their order; every /chosen is renewed; and the last child, the only one of its name, is the
   memory node, which says where the memory is and how much.
   */
  lemma {:induction false} RewrittenTree(env: Env, root: Tree)
    requires Accepted(env, root) && env.info.dramStart < 0x1_0000_0000_0000_0000
    requires env.info.dramSize < 0x1_0000_0000_0000_0000
    ensures var c, t := CountsOf(env, 0, 0, root.props), Rewritten(env, root);
      && t.name == root.name && t.props == root.props && Others(t.kids) == Others(root.kids)
      && AllRenewed(env, c.addr, Called(root.kids, "chosen"), Called(t.kids, "chosen"))
      && t.kids != [] && Called(t.kids, "memory") == [t.kids[|t.kids| - 1]]
      && SaysMemory(Strings(env.block), t.kids[|t.kids| - 1], c.addr, env.info.dramStart, c.size, env.info.dramSize)
  {
    var c := CountsOf(env, 0, 0, root.props);
    var kids, m := RewriteKids(env, c.addr, root.kids), MemoryTree(env.info, c.addr, c.size, |env.block|);
    OthersFound(env, c.addr, root.kids);
    ChosenFound(env, c.addr, root.kids);
    JoinKids(kids, [m], "memory");
    JoinKids(kids, [m], "chosen");
    assert [m][1..] == [];
    MemoryNode(env.info, c.addr, c.size, env.block);
  }
}
